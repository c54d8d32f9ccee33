/** Whole runs of the browser: keys, and replies to the commands sent, in every order. */
module ApisRuns {
  import opened Text
  import opened ApisBrowser

  /** The browser, the commands whose replies are still to come, and every revision that a load has returned
      for an API. */
  datatype World = World(s: State, pending: multiset<Cmd>, loaded: set<(APIRef, Revision)>)

  datatype Event = Press(key: Key) | Reply(cmd: Cmd, msg: Msg)

  const FIRST := World(START, multiset{LoadPage("", "", true)}, {})

  predicate Answers(cmd: Cmd, msg: Msg) {
    match cmd
    case LoadPage(_, _, reset) => msg.PageMsg? && msg.reset == reset
    case LoadOps(ref) => msg.OpsMsg? && msg.name == Label(ref)
    case LoadRevs(_) => msg.RevsMsg?
    case DeleteAPI(_) => msg.ActionMsg? && msg.back
    case Promote(_, _) => msg.ActionMsg? && !msg.back
    case Archive(_, _) => msg.ActionMsg? && !msg.back
    case DeleteRevision(_, _) => msg.ActionMsg? && !msg.back
    case _ => false
  }

  predicate Possible(w: World, e: Event) {
    e.Reply? ==> e.cmd in w.pending && Answers(e.cmd, e.msg)
  }

  function Message(e: Event): Msg {
    match e
    case Press(key) => KeyMsg(key)
    case Reply(_, msg) => msg
  }

  /** The command that an event makes the browser send. */
  function Sent(w: World, e: Event): Cmd {
    After(w.s, Message(e)).1
  }

  function Next(w: World, e: Event): World {
    World(After(w.s, Message(e)).0,
          (if e.Reply? then w.pending - multiset{e.cmd} else w.pending) + multiset{Sent(w, e)},
          if e.Reply? && e.cmd.LoadRevs? && e.msg.RevsMsg? && e.msg.revs.Some?
          then w.loaded + (set r | r in e.msg.revs.value :: (e.cmd.ref, r)) else w.loaded)
  }

  function Last(events: seq<Event>): Event
    requires events != []
  {
    events[|events| - 1]
  }

  function Before(events: seq<Event>): seq<Event>
    requires events != []
  {
    events[..|events| - 1]
  }

  function Run(events: seq<Event>): World {
    if events == [] then FIRST else Next(Run(Before(events)), Last(events))
  }

  predicate IsRun(events: seq<Event>) {
    events == [] || (IsRun(Before(events)) && Possible(Run(Before(events)), Last(events)))
  }

  // ----- cursors -----

  /** Whatever arrives, both cursors stay inside their lists. */
  lemma {:induction false} CursorsStayInRange(events: seq<Event>)
    ensures InRange(Run(events).s)
  {
    if events != [] {
      CursorsStayInRange(Before(events));
      StaysInRange(Run(Before(events)).s, Message(Last(events)));
    }
  }

  // ----- revisions and the API they were loaded for -----

  /** An action on a revision can follow. */
  predicate Showing(s: State) {
    s.view.Revisions? || s.prompt.confirm.ConfirmDeleteRevision?
  }

  ghost predicate LoadsOnly(pending: multiset<Cmd>, ref: APIRef) {
    forall c :: c in pending && c.LoadRevs? ==> c.ref == ref
  }

  ghost predicate Paired(w: World) {
    Showing(w.s) ==>
      LoadsOnly(w.pending, w.s.drill.revAPI) && forall r :: r in w.s.drill.revs ==> (w.s.drill.revAPI, r) in w.loaded
  }

  /** Revisions are opened only while no load of another API's revisions is outstanding. */
  ghost predicate OpensCleanly(w: World, e: Event) {
    e.Press? && Sent(w, e).LoadRevs? ==> LoadsOnly(w.pending, Sent(w, e).ref)
  }

  /** The action sent is one for a revision that was loaded for the API it names. */
  ghost predicate ActsOnLoaded(w: World, cmd: Cmd) {
    match cmd
    case Promote(ref, id) => (ref, Revision(id, "draft")) in w.loaded
    case Archive(ref, id) => (ref, Revision(id, "draft")) in w.loaded
    case DeleteRevision(ref, id) => exists r :: (ref, r) in w.loaded && r.id == id
    case _ => true
  }

  lemma PairedKey(w: World, key: Key)
    requires Paired(w) && OpensCleanly(w, Press(key))
    ensures Paired(Next(w, Press(key)))
  {
    KeyShows(w.s, key);
  }

  /** A key opens an empty list of revisions and loads it, or leaves the one shown alone. */
  lemma KeyShows(s: State, key: Key)
    ensures var (t, cmd) := AfterKey(s, key);
            && (Showing(t) && !Showing(s) ==> t.drill.revs == [] && cmd == LoadRevs(t.drill.revAPI))
            && (Showing(t) && Showing(s) ==>
                  t.drill.revs == s.drill.revs && t.drill.revAPI == s.drill.revAPI && !cmd.LoadRevs?)
  {
  }

  lemma ActsOnShown(w: World, e: Event)
    requires Paired(w)
    ensures ActsOnLoaded(w, Sent(w, e))
  {
    var cmd := Sent(w, e);
    if cmd.Promote? || cmd.Archive? || cmd.DeleteRevision? {
      assert Showing(w.s) && CurrentRev(w.s).Some? && CurrentRev(w.s).value in w.s.drill.revs;
    }
  }

  lemma PairedReply(w: World, e: Event)
    requires Paired(w) && e.Reply? && Possible(w, e)
    ensures Paired(Next(w, e))
  {
    var t := Next(w, e);
    if Showing(t.s) {
      assert Showing(w.s) && t.s.drill.revAPI == w.s.drill.revAPI;
      assert Sent(w, e).LoadRevs? ==> Sent(w, e).ref == w.s.drill.revAPI;
      forall r | r in t.s.drill.revs ensures (t.s.drill.revAPI, r) in t.loaded {
        if e.msg.RevsMsg? && e.msg.revs.Some? { assert e.cmd.LoadRevs? && e.cmd.ref == w.s.drill.revAPI; }
      }
    }
  }

  ghost predicate OpenedCleanly(events: seq<Event>) {
    events == [] || (OpenedCleanly(Before(events)) && OpensCleanly(Run(Before(events)), Last(events)))
  }

  lemma {:induction false} StaysPaired(events: seq<Event>)
    requires IsRun(events) && OpenedCleanly(events)
    ensures Paired(Run(events))
  {
    if events != [] {
      StaysPaired(Before(events));
      PairedExactly(Run(Before(events)), Last(events));
    }
  }

  /** As long as revisions are opened only while no load of another API's revisions is outstanding, every promotion,
      archiving and deletion goes to an API for which that revision was loaded. */
  lemma ActionsFitTheAPI(events: seq<Event>, e: Event)
    requires IsRun(events) && OpenedCleanly(events)
    ensures ActsOnLoaded(Run(events), Sent(Run(events), e))
  {
    StaysPaired(events);
    ActsOnShown(Run(events), e);
  }

  /** A single possible step breaks the pairing exactly when it opens revisions over another API's load. */
  lemma PairedExactly(w: World, e: Event)
    requires Paired(w) && Possible(w, e)
    ensures Paired(Next(w, e)) <==> OpensCleanly(w, e)
  {
    if OpensCleanly(w, e) {
      match e
      case Press(key) => PairedKey(w, key);
      case Reply(_, _) => PairedReply(w, e);
    } else {
      var ref := Sent(w, e).ref;
      var c :| c in w.pending && c.LoadRevs? && c.ref != ref;
      assert c in Next(w, e).pending;
      assert Next(w, e).s.drill.revAPI == ref && Showing(Next(w, e).s);
    }
  }

  // ----- what goes wrong otherwise -----

  /** A revision that no load has returned for this API. */
  lemma {:induction false} Unheard(loaded: set<(APIRef, Revision)>) returns (n: nat)
    ensures forall p :: p in loaded ==> |p.1.id| < n
    decreases loaded
  {
    if loaded == {} {
      n := 0;
    } else {
      var p :| p in loaded;
      var m := Unheard(loaded - {p});
      n := if m > |p.1.id| then m else |p.1.id| + 1;
      forall q | q in loaded ensures |q.1.id| < n {
        if q != p { assert q in loaded - {p}; }
      }
    }
  }

  /** With another API's load outstanding over fresh revisions, two more events act on a revision that was never
      loaded for the API it names. */
  lemma LateLoadMisfires(w: World, load: Cmd) returns (late: Event, act: Event)
    requires w.s.view == Revisions && w.s.prompt.confirm == NoConfirm && !w.s.search.searching && !w.s.busy
    requires load in w.pending && load.LoadRevs? && load.ref != w.s.drill.revAPI && w.s.drill.revCursor == 0
    ensures Possible(w, late) && Possible(Next(w, late), act)
    ensures !ActsOnLoaded(Next(w, late), Sent(Next(w, late), act))
  {
    var n := Unheard(w.loaded);
    var id := seq(n, i => 'r');
    late := Reply(load, RevsMsg(Some([Revision(id, "draft")])));
    act := Press(Typed('p'));
    var v := Next(w, late);
    assert v.s == w.s.(drill := Drilldown(w.s.drill.revAPI, [Revision(id, "draft")], 0));
    assert Sent(v, act) == Promote(w.s.drill.revAPI, id);
  }

  predicate IsAction(c: Cmd) {
    c.Promote? || c.Archive? || c.DeleteRevision? || c.DeleteAPI?
  }

  ghost predicate BusyForAReason(w: World) {
    w.s.busy ==> exists c :: c in w.pending && IsAction(c)
  }

  lemma BusyStep(w: World, e: Event)
    requires BusyForAReason(w) && Possible(w, e)
    ensures BusyForAReason(Next(w, e))
  {
    var v := Next(w, e);
    assert Sent(w, e) in v.pending;
    if v.s.busy && !IsAction(Sent(w, e)) {
      assert w.s.busy && (e.Reply? ==> !IsAction(e.cmd));
      var c :| c in w.pending && IsAction(c);
      assert c in v.pending;
    }
  }

  /** The browser is busy only while the reply to an action is outstanding. */
  lemma {:induction false} BusyMeansPending(events: seq<Event>)
    requires IsRun(events)
    ensures BusyForAReason(Run(events))
  {
    if events != [] {
      BusyMeansPending(Before(events));
      BusyStep(Run(Before(events)), Last(events));
    }
  }

  lemma Failing(w: World) returns (failed: Event)
    requires w.s.busy && BusyForAReason(w)
    ensures Possible(w, failed) && Next(w, failed).s == w.s.(busy := false)
    ensures forall c :: c in w.pending && c.LoadRevs? ==> c in Next(w, failed).pending
  {
    var action :| action in w.pending && IsAction(action);
    failed := Reply(action, ActionMsg(false, action.DeleteAPI?));
  }

  lemma OpenedOver(w: World, key: Key) returns (load: Cmd)
    requires !OpensCleanly(w, Press(key))
    ensures var v := Next(w, Press(key));
            && v.s.view == Revisions && v.s.prompt.confirm == NoConfirm && !v.s.search.searching
            && load in v.pending && load.LoadRevs? && load.ref != v.s.drill.revAPI && v.s.drill.revCursor == 0
  {
    var ref := Sent(w, Press(key)).ref;
    load :| load in w.pending && load.LoadRevs? && load.ref != ref;
    assert Next(w, Press(key)).s == w.s.(view := Revisions, drill := Drilldown(ref, [], 0));
  }

  /** A run can go on until the browser is not busy, with every load of revisions still outstanding. */
  lemma FreedUp(events: seq<Event>) returns (more: seq<Event>)
    requires IsRun(events)
    ensures events <= more && IsRun(more) && Run(more).s == Run(events).s.(busy := false)
    ensures forall c :: c in Run(events).pending && c.LoadRevs? ==> c in Run(more).pending
  {
    more := events;
    if Run(events).s.busy {
      BusyMeansPending(events);
      var failed := Failing(Run(events));
      Extend(events, failed);
      more := events + [failed];
    }
  }

  /** Whenever a run opens revisions over a load of another API's, it can go on to act on a revision that was never
      loaded for the API it names. */
  lemma UncleanOpeningMisfires(events: seq<Event>, key: Key) returns (more: seq<Event>, act: Event)
    requires IsRun(events) && !OpensCleanly(Run(events), Press(key))
    ensures events + [Press(key)] <= more && IsRun(more) && Possible(Run(more), act)
    ensures !ActsOnLoaded(Run(more), Sent(Run(more), act))
  {
    var load := OpenedOver(Run(events), key);
    Extend(events, Press(key));
    var free := FreedUp(events + [Press(key)]);
    more, act := Misfire(free, load);
  }

  lemma Misfire(events: seq<Event>, load: Cmd) returns (more: seq<Event>, act: Event)
    requires IsRun(events)
    requires var w := Run(events);
             && w.s.view == Revisions && w.s.prompt.confirm == NoConfirm && !w.s.search.searching && !w.s.busy
             && load in w.pending && load.LoadRevs? && load.ref != w.s.drill.revAPI && w.s.drill.revCursor == 0
    ensures events <= more && IsRun(more) && Possible(Run(more), act)
    ensures !ActsOnLoaded(Run(more), Sent(Run(more), act))
  {
    var late;
    late, act := LateLoadMisfires(Run(events), load);
    Extend(events, late);
    more := events + [late];
  }

  lemma BackFromRevisions(w: World, a: APIRef, b: APIRef)
    requires w.s == START.(list := Listing([a, b], 0, "", false, false))
    ensures var v := Next(Next(Next(w, Press(Enter)), Press(Esc)), Press(Down));
            LoadRevs(a) in v.pending && Current(v.s) == Some(b) && v.s.view == APIs
            && !v.s.busy && v.s.prompt.confirm == NoConfirm && !v.s.search.searching
  {
    var w2 := Next(w, Press(Enter));
    assert w2.s == w.s.(view := Revisions, drill := Drilldown(a, [], 0)) && LoadRevs(a) in w2.pending;
    var w3 := Next(w2, Press(Esc));
    assert w3.s == w2.s.(view := APIs) && LoadRevs(a) in w3.pending;
    assert Next(w3, Press(Down)).s == w3.s.(list := Listing([a, b], 1, "", false, false));
  }

  lemma FirstPage(a: APIRef, b: APIRef) returns (page: Event)
    ensures Possible(FIRST, page)
    ensures Next(FIRST, page).s == START.(list := Listing([a, b], 0, "", false, false))
  {
    page := Reply(LoadPage("", "", true), PageMsg(true, Some(Page([a, b], false, ""))));
  }

  lemma Extend(events: seq<Event>, e: Event)
    requires IsRun(events) && Possible(Run(events), e)
    ensures IsRun(events + [e]) && Run(events + [e]) == Next(Run(events), e)
  {
    assert Before(events + [e]) == events;
  }

  /** Such an opening can be reached, by opening one API's revisions, going back, and opening another's before they
      arrive; so there are runs that act on a revision never loaded for the API named. */
  lemma StaleReplyMisfires(a: APIRef, b: APIRef) returns (events: seq<Event>, act: Event)
    requires a != b
    ensures IsRun(events) && Possible(Run(events), act) && !ActsOnLoaded(Run(events), Sent(Run(events), act))
  {
    var page := FirstPage(a, b);
    Extend([], page);
    events := [] + [page];
    BackFromRevisions(Run(events), a, b);
    Extend(events, Press(Enter));
    Extend(events + [Press(Enter)], Press(Esc));
    Extend(events + [Press(Enter)] + [Press(Esc)], Press(Down));
    events := events + [Press(Enter)] + [Press(Esc)] + [Press(Down)];
    OpensOverLoad(Run(events), a, b);
    events, act := UncleanOpeningMisfires(events, Enter);
  }

  lemma OpensOverLoad(v: World, a: APIRef, b: APIRef)
    requires a != b && LoadRevs(a) in v.pending && Current(v.s) == Some(b) && v.s.view == APIs
    requires v.s.prompt.confirm == NoConfirm && !v.s.search.searching
    ensures !OpensCleanly(v, Press(Enter))
  {
    assert Sent(v, Press(Enter)) == LoadRevs(b);
  }

  // ----- the program -----

  /** The loop of the terminal program hands every message to the browser. */
  method Program(events: seq<Event>) returns (b: Browser)
    ensures fresh(b) && b.Valid() && b.Value() == Run(events).s
  {
    b := new Browser();
    for i := 0 to |events|
      invariant fresh(b) && b.Valid() && b.Value() == Run(events[..i]).s
    {
      assert Before(events[..i + 1]) == events[..i];
      var _ := b.Update(Message(events[i]));
    }
    assert events[..|events|] == events;
  }
}
