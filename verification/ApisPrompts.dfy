/** The two prompts of the browser in whole runs: what a yes deletes. */
module ApisPrompts {
  import opened Text
  import opened ApisBrowser
  import opened ApisRuns

  // ----- the prompt before an API is deleted -----

  predicate AsksForAPI(s: State, msg: Msg) {
    !s.prompt.confirm.ConfirmDeleteAPI? && After(s, msg).0.prompt.confirm.ConfirmDeleteAPI?
  }

  /** The API that was under the cursor when the prompt for an API was last opened. */
  function AskedFor(events: seq<Event>): Option<APIRef> {
    if events == [] then None
    else if AsksForAPI(Run(Before(events)).s, Message(Last(events))) then Current(Run(Before(events)).s)
    else AskedFor(Before(events))
  }

  predicate Remembers(s: State, asked: Option<APIRef>) {
    s.prompt.confirm.ConfirmDeleteAPI? ==>
      asked == Some(s.drill.revAPI) && s.prompt.target == Label(s.drill.revAPI)
  }

  lemma RemembersStep(s: State, msg: Msg, asked: Option<APIRef>)
    requires Remembers(s, asked)
    ensures Remembers(After(s, msg).0, if AsksForAPI(s, msg) then Current(s) else asked)
    ensures After(s, msg).1.DeleteAPI? ==>
              && s.prompt.confirm.ConfirmDeleteAPI? && asked == Some(After(s, msg).1.ref)
              && s.prompt.target == Label(After(s, msg).1.ref)
  {
  }

  lemma {:induction false} PromptsRemember(events: seq<Event>)
    ensures Remembers(Run(events).s, AskedFor(events))
  {
    if events != [] {
      PromptsRemember(Before(events));
      RemembersStep(Run(Before(events)).s, Message(Last(events)), AskedFor(Before(events)));
    }
  }

  /** Whatever arrives, an API is deleted only from a prompt, and it is the very API that was under the cursor when
      the prompt was opened, under the label that the prompt shows. */
  lemma DeletesTheNamedAPI(events: seq<Event>, e: Event)
    requires Sent(Run(events), e).DeleteAPI?
    ensures var ref, p := Sent(Run(events), e).ref, Run(events).s.prompt;
            p.confirm.ConfirmDeleteAPI? && AskedFor(events) == Some(ref) && p.target == Label(ref)
  {
    PromptsRemember(events);
    RemembersStep(Run(events).s, Message(e), AskedFor(events));
  }

  // ----- the prompt before a revision is deleted -----

  /** The prompt for a revision names the revision under the cursor. */
  predicate PromptNamesRevision(s: State) {
    s.prompt.confirm.ConfirmDeleteRevision? ==>
      CurrentRev(s).Some? && s.prompt.target == "revision " + CurrentRev(s).value.id
  }

  /** A command whose reply brings revisions, or sends for them. */
  predicate BringsRevisions(c: Cmd) {
    c.LoadRevs? || c.Promote? || c.Archive? || c.DeleteRevision?
  }

  /** Neither a load of revisions nor an action on one is outstanding. */
  ghost predicate Quiet(w: World) {
    forall c :: c in w.pending ==> !BringsRevisions(c)
  }

  predicate OpensPrompt(w: World, e: Event) {
    !w.s.prompt.confirm.ConfirmDeleteRevision? && Next(w, e).s.prompt.confirm.ConfirmDeleteRevision?
  }

  ghost predicate Safe(w: World) {
    w.s.prompt.confirm.ConfirmDeleteRevision? ==> Quiet(w) && PromptNamesRevision(w.s)
  }

  lemma SafeKey(w: World, key: Key)
    requires OpensPrompt(w, Press(key)) ==> Quiet(w)
    ensures Safe(Next(w, Press(key)))
  {
  }

  lemma SafeReply(w: World, e: Event)
    requires Safe(w) && e.Reply? && Possible(w, e)
    ensures Safe(Next(w, e))
  {
    if w.s.prompt.confirm.ConfirmDeleteRevision? {
      assert !BringsRevisions(e.cmd);
      assert Next(w, e).s.drill == w.s.drill && !BringsRevisions(Sent(w, e));
    }
  }

  /** In this run every prompt for a revision was opened with nothing outstanding that brings revisions. */
  ghost predicate PromptsOpenedQuietly(events: seq<Event>) {
    events == [] || (PromptsOpenedQuietly(Before(events))
                     && (OpensPrompt(Run(Before(events)), Last(events)) ==> Quiet(Run(Before(events)))))
  }

  lemma {:induction false} StaysSafe(events: seq<Event>)
    requires IsRun(events) && PromptsOpenedQuietly(events)
    ensures Safe(Run(events))
  {
    if events != [] {
      StaysSafe(Before(events));
      match Last(events)
      case Press(key) => SafeKey(Run(Before(events)), key);
      case Reply(_, _) => SafeReply(Run(Before(events)), Last(events));
    }
  }

  /** As long as prompts for revisions are opened quietly, the revision deleted is the one the prompt names. */
  lemma DeletesTheNamedRevision(events: seq<Event>, e: Event)
    requires IsRun(events) && PromptsOpenedQuietly(events) && Sent(Run(events), e).DeleteRevision?
    ensures Run(events).s.prompt.confirm.ConfirmDeleteRevision?
    ensures Run(events).s.prompt.target == "revision " + Sent(Run(events), e).id
  {
    StaysSafe(events);
    YesDeletes(Run(events).s, Message(e));
  }

  lemma YesDeletes(s: State, msg: Msg)
    requires After(s, msg).1.DeleteRevision?
    ensures s.prompt.confirm.ConfirmDeleteRevision? && CurrentRev(s).Some?
    ensures After(s, msg).1 == DeleteRevision(s.drill.revAPI, CurrentRev(s).value.id)
  {
  }

  // ----- exactly then -----

  /** Replies that arrive while the prompt waits for its answer. */
  predicate Waits(w: World, replies: seq<Event>) {
    replies == []
    || (Waits(w, Before(replies)) && Last(replies).Reply? && Possible(Later(w, Before(replies)), Last(replies)))
  }

  function Later(w: World, events: seq<Event>): World {
    if events == [] then w else Next(Later(w, Before(events)), Last(events))
  }

  /** A yes given now deletes the revision that the prompt names. */
  predicate YesIsTrue(w: World) {
    var cmd := Sent(w, Press(Typed('y')));
    cmd.DeleteRevision? && w.s.prompt.target == "revision " + cmd.id
  }

  lemma {:induction false} QuietPromptWaits(w: World, replies: seq<Event>)
    requires w.s.prompt.confirm.ConfirmDeleteRevision? && Quiet(w) && PromptNamesRevision(w.s) && Waits(w, replies)
    ensures Safe(Later(w, replies)) && Later(w, replies).s.prompt == w.s.prompt
  {
    if replies != [] {
      QuietPromptWaits(w, Before(replies));
      SafeReply(Later(w, Before(replies)), Last(replies));
      PromptWaits(Later(w, Before(replies)), Last(replies));
    }
  }

  lemma PromptWaits(w: World, e: Event)
    requires e.Reply? && Possible(w, e)
    ensures Next(w, e).s.prompt == w.s.prompt
  {
  }

  /** A load of revisions under the open prompt can make a yes delete another revision than the one named. */
  lemma LateLoadMisleads(w: World, load: Cmd) returns (late: Event)
    requires w.s.prompt.confirm.ConfirmDeleteRevision? && 0 <= w.s.drill.revCursor
    requires load in w.pending && load.LoadRevs?
    ensures late.Reply? && Possible(w, late) && Sent(Next(w, late), Press(Typed('y'))).DeleteRevision?
    ensures !YesIsTrue(Next(w, late))
  {
    var id := w.s.prompt.target;
    late := Reply(load, RevsMsg(Some([Revision(id, "archived")])));
    var v := Next(w, late);
    assert v.s == w.s.(drill := Drilldown(w.s.drill.revAPI, [Revision(id, "archived")], 0));
    assert Sent(v, Press(Typed('y'))) == DeleteRevision(w.s.drill.revAPI, id);
    assert |"revision " + id| > |id|;
  }

  /** So can an action, through the load that its reply sends for. */
  lemma LateActionMisleads(w: World, action: Cmd) returns (done: Event, late: Event)
    requires w.s.prompt.confirm.ConfirmDeleteRevision? && 0 <= w.s.drill.revCursor
    requires action in w.pending && BringsRevisions(action) && !action.LoadRevs?
    ensures done.Reply? && Possible(w, done) && late.Reply? && Possible(Next(w, done), late)
    ensures !YesIsTrue(Next(Next(w, done), late))
  {
    done := Reply(action, ActionMsg(true, false));
    var v := Next(w, done);
    assert v.s == w.s.(busy := false) && LoadRevs(w.s.drill.revAPI) in v.pending;
    late := LateLoadMisleads(v, LoadRevs(w.s.drill.revAPI));
  }

  lemma Misled(w: World) returns (replies: seq<Event>)
    requires w.s.prompt.confirm.ConfirmDeleteRevision? && PromptNamesRevision(w.s) && !Quiet(w)
    ensures Waits(w, replies) && !YesIsTrue(Later(w, replies))
  {
    var c :| c in w.pending && BringsRevisions(c);
    if c.LoadRevs? {
      var late := LateLoadMisleads(w, c);
      replies := [late];
      OneMore(w, [], late);
    } else {
      var done, late := LateActionMisleads(w, c);
      replies := [done] + [late];
      OneMore(w, [], done);
      OneMore(w, [done], late);
    }
  }

  lemma OneMore(w: World, replies: seq<Event>, e: Event)
    ensures Later(w, replies + [e]) == Next(Later(w, replies), e)
    ensures Waits(w, replies) && e.Reply? && Possible(Later(w, replies), e) ==> Waits(w, replies + [e])
    ensures [] + [e] == [e]
  {
    assert Before(replies + [e]) == replies;
  }

  /** A yes is true whenever it is given, whatever arrives before, exactly when the prompt is open in a quiet world. */
  lemma PromptIsTrueExactly(w: World)
    requires w.s.prompt.confirm.ConfirmDeleteRevision? && PromptNamesRevision(w.s)
    ensures (forall replies :: Waits(w, replies) ==> YesIsTrue(Later(w, replies))) <==> Quiet(w)
  {
    if Quiet(w) {
      forall replies | Waits(w, replies) ensures YesIsTrue(Later(w, replies)) {
        QuietPromptWaits(w, replies);
      }
    } else {
      var replies := Misled(w);
    }
  }

  // ----- a run that misleads -----

  lemma Opening(w: World, a: APIRef)
    requires w.s.view == APIs && w.s.prompt.confirm == NoConfirm && !w.s.search.searching
    requires Current(w.s) == Some(a) && LoadsOnly(w.pending, a)
    ensures OpensCleanly(w, Press(Enter))
    ensures var v := Next(w, Press(Enter));
            && v.s == w.s.(view := Revisions, drill := Drilldown(a, [], 0))
            && LoadsOnly(v.pending, a) && v.pending[LoadRevs(a)] == w.pending[LoadRevs(a)] + 1
  {
    assert Sent(w, Press(Enter)) == LoadRevs(a);
  }

  lemma Leaving(w: World, a: APIRef)
    requires w.s.view == Revisions && w.s.prompt.confirm == NoConfirm && !w.s.search.searching
    requires LoadsOnly(w.pending, a)
    ensures OpensCleanly(w, Press(Esc))
    ensures var v := Next(w, Press(Esc));
            && v.s == w.s.(view := APIs)
            && LoadsOnly(v.pending, a) && v.pending[LoadRevs(a)] == w.pending[LoadRevs(a)]
  {
    assert Sent(w, Press(Esc)) == NoCmd;
  }

  lemma ExtendCleanly(events: seq<Event>, e: Event)
    requires IsRun(events) && OpenedCleanly(events) && Possible(Run(events), e) && OpensCleanly(Run(events), e)
    ensures IsRun(events + [e]) && OpenedCleanly(events + [e]) && Run(events + [e]) == Next(Run(events), e)
  {
    assert Before(events + [e]) == events;
  }

  lemma PromptOverLoad(v: World, a: APIRef, r: Revision)
    requires v.s == START.(list := Listing([a], 0, "", false, false), view := Revisions, drill := Drilldown(a, [], 0))
    requires v.pending[LoadRevs(a)] >= 2 && r.state == "archived"
    ensures var late := Reply(LoadRevs(a), RevsMsg(Some([r])));
            var u := Next(Next(v, late), Press(Typed('x')));
            && Possible(v, late) && LoadRevs(a) in u.pending
            && OpensCleanly(Next(v, late), Press(Typed('x')))
            && u.s.prompt.confirm.ConfirmDeleteRevision? && PromptNamesRevision(u.s)
  {
    var late := Reply(LoadRevs(a), RevsMsg(Some([r])));
    var w := Next(v, late);
    assert w.s == v.s.(drill := Drilldown(a, [r], 0)) && w.pending[LoadRevs(a)] >= 1;
  }

  lemma Reopened(a: APIRef) returns (events: seq<Event>)
    ensures IsRun(events) && OpenedCleanly(events) && Run(events).pending[LoadRevs(a)] >= 2
    ensures Run(events).s
         == START.(list := Listing([a], 0, "", false, false), view := Revisions, drill := Drilldown(a, [], 0))
  {
    var page := Reply(LoadPage("", "", true), PageMsg(true, Some(Page([a], false, ""))));
    ExtendCleanly([], page);
    events := [] + [page];
    Opening(Run(events), a);
    ExtendCleanly(events, Press(Enter));
    events := events + [Press(Enter)];
    Leaving(Run(events), a);
    ExtendCleanly(events, Press(Esc));
    events := events + [Press(Esc)];
    Opening(Run(events), a);
    ExtendCleanly(events, Press(Enter));
    events := events + [Press(Enter)];
  }

  /** Opening an API's revisions twice is enough: a run from the start, without any unclean opening, in which a yes
      deletes another revision than the one the prompt names. */
  lemma LateReloadMisfires(a: APIRef, r: Revision) returns (events: seq<Event>)
    requires r.state == "archived"
    ensures IsRun(events) && OpenedCleanly(events) && Run(events).s.prompt.confirm.ConfirmDeleteRevision?
    ensures Sent(Run(events), Press(Typed('y'))).DeleteRevision? && !YesIsTrue(Run(events))
  {
    events := Reopened(a);
    PromptOverLoad(Run(events), a, r);
    var first := Reply(LoadRevs(a), RevsMsg(Some([r])));
    ExtendCleanly(events, first);
    ExtendCleanly(events + [first], Press(Typed('x')));
    events := MisledFrom(events + [first] + [Press(Typed('x'))], LoadRevs(a));
  }

  lemma MisledFrom(events: seq<Event>, load: Cmd) returns (more: seq<Event>)
    requires IsRun(events) && OpenedCleanly(events) && load in Run(events).pending && load.LoadRevs?
    requires Run(events).s.prompt.confirm.ConfirmDeleteRevision? && PromptNamesRevision(Run(events).s)
    ensures IsRun(more) && OpenedCleanly(more) && Run(more).s.prompt.confirm.ConfirmDeleteRevision?
    ensures Sent(Run(more), Press(Typed('y'))).DeleteRevision? && !YesIsTrue(Run(more))
  {
    var late := LateLoadMisleads(Run(events), load);
    PromptWaits(Run(events), late);
    ExtendCleanly(events, late);
    more := events + [late];
  }
}
