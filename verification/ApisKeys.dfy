/** Which event makes the browser of `cli/internal/cmd/apis_browser.go` send which command, in any state, and what a
    whole run shows. */
module ApisKeys {
  import opened Text
  import opened ApisBrowser
  import opened ApisRuns

  /** The keys go to the revisions. */
  predicate InRevisions(s: State) {
    s.view == Revisions && s.prompt.confirm == NoConfirm && !s.search.searching
  }

  /** The keys go to the list of APIs. */
  predicate InList(s: State) {
    s.view == APIs && s.prompt.confirm == NoConfirm && !s.search.searching
  }

  /** The keys go to the vendor filter. */
  predicate InSearch(s: State) {
    s.prompt.confirm == NoConfirm && s.search.searching
  }

  predicate Pressed(e: Event, k1: Key, k2: Key) {
    e == Press(k1) || e == Press(k2)
  }

  predicate IsYes(e: Event) {
    Pressed(e, Typed('y'), Typed('Y'))
  }

  predicate UnderCursor(s: State, api: APIRef) {
    0 <= s.list.cursor < |s.list.apis| && s.list.apis[s.list.cursor] == api
  }

  predicate RevUnderCursor(s: State, rev: Revision) {
    0 <= s.drill.revCursor < |s.drill.revs| && s.drill.revs[s.drill.revCursor] == rev
  }

  // ----- actions on revisions -----

  /** `p` promotes the draft under the cursor, for the API shown; nothing else promotes anything. */
  lemma PromotesExactly(w: World, e: Event, ref: APIRef, id: string)
    requires Possible(w, e)
    ensures Sent(w, e) == Promote(ref, id)
            <==> && e == Press(Typed('p')) && InRevisions(w.s) && !w.s.busy
                 && w.s.drill.revAPI == ref && RevUnderCursor(w.s, Revision(id, "draft"))
  {
  }

  /** `a` archives it. */
  lemma ArchivesExactly(w: World, e: Event, ref: APIRef, id: string)
    requires Possible(w, e)
    ensures Sent(w, e) == Archive(ref, id)
            <==> && e == Press(Typed('a')) && InRevisions(w.s) && !w.s.busy
                 && w.s.drill.revAPI == ref && RevUnderCursor(w.s, Revision(id, "draft"))
  {
  }

  /** `x` on an archived revision, and nothing else, opens the prompt for it. */
  lemma AsksForRevisionExactly(w: World, e: Event, id: string)
    requires Possible(w, e) && !w.s.prompt.confirm.ConfirmDeleteRevision?
    ensures Next(w, e).s.prompt == Prompt(ConfirmDeleteRevision, "revision " + id)
            <==> && e == Press(Typed('x')) && InRevisions(w.s) && !w.s.busy
                 && RevUnderCursor(w.s, Revision(id, "archived"))
  {
    forall other: string | "revision " + other == "revision " + id ensures other == id {
      assert ("revision " + other)[9..] == other && ("revision " + id)[9..] == id;
    }
  }

  /** A yes under it, and nothing else, deletes the revision under the cursor. */
  lemma DeletesRevisionExactly(w: World, e: Event, ref: APIRef, id: string)
    requires Possible(w, e)
    ensures Sent(w, e) == DeleteRevision(ref, id)
            <==> && IsYes(e) && w.s.prompt.confirm == ConfirmDeleteRevision && w.s.drill.revAPI == ref
                 && exists state :: RevUnderCursor(w.s, Revision(id, state))
  {
    if Sent(w, e) == DeleteRevision(ref, id) {
      assert RevUnderCursor(w.s, Revision(id, w.s.drill.revs[w.s.drill.revCursor].state));
    }
  }

  // ----- the list of APIs -----

  /** `d` on an API, and nothing else, opens the prompt for it. */
  lemma AsksForAPIExactly(w: World, e: Event, api: APIRef)
    requires Possible(w, e) && !w.s.prompt.confirm.ConfirmDeleteAPI?
    ensures Next(w, e).s.prompt.confirm.ConfirmDeleteAPI? && Next(w, e).s.drill.revAPI == api
            <==> e == Press(Typed('d')) && InList(w.s) && UnderCursor(w.s, api)
  {
  }

  lemma DeletesAPIExactly(w: World, e: Event, ref: APIRef)
    requires Possible(w, e)
    ensures Sent(w, e) == DeleteAPI(ref)
            <==> IsYes(e) && w.s.prompt.confirm == ConfirmDeleteAPI && w.s.drill.revAPI == ref
  {
  }

  /** Revisions are loaded for the API that is opened, and again for the API shown once an action on one has
      succeeded. */
  lemma LoadsRevisionsExactly(w: World, e: Event, ref: APIRef)
    requires Possible(w, e)
    ensures Sent(w, e) == LoadRevs(ref)
            <==> || (e == Press(Enter) && InList(w.s) && UnderCursor(w.s, ref))
                 || (e.Reply? && e.msg == ActionMsg(true, false) && w.s.drill.revAPI == ref)
  {
  }

  /** Operations are loaded for the API under the cursor, unless they are shown or on their way. */
  lemma LoadsOpsExactly(w: World, e: Event, ref: APIRef)
    requires Possible(w, e)
    ensures Sent(w, e) == LoadOps(ref)
            <==> && e == Press(Typed('o')) && InList(w.s) && UnderCursor(w.s, ref)
                 && Label(ref) !in w.s.preview.ops && w.s.preview.opsLoading != Label(ref)
  {
  }

  /** Going back in the list first closes the operations shown under the cursor. */
  predicate ClosesOps(s: State) {
    Current(s).Some? && Label(Current(s).value) in s.preview.ops
  }

  /** The next page is asked for from where the last one ended, near the end of a list that has more. */
  lemma LoadsMoreExactly(w: World, e: Event, vendor: string, from: string)
    requires Possible(w, e)
    ensures Sent(w, e) == LoadPage(vendor, from, false)
            <==> && Pressed(e, Down, Typed('j')) && InList(w.s) && w.s.list.hasMore && !w.s.list.loading
                 && vendor == w.s.search.vendor && from == w.s.list.nextCursor
                 && w.s.list.cursor >= |w.s.list.apis| - 4
  {
  }

  /** The list is loaded from its start when it is reloaded, filtered, unfiltered, or shorter by an API. */
  lemma ReloadsExactly(w: World, e: Event, vendor: string, from: string)
    requires Possible(w, e)
    ensures Sent(w, e) == LoadPage(vendor, from, true)
            <==> && from == ""
                 && (|| (e == Press(Typed('r')) && InList(w.s) && vendor == w.s.search.vendor)
                     || (e == Press(Enter) && InSearch(w.s) && vendor == TrimSpace(w.s.search.searchInput))
                     || (Pressed(e, Esc, Typed('b')) && InList(w.s) && !ClosesOps(w.s)
                         && w.s.search.vendor != "" && vendor == "")
                     || (e.Reply? && e.msg == ActionMsg(true, true) && vendor == w.s.search.vendor))
  {
  }

  /** Ctrl-C leaves but under a prompt; `q` leaves the lists, and so does going back when there is nothing to go back
      to. */
  lemma QuitsExactly(w: World, e: Event)
    requires Possible(w, e)
    ensures Sent(w, e) == Quit
            <==> || (e == Press(CtrlC) && w.s.prompt.confirm == NoConfirm)
                 || (e == Press(Typed('q')) && (InList(w.s) || InRevisions(w.s)))
                 || (Pressed(e, Esc, Typed('b')) && InList(w.s) && !ClosesOps(w.s) && w.s.search.vendor == "")
  {
  }

  // ----- what is shown -----

  predicate BringsPage(e: Event) {
    e.Reply? && e.msg.PageMsg? && e.msg.page.Some?
  }

  /** The APIs of the pages that have arrived since the last one from the start, one behind the other. */
  function Arrived(events: seq<Event>): seq<APIRef> {
    if events == [] then []
    else
      var e := Last(events);
      if !BringsPage(e) then Arrived(Before(events))
      else (if e.msg.reset then [] else Arrived(Before(events))) + e.msg.page.value.data
  }

  /** The last page that has arrived. */
  function LastPage(events: seq<Event>): Option<Page> {
    if events == [] then None
    else if BringsPage(Last(events)) then Last(events).msg.page
    else LastPage(Before(events))
  }

  /** The list shown is the pages that have arrived, and more is asked for where the last one says that it goes on. */
  lemma {:induction false} ListIsThePages(events: seq<Event>)
    requires IsRun(events)
    ensures var list, page := Run(events).s.list, LastPage(events);
            && list.apis == Arrived(events)
            && (page.None? ==> list.nextCursor == "" && !list.hasMore)
            && (page.Some? ==> list.nextCursor == page.value.next
                               && (list.hasMore <==> page.value.more && page.value.next != ""))
  {
    if events != [] {
      ListIsThePages(Before(events));
      ListStep(Run(Before(events)), Last(events));
    }
  }

  lemma ListStep(w: World, e: Event)
    requires Possible(w, e)
    ensures var l, t := w.s.list, Next(w, e).s.list;
            if BringsPage(e)
            then && t.apis == (if e.msg.reset then [] else l.apis) + e.msg.page.value.data
                 && t.nextCursor == e.msg.page.value.next && !t.loading
                 && (t.hasMore <==> e.msg.page.value.more && e.msg.page.value.next != "")
            else t.apis == l.apis && t.nextCursor == l.nextCursor && t.hasMore == l.hasMore
  {
  }

  /** So whatever page is asked for beyond the first is the one behind the last that has arrived. */
  lemma AsksBehindTheLast(events: seq<Event>, e: Event)
    requires IsRun(events) && Possible(Run(events), e)
    requires Sent(Run(events), e).LoadPage? && !Sent(Run(events), e).reset
    ensures LastPage(events).Some? && LastPage(events).value.more
    ensures Sent(Run(events), e).from == LastPage(events).value.next != ""
  {
    var cmd := Sent(Run(events), e);
    ListIsThePages(events);
    LoadsMoreExactly(Run(events), e, cmd.vendor, cmd.from);
  }

  predicate BringsRevs(e: Event) {
    e.Reply? && e.msg.RevsMsg? && e.msg.revs.Some?
  }

  /** Revisions are those of the last reply since the API was opened. */
  lemma RevisionsFollow(w: World, e: Event)
    requires Possible(w, e)
    ensures Next(w, e).s.drill.revs
         == if BringsRevs(e) then e.msg.revs.value
            else if e == Press(Enter) && InList(w.s) && Current(w.s).Some? then []
            else w.s.drill.revs
    ensures Next(w, e).s.view
         == if e == Press(Enter) && InList(w.s) && Current(w.s).Some? then Revisions
            else if (Pressed(e, Esc, Typed('b')) && InRevisions(w.s)) || (e.Reply? && e.msg == ActionMsg(true, true))
            then APIs
            else w.s.view
  {
  }

  /** A cursor moves by one with its keys, inside its list, and otherwise stands, but for a list that is new. */
  lemma CursorFollows(w: World, e: Event)
    requires Possible(w, e)
    ensures Next(w, e).s.list.cursor
         == if Pressed(e, Down, Typed('j')) && InList(w.s) && w.s.list.cursor + 1 < |w.s.list.apis|
            then w.s.list.cursor + 1
            else if Pressed(e, Up, Typed('k')) && InList(w.s) && 0 < w.s.list.cursor then w.s.list.cursor - 1
            else if BringsPage(e) && e.msg.reset then 0
            else w.s.list.cursor
  {
  }

  lemma RevCursorFollows(w: World, e: Event)
    requires Possible(w, e)
    ensures Next(w, e).s.drill.revCursor
         == if Pressed(e, Down, Typed('j')) && InRevisions(w.s) && w.s.drill.revCursor + 1 < |w.s.drill.revs|
            then w.s.drill.revCursor + 1
            else if Pressed(e, Up, Typed('k')) && InRevisions(w.s) && 0 < w.s.drill.revCursor
            then w.s.drill.revCursor - 1
            else if (BringsRevs(e) && |e.msg.revs.value| <= w.s.drill.revCursor)
                    || (e == Press(Enter) && InList(w.s) && Current(w.s).Some?) then 0
            else w.s.drill.revCursor
  {
  }

  /** The vendor filter is what was entered, without white space at its ends, until it is taken back. */
  lemma VendorFollows(w: World, e: Event)
    requires Possible(w, e)
    ensures Next(w, e).s.search.vendor
         == if e == Press(Enter) && InSearch(w.s) then TrimSpace(w.s.search.searchInput)
            else if Pressed(e, Esc, Typed('b')) && InList(w.s) && !ClosesOps(w.s) then ""
            else w.s.search.vendor
  {
  }

  /** Operations are shown once they have arrived, until they are closed. */
  lemma OpsFollow(w: World, e: Event, name: string)
    requires Possible(w, e)
    ensures name in Next(w, e).s.preview.ops
            <==> || (e.Reply? && e.msg == OpsMsg(name, true))
                 || (name in w.s.preview.ops
                     && !(Pressed(e, Esc, Typed('b')) && InList(w.s) && Current(w.s).Some?
                          && Label(Current(w.s).value) == name))
  {
  }

  /** The operations being loaded are those last asked for, until they arrive. */
  lemma OpsLoadingFollows(w: World, e: Event)
    requires Possible(w, e)
    ensures Next(w, e).s.preview.opsLoading
         == if Sent(w, e).LoadOps? then Label(Sent(w, e).ref)
            else if e.Reply? && e.msg.OpsMsg? && e.msg.name == w.s.preview.opsLoading then ""
            else w.s.preview.opsLoading
  {
  }

  /** The list is loading from when a page is asked for until one arrives, or fails to. */
  lemma LoadingFollows(w: World, e: Event)
    requires Possible(w, e)
    ensures Next(w, e).s.list.loading <==> Sent(w, e).LoadPage? || (w.s.list.loading && !(e.Reply? && e.msg.PageMsg?))
  {
  }

  /** A prompt for a revision that is gone. */
  predicate NothingToDelete(s: State) {
    s.prompt.confirm == ConfirmDeleteRevision && CurrentRev(s).None?
  }

  /** The browser is busy from when an action is sent until one is answered, or a yes finds nothing to delete. */
  lemma BusyFollows(w: World, e: Event)
    requires Possible(w, e)
    ensures Next(w, e).s.busy
            <==> || IsAction(Sent(w, e))
                 || (w.s.busy && !(e.Reply? && e.msg.ActionMsg?) && !(IsYes(e) && NothingToDelete(w.s)))
  {
  }

  /** A prompt is closed by any key. */
  lemma PromptFollows(w: World, e: Event)
    requires Possible(w, e) && w.s.prompt.confirm != NoConfirm
    ensures Next(w, e).s.prompt.confirm == if e.Press? then NoConfirm else w.s.prompt.confirm
    ensures Next(w, e).s.prompt.target == w.s.prompt.target
  {
  }

  /** The API shown or asked about is the one under the cursor when it was opened, or asked about. */
  lemma ShownAPIFollows(w: World, e: Event)
    requires Possible(w, e)
    ensures Next(w, e).s.drill.revAPI
         == if Pressed(e, Enter, Typed('d')) && InList(w.s) && Current(w.s).Some? then Current(w.s).value
            else w.s.drill.revAPI
  {
  }

  /** The filter is typed between `/` and enter or escape, starting from the one that holds. */
  lemma SearchFollows(w: World, e: Event)
    requires Possible(w, e)
    ensures Next(w, e).s.search.searching
            <==> || (e == Press(Typed('/')) && InList(w.s))
                 || (w.s.search.searching && !(Pressed(e, Enter, Esc) && InSearch(w.s)))
    ensures Next(w, e).s.search.searchInput
         == if e == Press(Typed('/')) && InList(w.s) then w.s.search.vendor
            else if !e.Press? || !InSearch(w.s) then w.s.search.searchInput
            else match e.key
                 case Typed(c) => w.s.search.searchInput + [c]
                 case Other(runes) => w.s.search.searchInput + runes
                 case Backspace => Shorter(w.s.search.searchInput)
                 case _ => w.s.search.searchInput
  {
  }

  /** Without its last character. */
  function Shorter(s: string): (r: string)
    ensures s != "" ==> exists c :: s == r + [c]
  {
    if s == "" then s
    else
      assert s == s[..|s| - 1] + [s[|s| - 1]];
      s[..|s| - 1]
  }
}
