/** The interactive browser of registered APIs, `cli/internal/cmd/apis_browser.go`: a state that messages change,
    each change possibly sending a command whose reply is a later message. */
module ApisBrowser {
  import opened Text

  datatype APIRef = APIRef(vendor: string, name: string, version: string)

  datatype Revision = Revision(id: string, state: string)

  datatype View = APIs | Revisions

  datatype Confirm = NoConfirm | ConfirmDeleteAPI | ConfirmDeleteRevision

  datatype Action = PromoteIt | ArchiveIt | DeleteIt

  datatype Page = Page(data: seq<APIRef>, more: bool, next: string)

  /** What runs in the background. */
  datatype Cmd =
    | NoCmd
    | Quit
    | LoadPage(vendor: string, from: string, reset: bool)
    | LoadOps(ref: APIRef)
    | LoadRevs(ref: APIRef)
    | Promote(ref: APIRef, id: string)
    | Archive(ref: APIRef, id: string)
    | DeleteRevision(ref: APIRef, id: string)
    | DeleteAPI(ref: APIRef)

  /** A key by its name: `Typed` is one character without modifiers, `Other` any other key with the text it carries. */
  datatype Key = CtrlC | Esc | Enter | Backspace | Up | Down | Typed(c: char) | Other(runes: string)

  /** What arrives: a key, or the reply to a command, without a result when it failed. */
  datatype Msg =
    | KeyMsg(key: Key)
    | PageMsg(reset: bool, page: Option<Page>)
    | OpsMsg(name: string, ok: bool)
    | RevsMsg(revs: Option<seq<Revision>>)
    | ActionMsg(ok: bool, back: bool)

  datatype Listing = Listing(apis: seq<APIRef>, cursor: int, nextCursor: string, hasMore: bool, loading: bool)

  datatype Search = Search(vendor: string, searching: bool, searchInput: string)

  /** The labels of the APIs whose operations are shown, and of the one whose operations are being loaded. */
  datatype Preview = Preview(ops: set<string>, opsLoading: string)

  datatype Drilldown = Drilldown(revAPI: APIRef, revs: seq<Revision>, revCursor: int)

  datatype Prompt = Prompt(confirm: Confirm, target: string)

  datatype State = State(
    view: View, list: Listing, search: Search, preview: Preview, drill: Drilldown, prompt: Prompt, busy: bool)

  const START := State(APIs, Listing([], 0, "", false, true), Search("", false, ""), Preview({}, ""),
                       Drilldown(APIRef("", "", ""), [], 0), Prompt(NoConfirm, ""), false)

  function Runes(key: Key): string {
    match key
    case Typed(c) => [c]
    case Other(runes) => runes
    case _ => ""
  }

  function Label(ref: APIRef): string {
    ref.vendor + "/" + ref.name + "/" + ref.version
  }

  // ----- what each message does -----

  function Current(s: State): Option<APIRef> {
    if 0 <= s.list.cursor < |s.list.apis| then Some(s.list.apis[s.list.cursor]) else None
  }

  function CurrentRev(s: State): Option<Revision> {
    if 0 <= s.drill.revCursor < |s.drill.revs| then Some(s.drill.revs[s.drill.revCursor]) else None
  }

  function Load(s: State, reset: bool): Cmd {
    LoadPage(s.search.vendor, if reset then "" else s.list.nextCursor, reset)
  }

  function Loading(s: State, reset: bool): (State, Cmd) {
    (s.(list := s.list.(loading := true)), Load(s, reset))
  }

  function AfterPage(l: Listing, reset: bool, page: Option<Page>): Listing {
    match page
    case None => l.(loading := false)
    case Some(p) =>
      var more := p.more && p.next != "";
      (if reset then Listing(p.data, 0, p.next, more, false)
       else Listing(l.apis + p.data, l.cursor, p.next, more, false))
  }

  function AfterOps(p: Preview, name: string, ok: bool): Preview {
    Preview(if ok then p.ops + {name} else p.ops, if p.opsLoading == name then "" else p.opsLoading)
  }

  function AfterRevs(d: Drilldown, revs: Option<seq<Revision>>): Drilldown {
    match revs
    case None => d
    case Some(data) => Drilldown(d.revAPI, data, if d.revCursor >= |data| then 0 else d.revCursor)
  }

  function AfterAction(s: State, ok: bool, back: bool): (State, Cmd) {
    if !ok then (s.(busy := false), NoCmd)
    else if back then Loading(s.(busy := false, view := APIs), true)
    else (s.(busy := false), LoadRevs(s.drill.revAPI))
  }

  function Act(s: State, action: Action): (State, Cmd) {
    match CurrentRev(s)
    case None => (s, NoCmd)
    case Some(rev) =>
      if s.busy then (s, NoCmd)
      else if action.PromoteIt? && rev.state == "draft" then (s.(busy := true), Promote(s.drill.revAPI, rev.id))
      else if action.ArchiveIt? && rev.state == "draft" then (s.(busy := true), Archive(s.drill.revAPI, rev.id))
      else if action.DeleteIt? && rev.state == "archived"
      then (s.(prompt := Prompt(ConfirmDeleteRevision, "revision " + rev.id)), NoCmd)
      else (s, NoCmd)
  }

  function Opened(s: State): (State, Cmd) {
    match Current(s)
    case None => (s, NoCmd)
    case Some(api) => (s.(view := Revisions, drill := Drilldown(api, [], 0)), LoadRevs(api))
  }

  function WentBack(s: State): (State, Cmd) {
    if Current(s).Some? && Label(Current(s).value) in s.preview.ops
    then (s.(preview := s.preview.(ops := s.preview.ops - {Label(Current(s).value)})), NoCmd)
    else if s.search.vendor != "" then Loading(s.(search := s.search.(vendor := "")), true)
    else (s, Quit)
  }

  function OpsWanted(s: State): (State, Cmd) {
    match Current(s)
    case None => (s, NoCmd)
    case Some(api) =>
      if Label(api) in s.preview.ops || s.preview.opsLoading == Label(api) then (s, NoCmd)
      else (s.(preview := s.preview.(opsLoading := Label(api))), LoadOps(api))
  }

  function Up1(cursor: int): int {
    if cursor > 0 then cursor - 1 else cursor
  }

  function Down1(cursor: int, count: nat): int {
    if cursor < count - 1 then cursor + 1 else cursor
  }

  function MovedDown(s: State): (State, Cmd) {
    var t := s.(list := s.list.(cursor := Down1(s.list.cursor, |s.list.apis|)));
    if t.list.hasMore && !t.list.loading && t.list.cursor >= |t.list.apis| - 3 then Loading(t, false) else (t, NoCmd)
  }

  function AskedDeleteAPI(s: State): State {
    match Current(s)
    case None => s
    case Some(api) => s.(prompt := Prompt(ConfirmDeleteAPI, Label(api)), drill := s.drill.(revAPI := api))
  }

  function AfterAPIsKey(s: State, key: Key): (State, Cmd) {
    if key == CtrlC || key == Typed('q') then (s, Quit)
    else if key == Esc || key == Typed('b') then WentBack(s)
    else if key == Up || key == Typed('k') then (s.(list := s.list.(cursor := Up1(s.list.cursor))), NoCmd)
    else if key == Down || key == Typed('j') then MovedDown(s)
    else if key == Typed('/') then (s.(search := Search(s.search.vendor, true, s.search.vendor)), NoCmd)
    else if key == Typed('r') then Loading(s, true)
    else if key == Typed('o') then OpsWanted(s)
    else if key == Enter then Opened(s)
    else if key == Typed('d') then (AskedDeleteAPI(s), NoCmd)
    else (s, NoCmd)
  }

  function AfterRevisionsKey(s: State, key: Key): (State, Cmd) {
    if key == CtrlC || key == Typed('q') then (s, Quit)
    else if key == Esc || key == Typed('b') then (s.(view := APIs), NoCmd)
    else if key == Up || key == Typed('k') then (s.(drill := s.drill.(revCursor := Up1(s.drill.revCursor))), NoCmd)
    else if key == Down || key == Typed('j')
    then (s.(drill := s.drill.(revCursor := Down1(s.drill.revCursor, |s.drill.revs|))), NoCmd)
    else if key == Typed('p') then Act(s, PromoteIt)
    else if key == Typed('a') then Act(s, ArchiveIt)
    else if key == Typed('x') then Act(s, DeleteIt)
    else (s, NoCmd)
  }

  function AfterConfirmKey(s: State, key: Key): (State, Cmd) {
    var t := s.(prompt := Prompt(NoConfirm, s.prompt.target));
    if key != Typed('y') && key != Typed('Y') then (t, NoCmd)
    else if s.prompt.confirm.ConfirmDeleteAPI? then (t.(busy := true), DeleteAPI(s.drill.revAPI))
    else if s.prompt.confirm.ConfirmDeleteRevision? && CurrentRev(s).Some?
    then (t.(busy := true), DeleteRevision(s.drill.revAPI, CurrentRev(s).value.id))
    else (t.(busy := false), NoCmd)
  }

  function AfterSearchKey(s: State, key: Key): (State, Cmd) {
    var f := s.search;
    match key
    case Esc => (s.(search := f.(searching := false)), NoCmd)
    case Enter => Loading(s.(search := Search(TrimSpace(f.searchInput), false, f.searchInput)), true)
    case Backspace =>
      (s.(search := if f.searchInput == "" then f else f.(searchInput := f.searchInput[..|f.searchInput| - 1])), NoCmd)
    case CtrlC => (s, Quit)
    case _ => (s.(search := f.(searchInput := f.searchInput + Runes(key))), NoCmd)
  }

  function AfterKey(s: State, key: Key): (State, Cmd) {
    if s.prompt.confirm != NoConfirm then AfterConfirmKey(s, key)
    else if s.search.searching then AfterSearchKey(s, key)
    else if s.view == Revisions then AfterRevisionsKey(s, key)
    else AfterAPIsKey(s, key)
  }

  function After(s: State, msg: Msg): (State, Cmd) {
    match msg
    case KeyMsg(key) => AfterKey(s, key)
    case PageMsg(reset, page) => (s.(list := AfterPage(s.list, reset, page)), NoCmd)
    case OpsMsg(name, ok) => (s.(preview := AfterOps(s.preview, name, ok)), NoCmd)
    case RevsMsg(revs) => (s.(drill := AfterRevs(s.drill, revs)), NoCmd)
    case ActionMsg(ok, back) => AfterAction(s, ok, back)
  }

  // ----- what every message keeps -----

  /** Both cursors are inside their lists. */
  predicate InRange(s: State) {
    && 0 <= s.list.cursor && (s.list.cursor < |s.list.apis| || s.list.cursor == 0)
    && 0 <= s.drill.revCursor && (s.drill.revCursor < |s.drill.revs| || s.drill.revCursor == 0)
  }

  /** The prompt for an API shows the label of the API that a yes deletes. */
  predicate PromptNamesAPI(s: State) {
    s.prompt.confirm.ConfirmDeleteAPI? ==> s.prompt.target == Label(s.drill.revAPI)
  }

  lemma StaysInRange(s: State, msg: Msg)
    requires InRange(s)
    ensures InRange(After(s, msg).0)
  {
  }

  lemma StaysNamed(s: State, msg: Msg)
    requires PromptNamesAPI(s)
    ensures PromptNamesAPI(After(s, msg).0)
  {
  }

  // ----- the browser, updated in place -----

  class Browser {
    var view: View
    var apis: seq<APIRef>
    var cursor: int
    var nextCursor: string
    var hasMore: bool
    var vendor: string
    var searching: bool
    var searchInput: string
    var ops: set<string>
    var opsLoading: string
    var revAPI: APIRef
    var revs: seq<Revision>
    var revCursor: int
    var confirm: Confirm
    var confirmTarget: string
    var busy: bool
    var loading: bool

    function Value(): State
      reads this
    {
      State(view, Listing(apis, cursor, nextCursor, hasMore, loading), Search(vendor, searching, searchInput),
            Preview(ops, opsLoading), Drilldown(revAPI, revs, revCursor), Prompt(confirm, confirmTarget), busy)
    }

    ghost predicate Valid()
      reads this
    {
      InRange(Value()) && PromptNamesAPI(Value())
    }

    constructor ()
      ensures Valid() && Value() == START
    {
      view, apis, cursor, nextCursor, hasMore := APIs, [], 0, "", false;
      vendor, searching, searchInput := "", false, "";
      ops, opsLoading := {}, "";
      revAPI, revs, revCursor := APIRef("", "", ""), [], 0;
      confirm, confirmTarget, busy, loading := NoConfirm, "", false, true;
    }

    method Update(msg: Msg) returns (cmd: Cmd)
      requires Valid()
      modifies this
      ensures Valid() && (Value(), cmd) == After(old(Value()), msg)
    {
      StaysInRange(Value(), msg);
      StaysNamed(Value(), msg);
      match msg
      case PageMsg(reset, page) =>
        OnPage(reset, page);
        cmd := NoCmd;
      case OpsMsg(name, ok) =>
        if opsLoading == name {
          opsLoading := "";
        }
        if ok {
          ops := ops + {name};
        }
        cmd := NoCmd;
      case RevsMsg(result) =>
        OnRevs(result);
        cmd := NoCmd;
      case ActionMsg(ok, goBack) =>
        cmd := OnAction(ok, goBack);
      case KeyMsg(key) =>
        cmd := OnKey(key);
    }

    method OnPage(reset: bool, page: Option<Page>)
      modifies this
      ensures Value() == After(old(Value()), PageMsg(reset, page)).0
    {
      loading := false;
      if page.None? {
        return;
      }
      var res := page.value;
      if reset {
        apis, cursor := res.data, 0;
      } else {
        apis := apis + res.data;
      }
      hasMore, nextCursor := res.more && res.next != "", res.next;
    }

    method OnRevs(result: Option<seq<Revision>>)
      modifies this
      ensures Value() == After(old(Value()), RevsMsg(result)).0
    {
      if result.None? {
        return;
      }
      revs := result.value;
      if revCursor >= |revs| {
        revCursor := 0;
      }
    }

    method OnAction(ok: bool, goBack: bool) returns (cmd: Cmd)
      modifies this
      ensures (Value(), cmd) == AfterAction(old(Value()), ok, goBack)
    {
      busy := false;
      if !ok {
        return NoCmd;
      }
      if goBack {
        view := APIs;
        loading := true;
        return Load(Value(), true);
      }
      return LoadRevs(revAPI);
    }

    method OnKey(key: Key) returns (cmd: Cmd)
      modifies this
      ensures (Value(), cmd) == AfterKey(old(Value()), key)
    {
      if confirm != NoConfirm {
        cmd := OnConfirmKey(key);
      } else if searching {
        cmd := OnSearchKey(key);
      } else if view == Revisions {
        cmd := OnRevisionsKey(key);
      } else {
        cmd := OnAPIsKey(key);
      }
    }

    method OnAPIsKey(key: Key) returns (cmd: Cmd)
      modifies this
      ensures (Value(), cmd) == AfterAPIsKey(old(Value()), key)
    {
      cmd := NoCmd;
      if key == CtrlC || key == Typed('q') {
        cmd := Quit;
      } else if key == Typed('b') || key == Esc {
        cmd := Back();
      } else if key == Up || key == Typed('k') {
        if cursor > 0 {
          cursor := cursor - 1;
        }
      } else if key == Down || key == Typed('j') {
        cmd := MoveDown();
      } else if key == Typed('/') {
        searching, searchInput := true, vendor;
      } else if key == Typed('r') {
        loading := true;
        cmd := Load(Value(), true);
      } else if key == Typed('o') {
        cmd := MaybeLoadOps();
      } else if key == Enter {
        cmd := OpenRevisions();
      } else if key == Typed('d') {
        AskDeleteAPI();
      }
    }

    method MoveDown() returns (cmd: Cmd)
      modifies this
      ensures (Value(), cmd) == MovedDown(old(Value()))
    {
      cmd := NoCmd;
      if cursor < |apis| - 1 {
        cursor := cursor + 1;
      }
      if hasMore && !loading && cursor >= |apis| - 3 {
        loading := true;
        cmd := Load(Value(), false);
      }
    }

    method AskDeleteAPI()
      modifies this
      ensures Value() == AskedDeleteAPI(old(Value()))
    {
      if 0 <= cursor < |apis| {
        confirm, confirmTarget, revAPI := ConfirmDeleteAPI, Label(apis[cursor]), apis[cursor];
      }
    }

    method OnRevisionsKey(key: Key) returns (cmd: Cmd)
      modifies this
      ensures (Value(), cmd) == AfterRevisionsKey(old(Value()), key)
    {
      cmd := NoCmd;
      if key == CtrlC || key == Typed('q') {
        cmd := Quit;
      } else if key == Typed('b') || key == Esc {
        view := APIs;
      } else if key == Up || key == Typed('k') {
        if revCursor > 0 {
          revCursor := revCursor - 1;
        }
      } else if key == Down || key == Typed('j') {
        if revCursor < |revs| - 1 {
          revCursor := revCursor + 1;
        }
      } else if key == Typed('p') {
        cmd := ActOnRevision(PromoteIt);
      } else if key == Typed('a') {
        cmd := ActOnRevision(ArchiveIt);
      } else if key == Typed('x') {
        cmd := ActOnRevision(DeleteIt);
      }
    }

    method OnConfirmKey(key: Key) returns (cmd: Cmd)
      modifies this
      ensures (Value(), cmd) == AfterConfirmKey(old(Value()), key)
    {
      var kind := confirm;
      confirm := NoConfirm;
      if key != Typed('y') && key != Typed('Y') {
        return NoCmd;
      }
      busy := true;
      if kind == ConfirmDeleteAPI {
        return DeleteAPI(revAPI);
      } else if kind == ConfirmDeleteRevision && 0 <= revCursor < |revs| {
        return DeleteRevision(revAPI, revs[revCursor].id);
      }
      busy := false;
      return NoCmd;
    }

    method ActOnRevision(action: Action) returns (cmd: Cmd)
      modifies this
      ensures (Value(), cmd) == Act(old(Value()), action)
    {
      cmd := NoCmd;
      if !(0 <= revCursor < |revs|) || busy {
        return;
      }
      var rev := revs[revCursor];
      if action.PromoteIt? && rev.state == "draft" {
        busy := true;
        cmd := Promote(revAPI, rev.id);
      } else if action.ArchiveIt? && rev.state == "draft" {
        busy := true;
        cmd := Archive(revAPI, rev.id);
      } else if action.DeleteIt? && rev.state == "archived" {
        confirm := ConfirmDeleteRevision;
        confirmTarget := "revision " + rev.id;
      }
    }

    method OpenRevisions() returns (cmd: Cmd)
      modifies this
      ensures (Value(), cmd) == Opened(old(Value()))
    {
      if !(0 <= cursor < |apis|) {
        return NoCmd;
      }
      var api := apis[cursor];
      view := Revisions;
      revAPI := api;
      revs := [];
      revCursor := 0;
      return LoadRevs(api);
    }

    method Back() returns (cmd: Cmd)
      modifies this
      ensures (Value(), cmd) == WentBack(old(Value()))
    {
      if 0 <= cursor < |apis| {
        var key := Label(apis[cursor]);
        if key in ops {
          ops := ops - {key};
          return NoCmd;
        }
      }
      if vendor != "" {
        vendor := "";
        loading := true;
        return Load(Value(), true);
      }
      return Quit;
    }

    method OnSearchKey(key: Key) returns (cmd: Cmd)
      modifies this
      ensures (Value(), cmd) == AfterSearchKey(old(Value()), key)
    {
      cmd := NoCmd;
      if key == Esc {
        searching := false;
      } else if key == Enter {
        searching, vendor, loading := false, TrimSpace(searchInput), true;
        cmd := Load(Value(), true);
      } else if key == Backspace {
        if searchInput != "" {
          searchInput := searchInput[..|searchInput| - 1];
        }
      } else if key == CtrlC {
        cmd := Quit;
      } else {
        searchInput := searchInput + Runes(key);
      }
    }

    method MaybeLoadOps() returns (cmd: Cmd)
      modifies this
      ensures (Value(), cmd) == OpsWanted(old(Value()))
    {
      if !(0 <= cursor < |apis|) {
        return NoCmd;
      }
      var key := Label(apis[cursor]);
      if key in ops || opsLoading == key {
        return NoCmd;
      }
      opsLoading := key;
      return LoadOps(apis[cursor]);
    }
  }
}
