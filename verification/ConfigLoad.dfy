/** What the launched process sees of its configuration file and its environment, `load_config` in
    `src/jentic_one/shared/config.py`. */
module ConfigLoad {
  import opened Text
  import opened ConfigTree
  import opened EnvOverlay
  import opened EnvOrder

  /** One line of the environment. */
  datatype Setting = Setting(name: string, value: string)

  const PREFIX := "JENTIC__"

  function Lowered(parts: seq<string>, lower: string -> string): (r: seq<string>)
    ensures |r| == |parts|
  {
    if parts == [] then [] else [lower(parts[0])] + Lowered(parts[1..], lower)
  }

  /** `lower` is Python's `str.lower`. */
  function PathOf(name: string, lower: string -> string): (path: Option<seq<string>>)
    ensures path.Some? <==> HasPrefix(name, PREFIX)
    ensures path.Some? ==> path.value != []
  {
    if HasPrefix(name, PREFIX) then Some(Lowered(Split(name[|PREFIX|..], "__"), lower)) else None
  }

  function Variables(env: seq<Setting>, lower: string -> string): seq<Variable> {
    if env == [] then []
    else
      var s := env[|env| - 1];
      Variables(env[..|env| - 1], lower)
        + match PathOf(s.name, lower)
          case None => []
          case Some(path) => [Var(path, s.value)]
  }

  /** Python's `str.isspace`. */
  predicate PySpace(c: char) {
    IsSpace(c) || '\U{001C}' <= c <= '\U{001F}'
  }

  const PY_SPACES: set<char> := set c: char | PySpace(c)

  function Stripped(parts: seq<string>): seq<string> {
    if parts == [] then []
    else
      var item := Trim(parts[0], PY_SPACES);
      (if item == [] then [] else [item]) + Stripped(parts[1..])
  }

  /** A comma-separated list: its items stripped, empty ones left out. */
  function Items(s: string): seq<string> {
    Stripped(Split(s, ","))
  }

  function WithApps(m: Mapping): Mapping {
    if "apps" in m.entries && m.entries["apps"].Leaf? && m.entries["apps"].value.Str?
    then Dict(m.entries["apps" := Leaf(StrList(Items(m.entries["apps"].value.s)))])
    else m
  }

  /** A file whose top level is no mapping counts as empty. */
  function FileData(yaml: Tree): Mapping {
    if yaml.Dict? then yaml else EMPTY
  }

  function Loaded(yaml: Tree, vars: seq<Variable>): Result<Mapping> {
    match Overrides(vars, |vars|)
    case Err(m) => Err(m)
    case Ok(t) => Ok(WithApps(DeepMerge(FileData(yaml), t)))
  }

  method LoadConfig(yaml: Tree, env: seq<Setting>, lower: string -> string) returns (r: Result<Mapping>)
    ensures r == Loaded(yaml, Variables(env, lower))
  {
    var fileData := EMPTY;
    if yaml.Dict? {
      fileData := yaml;
    }
    var envData := EnvOverrides(Variables(env, lower));
    if envData.Err? {
      return Err(envData.message);
    }
    var merged := Merge(fileData, envData.value);
    if "apps" in merged.entries && merged.entries["apps"].Leaf? && merged.entries["apps"].value.Str? {
      merged := Dict(merged.entries["apps" := Leaf(StrList(Items(merged.entries["apps"].value.s)))]);
    }
    return Ok(merged);
  }

  // ----- the list of surfaces -----

  /** A surface that survives being written into a comma-separated list. */
  predicate Listable(item: string) {
    item != [] && Trimmed(item, PY_SPACES) && ',' !in item
  }

  lemma {:induction false} StrippedListable(parts: seq<string>)
    requires forall p :: p in parts ==> ',' !in p
    ensures forall x :: x in Stripped(parts) ==> Listable(x)
  {
    if parts != [] {
      StrippedListable(parts[1..]);
      var h, t := TrimParts(parts[0], PY_SPACES);
      assert forall c :: c in Trim(parts[0], PY_SPACES) ==> c in parts[0];
    }
  }

  lemma {:induction false} StrippedFixed(parts: seq<string>)
    requires forall p :: p in parts ==> Listable(p)
    ensures Stripped(parts) == parts
  {
    if parts != [] {
      assert Listable(parts[0]);
      TrimmedIsFixed(parts[0], PY_SPACES);
      StrippedFixed(parts[1..]);
      assert parts == [parts[0]] + parts[1..];
    }
  }

  /** A list of surfaces written by the installer loads back exactly when every surface is listable. */
  lemma AppsRoundTrip(apps: seq<string>)
    ensures Items(Join(apps, ",")) == apps <==> forall a :: a in apps ==> Listable(a)
  {
    var s := Join(apps, ",");
    if forall a :: a in apps ==> Listable(a) {
      if apps == [] {
        SplitLast("", ',');
        assert Stripped([""]) == [] by { TrimmedIsFixed("", PY_SPACES); }
      } else {
        SplitJoin(apps, ',');
        StrippedFixed(apps);
      }
    } else {
      JoinSplit(s, ',');
      StrippedListable(Split(s, ","));
    }
  }

  /** What stands between two commas: an item, or nothing, with white space on either side. */
  datatype Entry = Entry(left: string, item: string, right: string)
  {
    predicate Valid() {
      && AllIn(left, PY_SPACES) && AllIn(right, PY_SPACES) && (item == "" || Listable(item))
    }

    function Text(): string {
      left + item + right
    }
  }

  predicate AllValid(entries: seq<Entry>) {
    forall i :: 0 <= i < |entries| ==> entries[i].Valid()
  }

  function Texts(entries: seq<Entry>): (r: seq<string>)
    ensures |r| == |entries| && forall i :: 0 <= i < |r| ==> r[i] == entries[i].Text()
  {
    seq(|entries|, i requires 0 <= i < |entries| => entries[i].Text())
  }

  /** The items, without the places where there is none. */
  function Named(entries: seq<Entry>): seq<string> {
    if entries == [] then []
    else (if entries[0].item == "" then [] else [entries[0].item]) + Named(entries[1..])
  }

  lemma {:induction false} StrippedEntries(entries: seq<Entry>)
    requires AllValid(entries)
    ensures Stripped(Texts(entries)) == Named(entries)
  {
    if entries != [] {
      var e := entries[0];
      TrimUnique(e.left, e.item, e.right, PY_SPACES);
      assert Texts(entries)[1..] == Texts(entries[1..]);
      StrippedEntries(entries[1..]);
    }
  }

  lemma EntryHasNoComma(e: Entry)
    requires e.Valid()
    ensures ',' !in e.Text()
  {
    assert !PySpace(',');
  }

  /** A list is read as exactly its items, in their order, whatever white space stands beside them and however many
      places between the commas are empty. */
  lemma ItemsExactly(entries: seq<Entry>)
    requires AllValid(entries)
    ensures Items(Join(Texts(entries), ",")) == Named(entries)
  {
    if entries == [] {
      SplitLast("", ',');
      assert Stripped([""]) == [] by { TrimmedIsFixed("", PY_SPACES); }
    } else {
      forall p | p in Texts(entries) ensures ',' !in p {
        var i :| 0 <= i < |entries| && Texts(entries)[i] == p;
        EntryHasNoComma(entries[i]);
      }
      SplitJoin(Texts(entries), ',');
      StrippedEntries(entries);
    }
  }

  /** Every text is such a list. */
  lemma EveryTextIsAList(s: string) returns (entries: seq<Entry>)
    ensures AllValid(entries) && Join(Texts(entries), ",") == s
  {
    JoinSplit(s, ',');
    entries := EntriesOf(Split(s, ","));
    assert Texts(entries) == Split(s, ",");
  }

  lemma {:induction false} EntriesOf(parts: seq<string>) returns (entries: seq<Entry>)
    requires forall p :: p in parts ==> ',' !in p
    ensures |entries| == |parts| && AllValid(entries)
    ensures forall i :: 0 <= i < |parts| ==> entries[i].Text() == parts[i]
  {
    if parts == [] {
      entries := [];
    } else {
      var left, right := TrimParts(parts[0], PY_SPACES);
      var rest := EntriesOf(parts[1..]);
      var item := Trim(parts[0], PY_SPACES);
      assert forall c :: c in item ==> c in parts[0];
      entries := [Entry(left, item, right)] + rest;
    }
  }

  /** What taking `apps` apart makes of what a path leads to. */
  function Seen(q: seq<string>, k: Kind): Kind {
    match k
    case IsLeaf(Str(s)) => if q == ["apps"] then IsLeaf(StrList(Items(s))) else k
    case _ => k
  }

  lemma AppsKind(m: Mapping, q: seq<string>)
    ensures KindAt(WithApps(m), q) == Seen(q, KindAt(m, q))
  {
    assert ["apps"][1..] == [];
    assert q != [] && q[0] == "apps" && q != ["apps"] ==> q[1..] != [];
  }

  // ----- file and environment together -----

  lemma {:induction false} AbsentExactly(t: Tree, q: seq<string>)
    ensures Absent(t, q) <==> KindAt(t, q) == Missing && forall j :: 0 <= j < |q| ==> !KindAt(t, q[..j]).IsLeaf?
    decreases |q|
  {
    assert q[..0] == [];
    if q != [] && t.Dict? && q[0] in t.entries {
      var sub, rest := t.entries[q[0]], q[1..];
      AbsentExactly(sub, rest);
      forall j | 0 <= j < |rest| ensures KindAt(sub, rest[..j]) == KindAt(t, q[..j + 1]) {
        assert q[..j + 1][1..] == rest[..j];
      }
      if Absent(t, q) {
        AbsentIsMissing(t, q);
        forall j | 0 <= j < |q| ensures !KindAt(t, q[..j]).IsLeaf? {
          if j > 0 { assert KindAt(sub, rest[..j - 1]) == KindAt(t, q[..j]); }
        }
      }
    }
  }

  /** Unrelated to every variable: on no variable's path, above or below. */
  predicate Unrelated(vars: seq<Variable>, q: seq<string>) {
    q != [] && forall v :: v in vars ==> !Comparable(v.path, q)
  }

  /** The merge takes the file's word for exactly the unrelated paths. */
  lemma AbsentIfUnrelated(vars: seq<Variable>, q: seq<string>)
    requires Consistent(vars)
    ensures Overrides(vars, |vars|).Ok?
    ensures Absent(Overrides(vars, |vars|).value, q) <==> Unrelated(vars, q)
  {
    ConsistentLoads(vars);
    var t := Overrides(vars, |vars|).value;
    AbsentExactly(t, q);
    if Unrelated(vars, q) {
      LeafOf(vars, q);
      forall j | 0 <= j < |q| ensures !KindAt(t, q[..j]).IsLeaf? {
        LeafOf(vars, q[..j]);
        assert q[..j] <= q;
      }
    } else if q != [] {
      var v :| v in vars && Comparable(v.path, q);
      LeavesAreTheVariables(vars, v.path, Str(v.value));
      LeafOf(vars, q);
      assert v.path < q ==> q[..|v.path|] == v.path;
      assert q <= v.path && q != v.path ==> ProperPrefix(q, v.path);
    }
  }

  lemma LeafOf(vars: seq<Variable>, q: seq<string>)
    requires Consistent(vars)
    ensures Overrides(vars, |vars|).Ok?
    ensures KindAt(Overrides(vars, |vars|).value, q).IsLeaf? ==> exists v :: v in vars && v.path == q
    ensures KindAt(Overrides(vars, |vars|).value, q) == IsDict
            <==> q == [] || exists v :: v in vars && ProperPrefix(q, v.path)
  {
    ConsistentLoads(vars);
    var k := KindAt(Overrides(vars, |vars|).value, q);
    LeavesAreTheVariables(vars, q, if k.IsLeaf? then k.value else Other(""));
  }

  lemma LoadedKind(yaml: Tree, vars: seq<Variable>, q: seq<string>)
    requires Overrides(vars, |vars|).Ok?
    ensures var t := Overrides(vars, |vars|).value;
            KindAt(Loaded(yaml, vars).value, q)
            == Seen(q, if Absent(t, q) then KindAt(FileData(yaml), q) else KindAt(t, q))
  {
    var t := Overrides(vars, |vars|).value;
    MergePath(FileData(yaml), t, q);
    AppsKind(DeepMerge(FileData(yaml), t), q);
  }

  /** End to end: each of a consistent set of variables is found at its path, with `apps` taken apart. */
  lemma VariableIsLoaded(yaml: Tree, vars: seq<Variable>, v: Variable)
    requires Consistent(vars) && v in vars
    ensures Loaded(yaml, vars).Ok?
    ensures KindAt(Loaded(yaml, vars).value, v.path) == Seen(v.path, IsLeaf(Str(v.value)))
  {
    LeavesAreTheVariables(vars, v.path, Str(v.value));
    AbsentIfUnrelated(vars, v.path);
    LoadedKind(yaml, vars, v.path);
    assert !Unrelated(vars, v.path) by { assert Comparable(v.path, v.path); }
  }

  /** End to end: away from the variables, what the file says stands. */
  lemma FileIsLoaded(yaml: Tree, vars: seq<Variable>, q: seq<string>)
    requires Consistent(vars) && Unrelated(vars, q)
    ensures Loaded(yaml, vars).Ok?
    ensures KindAt(Loaded(yaml, vars).value, q) == Seen(q, KindAt(yaml, q))
  {
    AbsentIfUnrelated(vars, q);
    LoadedKind(yaml, vars, q);
  }

  // ----- what the installer sets -----

  /** Python's `str.lower` on the names the installer uses. */
  ghost predicate LowersNames(lower: string -> string) {
    lower("APPS") == "apps" && lower("SERVER") == "server" && lower("PORT") == "port"
  }

  lemma PathOfRest(rest: string, lower: string -> string)
    ensures PathOf(PREFIX + rest, lower) == Some(Lowered(Split(rest, "__"), lower))
  {
    assert (PREFIX + rest)[|PREFIX|..] == rest;
  }

  lemma StartsWithUnderscore(s: string, i: nat)
    requires At(s, "__", i)
    ensures s[i] == '_' && '_' in s
  {
    assert s[i..i + 2][0] == s[i];
  }

  lemma NoUnderscores(s: string)
    requires '_' !in s
    ensures Split(s, "__") == [s]
  {
    if Index(s, "__") >= 0 { StartsWithUnderscore(s, Index(s, "__")); }
  }

  lemma {:induction false} NameParts(parts: seq<string>)
    requires parts != [] && forall p :: p in parts ==> '_' !in p
    ensures Split(Join(parts, "__"), "__") == parts
    decreases |parts|
  {
    var a := parts[0];
    if |parts| == 1 {
      NoUnderscores(a);
    } else {
      var rest := Join(parts[1..], "__");
      NameParts(parts[1..]);
      FirstUnderscores(a, rest);
      assert parts == [a] + parts[1..];
    }
  }

  lemma FirstUnderscores(a: string, rest: string)
    requires '_' !in a
    ensures Split(a + "__" + rest, "__") == [a] + Split(rest, "__")
  {
    var s := a + "__" + rest;
    assert s[|a|..|a| + 2] == "__";
    IndexLeast(s, "__", |a|);
    StartsWithUnderscore(s, Index(s, "__"));
    assert s[..|a|] == a && s[|a| + 2..] == rest;
  }

  lemma {:induction false} LoweredParts(parts: seq<string>, lower: string -> string, k: nat)
    requires k < |parts|
    ensures Lowered(parts, lower)[k] == lower(parts[k])
    decreases |parts|
  {
    if k > 0 { LoweredParts(parts[1..], lower, k - 1); }
  }

  /** A name made of the prefix and parts without underscores stands for the path of those parts, in lower case. */
  lemma NameIsPath(parts: seq<string>, lower: string -> string)
    requires parts != [] && forall p :: p in parts ==> '_' !in p
    ensures var path := PathOf(PREFIX + Join(parts, "__"), lower);
            && path.Some? && |path.value| == |parts|
            && forall k :: 0 <= k < |parts| ==> path.value[k] == lower(parts[k])
  {
    PathOfRest(Join(parts, "__"), lower);
    NameParts(parts);
    forall k | 0 <= k < |parts| ensures Lowered(parts, lower)[k] == lower(parts[k]) {
      LoweredParts(parts, lower, k);
    }
  }

  lemma OnePart(a: string, lower: string -> string)
    requires '_' !in a
    ensures PathOf(PREFIX + a, lower) == Some([lower(a)])
  {
    NameIsPath([a], lower);
    var path := PathOf(PREFIX + Join([a], "__"), lower).value;
    assert path == [path[0]];
  }

  lemma TwoParts(a: string, b: string, lower: string -> string)
    requires '_' !in a && '_' !in b
    ensures PathOf(PREFIX + (a + "__" + b), lower) == Some([lower(a), lower(b)])
  {
    NameIsPath([a, b], lower);
    assert [a, b][1..] == [b];
    var path := PathOf(PREFIX + Join([a, b], "__"), lower).value;
    assert path == [path[0], path[1]];
  }

  lemma AppsPath(lower: string -> string)
    requires LowersNames(lower)
    ensures PathOf("JENTIC__APPS", lower) == Some(["apps"])
  {
    OnePart("APPS", lower);
    assert PREFIX + "APPS" == "JENTIC__APPS";
  }

  lemma PortPath(lower: string -> string)
    requires LowersNames(lower)
    ensures PathOf("JENTIC__SERVER__PORT", lower) == Some(["server", "port"])
  {
    TwoParts("SERVER", "PORT", lower);
    PortName();
  }

  lemma PortName()
    ensures PREFIX + ("SERVER" + "__" + "PORT") == "JENTIC__SERVER__PORT"
  {
  }

  /** End to end: in any environment that loads, the surfaces the installer joins into `JENTIC__APPS` load back as the
      same list exactly when each can be listed, unless a later setting names `apps` again. */
  lemma AppsAreLoaded(yaml: Tree, env: seq<Setting>, i: nat, lower: string -> string, apps: seq<string>)
    requires LowersNames(lower) && i < |env| && env[i] == Setting("JENTIC__APPS", Join(apps, ","))
    requires forall j :: i < j < |env| ==> PathOf(env[j].name, lower) != Some(["apps"])
    requires Loaded(yaml, Variables(env, lower)).Ok?
    ensures KindAt(Loaded(yaml, Variables(env, lower)).value, ["apps"]) == IsLeaf(StrList(apps))
            <==> forall a :: a in apps ==> Listable(a)
  {
    LastAppsIsLoaded(yaml, env, i, lower, Join(apps, ","));
    AppsRoundTrip(apps);
  }

  lemma LastAppsIsLoaded(yaml: Tree, env: seq<Setting>, i: nat, lower: string -> string, s: string)
    requires LowersNames(lower) && i < |env| && env[i] == Setting("JENTIC__APPS", s)
    requires forall j :: i < j < |env| ==> PathOf(env[j].name, lower) != Some(["apps"])
    requires Loaded(yaml, Variables(env, lower)).Ok?
    ensures KindAt(Loaded(yaml, Variables(env, lower)).value, ["apps"]) == IsLeaf(StrList(Items(s)))
  {
    AppsPath(lower);
    var vars := Variables(env, lower);
    var k := VariableAt(env, lower, i, ["apps"]);
    FailsExactly(vars, |vars|);
    LastSets(vars, |vars|, k, "apps");
    LastWriterWins(vars, |vars|, ["apps"]);
    LeafIsLoaded(yaml, vars, ["apps"], s);
  }

  /** End to end: a list in the last setting for `apps` is loaded as its items. */
  lemma ListFromEnvironment(yaml: Tree, env: seq<Setting>, i: nat, lower: string -> string, entries: seq<Entry>)
    requires LowersNames(lower) && AllValid(entries)
    requires i < |env| && env[i] == Setting("JENTIC__APPS", Join(Texts(entries), ","))
    requires forall j :: i < j < |env| ==> PathOf(env[j].name, lower) != Some(["apps"])
    requires Loaded(yaml, Variables(env, lower)).Ok?
    ensures KindAt(Loaded(yaml, Variables(env, lower)).value, ["apps"]) == IsLeaf(StrList(Named(entries)))
  {
    LastAppsIsLoaded(yaml, env, i, lower, Join(Texts(entries), ","));
    ItemsExactly(entries);
  }

  /** And so is a list in the file, when no variable has to do with `apps`. */
  lemma ListFromFile(yaml: Tree, vars: seq<Variable>, entries: seq<Entry>)
    requires AllValid(entries) && KindAt(yaml, ["apps"]) == IsLeaf(Str(Join(Texts(entries), ",")))
    requires Loaded(yaml, vars).Ok? && forall v :: v in vars ==> v.path[0] != "apps"
    ensures KindAt(Loaded(yaml, vars).value, ["apps"]) == IsLeaf(StrList(Named(entries)))
  {
    NoVariableForApps(vars, |vars|);
    LoadedKind(yaml, vars, ["apps"]);
    ItemsExactly(entries);
  }

  lemma NoVariableForApps(vars: seq<Variable>, n: nat)
    requires n <= |vars| && Overrides(vars, n).Ok? && forall v :: v in vars ==> v.path[0] != "apps"
    ensures Absent(Overrides(vars, n).value, ["apps"])
  {
    LastWriterWins(vars, n, ["apps"]);
    UnnamedIsMissing(vars, n, "apps");
    AbsentExactly(Overrides(vars, n).value, ["apps"]);
  }

  lemma {:induction false} UnnamedIsMissing(vars: seq<Variable>, n: nat, key: string)
    requires n <= |vars| && forall v :: v in vars ==> v.path[0] != key
    ensures KindBy(vars, n, [key]) == Missing
  {
    if n > 0 {
      assert vars[n - 1].path[0] != key;
      UnnamedIsMissing(vars, n - 1, key);
    }
  }

  /** Where the variable of a setting is; when no later setting names its path, no later variable has it. */
  lemma {:induction false} VariableAt(env: seq<Setting>, lower: string -> string, i: nat, p: seq<string>)
    returns (k: nat)
    requires i < |env| && PathOf(env[i].name, lower) == Some(p)
    requires forall j :: i < j < |env| ==> PathOf(env[j].name, lower) != Some(p)
    ensures k < |Variables(env, lower)| && Variables(env, lower)[k] == Var(p, env[i].value)
    ensures forall l :: k < l < |Variables(env, lower)| ==> Variables(env, lower)[l].path != p
    decreases |env|
  {
    var last := |env| - 1;
    if i == last {
      k := |Variables(env, lower)| - 1;
    } else {
      k := VariableAt(env[..last], lower, i, p);
      assert PathOf(env[last].name, lower) != Some(p);
    }
  }

  /** The last variable for a top-level key decides it, in an order that loads. */
  lemma {:induction false} LastSets(vars: seq<Variable>, n: nat, k: nat, key: string)
    requires k < n <= |vars| && OrderOk(vars, n) && vars[k].path == [key]
    requires forall l :: k < l < n ==> vars[l].path != [key]
    ensures KindBy(vars, n, [key]) == IsLeaf(Str(vars[k].value))
    decreases n
  {
    if k < n - 1 {
      assert !ProperPrefix(vars[k].path, vars[n - 1].path);
      LastSets(vars, n - 1, k, key);
    }
  }

  /** The environment of a broker started beside whatever is set already. */
  function BrokerEnv(inherited: seq<Setting>, port: string): seq<Setting> {
    inherited + [Setting("JENTIC__APPS", "broker")] + [Setting("JENTIC__SERVER__PORT", port)]
  }

  lemma BrokerVariables(inherited: seq<Setting>, lower: string -> string, port: string)
    requires LowersNames(lower)
    ensures Variables(BrokerEnv(inherited, port), lower)
         == Variables(inherited, lower) + [Var(["apps"], "broker")] + [Var(["server", "port"], port)]
  {
    AppsPath(lower);
    PortPath(lower);
    var a := inherited + [Setting("JENTIC__APPS", "broker")];
    assert a[..|a| - 1] == inherited;
    var b := BrokerEnv(inherited, port);
    assert b[..|b| - 1] == a;
  }

  /** End to end: whatever is inherited, a broker that loads serves `broker` alone, on the given port; and it
      loads exactly when the inherited variables do and none of them sets `server` itself. */
  lemma BrokerIsLoaded(yaml: Tree, inherited: seq<Setting>, lower: string -> string, port: string)
    requires LowersNames(lower)
    ensures var r := Loaded(yaml, Variables(BrokerEnv(inherited, port), lower));
            && (r.Ok? <==> Loaded(yaml, Variables(inherited, lower)).Ok?
                           && forall v :: v in Variables(inherited, lower) ==> v.path != ["server"])
            && (r.Ok? ==> KindAt(r.value, ["apps"]) == IsLeaf(StrList(["broker"]))
                          && KindAt(r.value, ["server", "port"]) == IsLeaf(Str(port)))
  {
    BrokerVariables(inherited, lower, port);
    BrokerSees(yaml, Variables(inherited, lower), port);
  }

  lemma BrokerSees(yaml: Tree, known: seq<Variable>, port: string)
    ensures var vars := known + [Var(["apps"], "broker")] + [Var(["server", "port"], port)];
            var r := Loaded(yaml, vars);
            && (r.Ok? <==> Loaded(yaml, known).Ok? && forall v :: v in known ==> v.path != ["server"])
            && (r.Ok? ==> KindAt(r.value, ["apps"]) == IsLeaf(StrList(["broker"]))
                          && KindAt(r.value, ["server", "port"]) == IsLeaf(Str(port)))
  {
    BrokerOverrides(known, port);
    var vars := known + [Var(["apps"], "broker")] + [Var(["server", "port"], port)];
    if Overrides(vars, |vars|).Ok? {
      LeafIsLoaded(yaml, vars, ["apps"], "broker");
      LeafIsLoaded(yaml, vars, ["server", "port"], port);
      BrokerAlone();
    }
  }

  lemma LeafIsLoaded(yaml: Tree, vars: seq<Variable>, q: seq<string>, s: string)
    requires Overrides(vars, |vars|).Ok? && KindAt(Overrides(vars, |vars|).value, q) == IsLeaf(Str(s))
    ensures KindAt(Loaded(yaml, vars).value, q) == Seen(q, IsLeaf(Str(s)))
  {
    var t := Overrides(vars, |vars|).value;
    if Absent(t, q) { AbsentIsMissing(t, q); }
    LoadedKind(yaml, vars, q);
  }

  lemma BrokerAlone()
    ensures Items("broker") == ["broker"]
  {
    AppsRoundTrip(["broker"]);
    assert Join(["broker"], ",") == "broker";
    assert Listable("broker");
  }

  lemma BrokerOverrides(known: seq<Variable>, port: string)
    ensures var vars := known + [Var(["apps"], "broker")] + [Var(["server", "port"], port)];
            && (Overrides(vars, |vars|).Ok?
                <==> Overrides(known, |known|).Ok? && forall v :: v in known ==> v.path != ["server"])
            && (Overrides(vars, |vars|).Ok? ==>
                  && KindAt(Overrides(vars, |vars|).value, ["apps"]) == IsLeaf(Str("broker"))
                  && KindAt(Overrides(vars, |vars|).value, ["server", "port"]) == IsLeaf(Str(port)))
  {
    var vars := known + [Var(["apps"], "broker")] + [Var(["server", "port"], port)];
    FailsExactly(vars, |vars|);
    FailsExactly(known, |known|);
    forall v: Variable ensures ProperPrefix(v.path, ["server", "port"]) <==> v.path == ["server"] {
      assert v.path == ["server"] ==> v.path == ["server", "port"][..1];
      if ProperPrefix(v.path, ["server", "port"]) { assert v.path == ["server", "port"][..1]; }
    }
    forall v: Variable ensures !ProperPrefix(v.path, ["apps"]) {
      assert |v.path| >= 1;
    }
    BrokerOrder(known, port);
    if Overrides(vars, |vars|).Ok? {
      LastWriterWins(vars, |vars|, ["apps"]);
      LastWriterWins(vars, |vars|, ["server", "port"]);
    }
  }

  lemma BrokerOrder(known: seq<Variable>, port: string)
    requires forall v: Variable :: ProperPrefix(v.path, ["server", "port"]) <==> v.path == ["server"]
    requires forall v: Variable :: !ProperPrefix(v.path, ["apps"])
    ensures var vars := known + [Var(["apps"], "broker")] + [Var(["server", "port"], port)];
            OrderOk(vars, |vars|) <==> OrderOk(known, |known|) && forall v :: v in known ==> v.path != ["server"]
  {
    var vars := known + [Var(["apps"], "broker")] + [Var(["server", "port"], port)];
    var n := |known|;
    assert forall i | 0 <= i < n :: vars[i] == known[i];
    if OrderOk(vars, |vars|) {
      forall v | v in known ensures v.path != ["server"] {
        var i :| 0 <= i < n && known[i] == v;
        assert !ProperPrefix(vars[i].path, vars[n + 1].path);
      }
    }
  }
}
