/** Environment variables as a configuration tree, `_env_overrides` in
    `src/jentic_one/shared/config.py`. */
module EnvOverlay {
  import opened Text
  import opened ConfigTree

  /** A variable whose name has been taken apart; the path is never empty. */
  datatype Var = Var(path: seq<string>, value: string)

  type Variable = v: Var | v.path != [] witness Var([""], "")

  const EMPTY: Mapping := Dict(map[])

  /** One variable: walk down, making mappings on the way, and set the last key. Walking into a value fails. */
  function Insert(t: Mapping, path: seq<string>, v: string): Result<Mapping>
    requires path != []
    decreases |path|
  {
    var k := path[0];
    if |path| == 1 then Ok(Dict(t.entries[k := Leaf(Str(v))]))
    else
      var child := if k in t.entries then t.entries[k] else EMPTY;
      if child.Leaf? then Err("not a mapping")
      else
        match Insert(child, path[1..], v)
        case Err(m) => Err(m)
        case Ok(sub) => Ok(Dict(t.entries[k := sub]))
  }

  /** The first `n` variables, one after the other. */
  function Overrides(vars: seq<Variable>, n: nat): Result<Mapping>
    requires n <= |vars|
  {
    if n == 0 then Ok(EMPTY)
    else
      match Overrides(vars, n - 1)
      case Err(m) => Err(m)
      case Ok(t) => Insert(t, vars[n - 1].path, vars[n - 1].value)
  }

  method EnvOverrides(vars: seq<Variable>) returns (r: Result<Mapping>)
    ensures r == Overrides(vars, |vars|)
  {
    var result := EMPTY;
    for i := 0 to |vars|
      invariant Overrides(vars, i) == Ok(result)
    {
      var next := Insert(result, vars[i].path, vars[i].value);
      if next.Err? {
        OverridesFail(vars, i + 1, |vars|);
        return next;
      }
      result := next.value;
    }
    return Ok(result);
  }

  lemma {:induction false} OverridesFail(vars: seq<Variable>, i: nat, n: nat)
    requires i <= n <= |vars| && Overrides(vars, i).Err?
    ensures Overrides(vars, n) == Overrides(vars, i)
  {
    if i < n { OverridesFail(vars, i, n - 1); }
  }

  predicate ProperPrefix(p: seq<string>, q: seq<string>) {
    p < q
  }

  predicate Comparable(p: seq<string>, q: seq<string>) {
    p <= q || q <= p
  }

  // ----- one variable -----

  /** Inserting sets one path, makes mappings of the paths above it, clears the ones below, and leaves the rest. */
  lemma {:induction false} InsertKind(t: Mapping, path: seq<string>, v: string, q: seq<string>)
    requires path != [] && Insert(t, path, v).Ok?
    ensures KindAt(Insert(t, path, v).value, q)
         == if q == path then IsLeaf(Str(v))
            else if ProperPrefix(q, path) then IsDict
            else if ProperPrefix(path, q) then Missing
            else KindAt(t, q)
    decreases |path|
  {
    if q != [] && q[0] == path[0] {
      var rest, tail := q[1..], path[1..];
      assert q == [q[0]] + rest && path == [path[0]] + tail;
      if |path| > 1 {
        var child := if path[0] in t.entries then t.entries[path[0]] else EMPTY;
        InsertKind(child, tail, v, rest);
        assert ProperPrefix(q, path) == ProperPrefix(rest, tail);
        assert ProperPrefix(path, q) == ProperPrefix(tail, rest);
        if path[0] !in t.entries && rest != [] { assert KindAt(EMPTY, rest) == Missing; }
      } else {
        assert tail == [];
        if q != path { assert rest != []; }
      }
    }
  }

  /** It fails exactly when a value stands on the way. */
  lemma {:induction false} InsertFails(t: Mapping, path: seq<string>, v: string)
    requires path != []
    ensures Insert(t, path, v).Err? <==> exists j :: 0 < j < |path| && KindAt(t, path[..j]).IsLeaf?
    decreases |path|
  {
    if |path| > 1 {
      var k, tail := path[0], path[1..];
      var child := if k in t.entries then t.entries[k] else EMPTY;
      assert path[..1][1..] == [];
      if child.Leaf? {
        assert KindAt(t, path[..1]).IsLeaf?;
      } else {
        InsertFails(child, tail, v);
        if Insert(child, tail, v).Err? {
          var j :| 0 < j < |tail| && KindAt(child, tail[..j]).IsLeaf?;
          assert path[..j + 1][1..] == tail[..j];
          assert KindAt(t, path[..j + 1]).IsLeaf?;
        }
        forall j | 0 < j < |path| && KindAt(t, path[..j]).IsLeaf? ensures Insert(child, tail, v).Err? {
          assert path[..j][1..] == tail[..j - 1];
          assert KindAt(child, tail[..j - 1]).IsLeaf?;
        }
      }
    }
  }

  // ----- any order -----

  /** What the last variable that has to do with a path makes of it. */
  function KindBy(vars: seq<Variable>, n: nat, q: seq<string>): Kind
    requires n <= |vars|
  {
    if q == [] then IsDict
    else if n == 0 then Missing
    else
      var p := vars[n - 1].path;
      if q == p then IsLeaf(Str(vars[n - 1].value))
      else if ProperPrefix(q, p) then IsDict
      else if ProperPrefix(p, q) then Missing
      else KindBy(vars, n - 1, q)
  }

  /** The last writer wins, path by path. */
  lemma {:induction false} LastWriterWins(vars: seq<Variable>, n: nat, q: seq<string>)
    requires n <= |vars| && Overrides(vars, n).Ok?
    ensures KindAt(Overrides(vars, n).value, q) == KindBy(vars, n, q)
  {
    if n > 0 {
      LastWriterWins(vars, n - 1, q);
      InsertKind(Overrides(vars, n - 1).value, vars[n - 1].path, vars[n - 1].value, q);
    }
  }

  /** No variable comes before one that lies below it. */
  ghost predicate OrderOk(vars: seq<Variable>, n: nat)
    requires n <= |vars|
  {
    forall i, j :: 0 <= i < j < n ==> !ProperPrefix(vars[i].path, vars[j].path)
  }

  lemma {:induction false} LeafHasVariable(vars: seq<Variable>, n: nat, q: seq<string>) returns (i: nat)
    requires n <= |vars| && KindBy(vars, n, q).IsLeaf?
    ensures i < n && vars[i].path == q && KindBy(vars, n, q) == IsLeaf(Str(vars[i].value))
  {
    if vars[n - 1].path == q {
      i := n - 1;
    } else {
      i := LeafHasVariable(vars, n - 1, q);
    }
  }

  /** A variable above `p` leaves a value on the way to `p`. */
  lemma {:induction false} ValueOnTheWay(vars: seq<Variable>, n: nat, p: seq<string>, i: nat) returns (j: nat)
    requires i < n <= |vars| && OrderOk(vars, n) && ProperPrefix(vars[i].path, p)
    ensures 0 < j < |p| && KindBy(vars, n, p[..j]).IsLeaf?
    decreases n
  {
    var last := vars[n - 1].path;
    if ProperPrefix(last, p) {
      j := |last|;
      assert p[..j] == last;
    } else {
      j := ValueOnTheWay(vars, n - 1, p, i);
      var q := p[..j];
      var m := LeafHasVariable(vars, n - 1, q);
      assert !ProperPrefix(vars[m].path, last);
      if last <= q { assert ProperPrefix(last, p); }
    }
  }

  /** An order fails exactly when it takes a variable before one that lies below it. */
  lemma {:induction false} FailsExactly(vars: seq<Variable>, n: nat)
    requires n <= |vars|
    ensures Overrides(vars, n).Ok? <==> OrderOk(vars, n)
  {
    if n > 0 {
      FailsExactly(vars, n - 1);
      if OrderOk(vars, n - 1) {
        var t := Overrides(vars, n - 1).value;
        var p := vars[n - 1].path;
        InsertFails(t, p, vars[n - 1].value);
        if Insert(t, p, vars[n - 1].value).Err? {
          var j :| 0 < j < |p| && KindAt(t, p[..j]).IsLeaf?;
          LastWriterWins(vars, n - 1, p[..j]);
          var i := LeafHasVariable(vars, n - 1, p[..j]);
          assert ProperPrefix(vars[i].path, p);
        } else if i :| 0 <= i < n - 1 && ProperPrefix(vars[i].path, p) {
          var j := ValueOnTheWay(vars, n - 1, p, i);
          LastWriterWins(vars, n - 1, p[..j]);
        }
      }
    }
  }
}
