/** When the order in which the environment lists its variables does not matter,
    `_env_overrides` in `src/jentic_one/shared/config.py`. */
module EnvOrder {
  import opened ConfigTree
  import opened EnvOverlay

  ghost predicate SameUpToOrder(a: seq<Variable>, b: seq<Variable>) {
    multiset(a) == multiset(b)
  }

  /** No variable lies below another, and variables with the same path have the same value. */
  predicate Consistent(vars: seq<Variable>) {
    forall v, w :: v in vars && w in vars ==>
      !ProperPrefix(v.path, w.path) && (v.path == w.path ==> v.value == w.value)
  }

  ghost predicate OrderIndependent(vars: seq<Variable>) {
    forall other :: SameUpToOrder(vars, other) ==> Overrides(other, |other|) == Overrides(vars, |vars|)
  }

  lemma SameMembers(a: seq<Variable>, b: seq<Variable>, v: Variable)
    requires SameUpToOrder(a, b)
    ensures v in a <==> v in b && |a| == |b|
  {
    assert v in a <==> v in multiset(a);
    assert v in b <==> v in multiset(b);
    assert |multiset(a)| == |a| && |multiset(b)| == |b|;
  }

  // ----- consistent variables -----

  lemma {:induction false} VariableIsLeaf(vars: seq<Variable>, n: nat, i: nat)
    requires i < n <= |vars| && Consistent(vars)
    ensures KindBy(vars, n, vars[i].path) == IsLeaf(Str(vars[i].value))
  {
    assert vars[n - 1] in vars && vars[i] in vars;
    if vars[n - 1].path != vars[i].path { VariableIsLeaf(vars, n - 1, i); }
  }

  lemma {:induction false} AboveIsDict(vars: seq<Variable>, n: nat, i: nat, q: seq<string>)
    requires i < n <= |vars| && Consistent(vars) && ProperPrefix(q, vars[i].path)
    ensures KindBy(vars, n, q) == IsDict
  {
    var p, r := vars[n - 1].path, vars[i].path;
    assert vars[n - 1] in vars && vars[i] in vars;
    assert p <= q ==> ProperPrefix(p, r);
    if i < n - 1 { AboveIsDict(vars, n - 1, i, q); }
  }

  lemma {:induction false} ElsewhereIsMissing(vars: seq<Variable>, n: nat, q: seq<string>)
    requires n <= |vars| && q != []
    requires forall i :: 0 <= i < n ==> !(q <= vars[i].path)
    ensures KindBy(vars, n, q) == Missing
  {
    if n > 0 {
      assert !(q <= vars[n - 1].path);
      ElsewhereIsMissing(vars, n - 1, q);
    }
  }

  /** Consistent variables load, whatever their order, and give one value for each variable, at its path. */
  lemma LeavesAreTheVariables(vars: seq<Variable>, q: seq<string>, x: Value)
    requires Consistent(vars)
    ensures Overrides(vars, |vars|).Ok?
    ensures KindAt(Overrides(vars, |vars|).value, q) == IsLeaf(x)
            <==> exists v :: v in vars && v.path == q && x == Str(v.value)
    ensures KindAt(Overrides(vars, |vars|).value, q) == IsDict
            <==> q == [] || exists v :: v in vars && ProperPrefix(q, v.path)
  {
    ConsistentLoads(vars);
    LastWriterWins(vars, |vars|, q);
    if i :| 0 <= i < |vars| && vars[i].path == q {
      VariableIsLeaf(vars, |vars|, i);
      assert vars[i] in vars;
    } else if i :| 0 <= i < |vars| && ProperPrefix(q, vars[i].path) {
      AboveIsDict(vars, |vars|, i, q);
      assert vars[i] in vars;
    } else if q != [] {
      forall i | 0 <= i < |vars| ensures !(q <= vars[i].path) {
        assert !ProperPrefix(q, vars[i].path) && vars[i].path != q;
      }
      ElsewhereIsMissing(vars, |vars|, q);
    }
  }

  lemma ConsistentLoads(vars: seq<Variable>)
    requires Consistent(vars)
    ensures Overrides(vars, |vars|).Ok?
  {
    FailsExactly(vars, |vars|);
    forall i, j | 0 <= i < j < |vars| ensures !ProperPrefix(vars[i].path, vars[j].path) {
      assert vars[i] in vars && vars[j] in vars;
    }
  }

  lemma SameTree(a: seq<Variable>, b: seq<Variable>)
    requires Consistent(a) && SameUpToOrder(a, b)
    ensures Overrides(a, |a|) == Overrides(b, |b|)
  {
    forall v ensures v in a <==> v in b { SameMembers(a, b, v); }
    assert Consistent(b);
    ConsistentLoads(a);
    ConsistentLoads(b);
    var s, t := Overrides(a, |a|).value, Overrides(b, |b|).value;
    forall q ensures KindAt(s, q) == KindAt(t, q) { SameKindAt(a, b, q); }
    SameKinds(s, t);
  }

  lemma SameKindAt(a: seq<Variable>, b: seq<Variable>, q: seq<string>)
    requires Consistent(a) && Consistent(b) && forall v :: v in a <==> v in b
    ensures Overrides(a, |a|).Ok? && Overrides(b, |b|).Ok?
    ensures KindAt(Overrides(a, |a|).value, q) == KindAt(Overrides(b, |b|).value, q)
  {
    ConsistentLoads(a);
    ConsistentLoads(b);
    var k, l := KindAt(Overrides(a, |a|).value, q), KindAt(Overrides(b, |b|).value, q);
    LeavesAreTheVariables(a, q, if k.IsLeaf? then k.value else Other(""));
    LeavesAreTheVariables(b, q, if k.IsLeaf? then k.value else Other(""));
    LeavesAreTheVariables(a, q, if l.IsLeaf? then l.value else Other(""));
    LeavesAreTheVariables(b, q, if l.IsLeaf? then l.value else Other(""));
  }

  // ----- inconsistent variables -----

  /** The `i`-th variable moved to the front. */
  function Front(vars: seq<Variable>, i: nat): seq<Variable>
    requires i < |vars|
  {
    [vars[i]] + vars[..i] + vars[i + 1..]
  }

  /** The `i`-th variable moved to the end. */
  function Back(vars: seq<Variable>, i: nat): seq<Variable>
    requires i < |vars|
  {
    vars[..i] + vars[i + 1..] + [vars[i]]
  }

  lemma Moved(vars: seq<Variable>, i: nat)
    requires i < |vars|
    ensures SameUpToOrder(vars, Front(vars, i)) && SameUpToOrder(vars, Back(vars, i))
  {
    assert vars == vars[..i] + [vars[i]] + vars[i + 1..];
    calc {
      multiset(vars);
      multiset(vars[..i]) + multiset{vars[i]} + multiset(vars[i + 1..]);
    }
  }

  /** The longer paths first: an order that loads. */
  lemma {:induction false} LongestFirst(vars: seq<Variable>) returns (sorted: seq<Variable>)
    ensures SameUpToOrder(vars, sorted)
    ensures forall i, j :: 0 <= i < j < |sorted| ==> |sorted[i].path| >= |sorted[j].path|
  {
    if vars == [] {
      sorted := [];
    } else {
      var rest := LongestFirst(vars[1..]);
      sorted := Place(rest, vars[0]);
      assert vars == [vars[0]] + vars[1..];
    }
  }

  lemma {:induction false} Place(sorted: seq<Variable>, v: Variable) returns (placed: seq<Variable>)
    requires forall i, j :: 0 <= i < j < |sorted| ==> |sorted[i].path| >= |sorted[j].path|
    ensures multiset(placed) == multiset(sorted) + multiset{v}
    ensures forall i, j :: 0 <= i < j < |placed| ==> |placed[i].path| >= |placed[j].path|
  {
    if sorted == [] || |v.path| >= |sorted[0].path| {
      placed := [v] + sorted;
    } else {
      var rest := Place(sorted[1..], v);
      placed := [sorted[0]] + rest;
      assert sorted == [sorted[0]] + sorted[1..];
      forall j | 0 < j < |placed| ensures |placed[0].path| >= |placed[j].path| {
        assert placed[j] in multiset(rest);
        assert placed[j] in sorted[1..] || placed[j] == v;
      }
    }
  }

  /** After a variable above it, nothing brings a path back. */
  lemma {:induction false} Dropped(vars: seq<Variable>, n: nat, i: nat, q: seq<string>)
    requires i < n <= |vars| && OrderOk(vars, n) && ProperPrefix(vars[i].path, q)
    ensures KindBy(vars, n, q) == Missing
  {
    var p, r := vars[n - 1].path, vars[i].path;
    if i < n - 1 {
      assert !ProperPrefix(r, p);
      assert q <= p ==> ProperPrefix(r, p);
      if !ProperPrefix(p, q) { Dropped(vars, n - 1, i, q); }
    }
  }

  /** With one path below another, some order fails, some order loads, and every order that loads drops the
      longer one. */
  lemma PrefixLosesEitherWay(vars: seq<Variable>, v: Variable, w: Variable)
    requires v in vars && w in vars && ProperPrefix(v.path, w.path)
    ensures exists other :: SameUpToOrder(vars, other) && Overrides(other, |other|).Err?
    ensures exists other :: SameUpToOrder(vars, other) && Overrides(other, |other|).Ok?
    ensures forall other :: SameUpToOrder(vars, other) && Overrides(other, |other|).Ok? ==>
              KindAt(Overrides(other, |other|).value, w.path) == Missing
  {
    var i :| 0 <= i < |vars| && vars[i] == v;
    Moved(vars, i);
    FirstFails(vars, Front(vars, i), v, w);
    var sorted := LongestFirst(vars);
    FailsExactly(sorted, |sorted|);
    forall other | SameUpToOrder(vars, other) && Overrides(other, |other|).Ok?
      ensures KindAt(Overrides(other, |other|).value, w.path) == Missing
    {
      FailsExactly(other, |other|);
      SameMembers(vars, other, v);
      var k :| 0 <= k < |other| && other[k] == v;
      Dropped(other, |other|, k, w.path);
      LastWriterWins(other, |other|, w.path);
    }
  }

  lemma FirstFails(vars: seq<Variable>, other: seq<Variable>, v: Variable, w: Variable)
    requires w in vars && SameUpToOrder(vars, other) && other != [] && other[0] == v && ProperPrefix(v.path, w.path)
    ensures Overrides(other, |other|).Err?
  {
    SameMembers(vars, other, w);
    var j :| 0 <= j < |other| && other[j] == w;
    FailsExactly(other, |other|);
    assert 0 < j;
  }

  /** The later of two variables with one path stands. */
  lemma LastStands(vars: seq<Variable>, i: nat)
    requires i < |vars| && OrderOk(Back(vars, i), |vars|)
    ensures var o := Back(vars, i);
            Overrides(o, |o|).Ok? && KindAt(Overrides(o, |o|).value, vars[i].path) == IsLeaf(Str(vars[i].value))
  {
    var o := Back(vars, i);
    FailsExactly(o, |o|);
    LastWriterWins(o, |o|, vars[i].path);
  }

  /** The order in which the variables are listed does not matter exactly when they are consistent. */
  lemma OrderIndependentExactly(vars: seq<Variable>)
    ensures OrderIndependent(vars) <==> Consistent(vars)
  {
    if Consistent(vars) {
      forall other | SameUpToOrder(vars, other) ensures Overrides(other, |other|) == Overrides(vars, |vars|) {
        SameTree(vars, other);
      }
    } else {
      Differs(vars);
    }
  }

  lemma Differs(vars: seq<Variable>)
    requires !Consistent(vars)
    ensures !OrderIndependent(vars)
  {
    if v, w :| v in vars && w in vars && ProperPrefix(v.path, w.path) {
      PrefixLosesEitherWay(vars, v, w);
    } else {
      var v, w :| v in vars && w in vars && v.path == w.path && v.value != w.value;
      var i :| 0 <= i < |vars| && vars[i] == v;
      var j :| 0 <= j < |vars| && vars[j] == w;
      NoPrefix(vars, i);
      NoPrefix(vars, j);
      LastStands(vars, i);
      LastStands(vars, j);
      Moved(vars, i);
      Moved(vars, j);
    }
  }

  lemma NoPrefix(vars: seq<Variable>, i: nat)
    requires i < |vars| && forall v, w :: v in vars && w in vars ==> !ProperPrefix(v.path, w.path)
    ensures OrderOk(Back(vars, i), |vars|)
  {
    var o := Back(vars, i);
    forall k, l | 0 <= k < l < |o| ensures !ProperPrefix(o[k].path, o[l].path) {
      assert o[k] in vars && o[l] in vars;
    }
  }
}
