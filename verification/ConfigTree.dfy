/** Nested configuration mappings and their recursive merge, `_deep_merge` in
    `src/jentic_one/shared/config.py`. */
module ConfigTree {

  /** Whatever is not a mapping: a string, a list of strings, or any other YAML value. */
  datatype Value = Str(s: string) | StrList(items: seq<string>) | Other(yaml: string)

  datatype Tree = Leaf(value: Value) | Dict(entries: map<string, Tree>)

  type Mapping = t: Tree | t.Dict? witness Dict(map[])

  // ----- merging -----

  function DeepMerge(base: Mapping, over: Mapping): Mapping
    decreases over, 1
  {
    Dict(map k | k in base.entries.Keys + over.entries.Keys :: MergedAt(base, over, k))
  }

  /** The value under `k`: both sides merged where both are mappings, otherwise the override if there is one. */
  function MergedAt(base: Mapping, over: Mapping, k: string): Tree
    requires k in base.entries || k in over.entries
    decreases over, 0
  {
    if k !in over.entries then base.entries[k]
    else if k in base.entries && base.entries[k].Dict? && over.entries[k].Dict?
    then DeepMerge(base.entries[k], over.entries[k])
    else over.entries[k]
  }

  /** The loop over the entries of the override, in whatever order they come. */
  method Merge(base: Mapping, over: Mapping) returns (merged: Mapping)
    ensures merged == DeepMerge(base, over)
    decreases over
  {
    merged := base;
    var todo := over.entries.Keys;
    while todo != {}
      invariant todo <= over.entries.Keys
      invariant merged.entries.Keys == base.entries.Keys + (over.entries.Keys - todo)
      invariant forall k :: k in merged.entries ==>
                  merged.entries[k]
                  == if k in todo || k !in over.entries then base.entries[k] else MergedAt(base, over, k)
      decreases todo
    {
      var key :| key in todo;
      var value := over.entries[key];
      if key in merged.entries && merged.entries[key].Dict? && value.Dict? {
        var sub := Merge(merged.entries[key], value);
        merged := Dict(merged.entries[key := sub]);
      } else {
        merged := Dict(merged.entries[key := value]);
      }
      todo := todo - {key};
    }
  }

  // ----- looking up a path -----

  /** What a path leads to: nothing, a mapping, or a value. A path through a value leads to nothing. */
  datatype Kind = Missing | IsDict | IsLeaf(value: Value)

  function KindAt(t: Tree, path: seq<string>): Kind
    decreases |path|
  {
    if path == [] then (if t.Dict? then IsDict else IsLeaf(t.value))
    else if t.Dict? && path[0] in t.entries then KindAt(t.entries[path[0]], path[1..])
    else Missing
  }

  /** The walk along the path meets a missing key, with nothing but mappings before it. */
  predicate Absent(t: Tree, path: seq<string>)
    decreases |path|
  {
    t.Dict? && path != [] && (path[0] in t.entries ==> Absent(t.entries[path[0]], path[1..]))
  }

  lemma {:induction false} AbsentIsMissing(t: Tree, path: seq<string>)
    requires Absent(t, path)
    ensures KindAt(t, path) == Missing
    decreases |path|
  {
    if path[0] in t.entries { AbsentIsMissing(t.entries[path[0]], path[1..]); }
  }

  /** The path law: where the override says nothing about a path, the merge has what the base has there;
      everywhere else it has what the override has. */
  lemma {:induction false} MergePath(base: Mapping, over: Mapping, path: seq<string>)
    ensures KindAt(DeepMerge(base, over), path) == if Absent(over, path) then KindAt(base, path) else KindAt(over, path)
    decreases |path|
  {
    if path != [] {
      var k := path[0];
      if k in base.entries && k in over.entries && base.entries[k].Dict? && over.entries[k].Dict? {
        MergePath(base.entries[k], over.entries[k], path[1..]);
      } else if k in over.entries && Absent(over.entries[k], path[1..]) {
        AbsentIsMissing(over.entries[k], path[1..]);
      }
    }
  }

  lemma MergeIdentity(t: Mapping)
    ensures DeepMerge(t, Dict(map[])) == t && DeepMerge(Dict(map[]), t) == t
  {
    assert DeepMerge(t, Dict(map[])).entries == t.entries;
    assert DeepMerge(Dict(map[]), t).entries == t.entries;
  }

  lemma {:induction false} MergeIdempotent(t: Mapping)
    ensures DeepMerge(t, t) == t
    decreases t
  {
    forall k | k in t.entries ensures MergedAt(t, t, k) == t.entries[k] {
      if t.entries[k].Dict? { MergeIdempotent(t.entries[k]); }
    }
    assert DeepMerge(t, t).entries == t.entries;
  }

  // ----- associativity -----

  /** Every key of `a` is in `c`, mappings within mappings. */
  predicate Covers(c: Mapping, a: Mapping)
    decreases c
  {
    forall k :: k in a.entries ==>
      k in c.entries && (a.entries[k].Dict? && c.entries[k].Dict? ==> Covers(c.entries[k], a.entries[k]))
  }

  /** Merging under `c` disappears exactly when `c` covers what lies below. */
  lemma {:induction false} MergeCovered(a: Mapping, c: Mapping)
    ensures DeepMerge(a, c) == c <==> Covers(c, a)
    decreases c
  {
    forall k | k in a.entries && k in c.entries && a.entries[k].Dict? && c.entries[k].Dict?
      ensures DeepMerge(a.entries[k], c.entries[k]) == c.entries[k] <==> Covers(c.entries[k], a.entries[k])
    {
      MergeCovered(a.entries[k], c.entries[k]);
    }
    if Covers(c, a) {
      assert DeepMerge(a, c).entries == c.entries;
    } else if DeepMerge(a, c) == c {
      forall k | k in a.entries
        ensures k in c.entries && (a.entries[k].Dict? && c.entries[k].Dict? ==> Covers(c.entries[k], a.entries[k]))
      {
        assert k in DeepMerge(a, c).entries;
        assert k in c.entries ==> DeepMerge(a, c).entries[k] == MergedAt(a, c, k);
      }
    }
  }

  /** No value of `b` stands between a mapping of `a` and a mapping of `c` that does not cover it. */
  predicate Layered(a: Mapping, b: Mapping, c: Mapping)
    decreases b
  {
    forall k :: k in a.entries && k in b.entries && k in c.entries && a.entries[k].Dict? && c.entries[k].Dict? ==>
      if b.entries[k].Dict? then Layered(a.entries[k], b.entries[k], c.entries[k])
      else Covers(c.entries[k], a.entries[k])
  }

  lemma {:induction false} AssociativeAt(a: Mapping, b: Mapping, c: Mapping, k: string)
    requires k in a.entries || k in b.entries || k in c.entries
    ensures var l := DeepMerge(DeepMerge(a, b), c);
            var r := DeepMerge(a, DeepMerge(b, c));
            && k in l.entries && k in r.entries
            && (l.entries[k] == r.entries[k]
                <==> (k in a.entries && k in b.entries && k in c.entries && a.entries[k].Dict? && c.entries[k].Dict? ==>
                        if b.entries[k].Dict? then Layered(a.entries[k], b.entries[k], c.entries[k])
                        else Covers(c.entries[k], a.entries[k])))
    decreases b, 0
  {
    if k in a.entries && k in b.entries && k in c.entries && a.entries[k].Dict? && c.entries[k].Dict? {
      if b.entries[k].Dict? {
        Associative(a.entries[k], b.entries[k], c.entries[k]);
      } else {
        MergeCovered(a.entries[k], c.entries[k]);
      }
    }
  }

  /** Merging is associative exactly when the three trees are layered. */
  lemma {:induction false} Associative(a: Mapping, b: Mapping, c: Mapping)
    ensures DeepMerge(DeepMerge(a, b), c) == DeepMerge(a, DeepMerge(b, c)) <==> Layered(a, b, c)
    decreases b, 1
  {
    var l := DeepMerge(DeepMerge(a, b), c);
    var r := DeepMerge(a, DeepMerge(b, c));
    assert l.entries.Keys == r.entries.Keys == a.entries.Keys + b.entries.Keys + c.entries.Keys;
    forall k | k in l.entries { AssociativeAt(a, b, c, k); }
    if Layered(a, b, c) { assert l.entries == r.entries; }
  }

  /** A value between two mappings: grouping to the left forgets what grouping to the right keeps. */
  lemma AssociativityCanFail()
    ensures var a := Dict(map["k" := Dict(map["x" := Leaf(Str("1"))])]);
            var b := Dict(map["k" := Leaf(Str("2"))]);
            var c := Dict(map["k" := Dict(map["y" := Leaf(Str("3"))])]);
            && KindAt(DeepMerge(DeepMerge(a, b), c), ["k", "x"]) == Missing
            && KindAt(DeepMerge(a, DeepMerge(b, c)), ["k", "x"]) == IsLeaf(Str("1"))
  {
    var a := Dict(map["k" := Dict(map["x" := Leaf(Str("1"))])]);
    var b := Dict(map["k" := Leaf(Str("2"))]);
    var c := Dict(map["k" := Dict(map["y" := Leaf(Str("3"))])]);
    assert ["k", "x"][1..] == ["x"] && ["x"][1..] == [];
    MergePath(DeepMerge(a, b), c, ["k", "x"]);
    MergePath(a, b, ["k", "x"]);
    MergePath(a, DeepMerge(b, c), ["k", "x"]);
    MergePath(b, c, ["k", "x"]);
    assert !("x" in c.entries["k"].entries);
    assert DeepMerge(b, c).entries["k"] == c.entries["k"];
  }

  // ----- trees are known by their paths -----

  lemma KindOfKey(t: Mapping, k: string)
    ensures k in t.entries <==> KindAt(t, [k]) != Missing
  {
    assert [k][1..] == [];
    if k in t.entries { assert KindAt(t, [k]) == KindAt(t.entries[k], []); }
  }

  lemma {:induction false} SameKinds(a: Tree, b: Tree)
    requires forall q :: KindAt(a, q) == KindAt(b, q)
    ensures a == b
    decreases a
  {
    assert KindAt(a, []) == KindAt(b, []);
    if a.Dict? {
      forall k ensures k in a.entries <==> k in b.entries {
        KindOfKey(a, k);
        KindOfKey(b, k);
      }
      forall k | k in a.entries ensures a.entries[k] == b.entries[k] {
        forall q ensures KindAt(a.entries[k], q) == KindAt(b.entries[k], q) {
          assert ([k] + q)[1..] == q;
          assert KindAt(a, [k] + q) == KindAt(b, [k] + q);
        }
        SameKinds(a.entries[k], b.entries[k]);
      }
      assert a.entries == b.entries;
    }
  }
}
