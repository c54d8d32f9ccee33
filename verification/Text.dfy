/** The string operations of Go's `strings` package that the modelled code relies on.
    Text is a sequence of Unicode scalar values. */
module Text {

  datatype Option<+T> = None | Some(value: T)

  datatype Result<+T> = Ok(value: T) | Err(message: string)

  /** Go's `unicode.IsSpace`. */
  predicate IsSpace(c: char) {
    || '\t' <= c <= '\r' || c == ' ' || c == '\U{0085}' || c == '\U{00A0}'
    || c == '\U{1680}' || '\U{2000}' <= c <= '\U{200A}'
    || c == '\U{2028}' || c == '\U{2029}' || c == '\U{202F}' || c == '\U{205F}' || c == '\U{3000}'
  }

  const NEWLINE: set<char> := {'\n'}
  const BLANK: set<char> := {' '}
  const SPACES: set<char> := set c: char | IsSpace(c)

  // ----- trimming -----

  predicate AllIn(s: string, cut: set<char>) {
    forall i :: 0 <= i < |s| ==> s[i] in cut
  }

  function TrimLeft(s: string, cut: set<char>): (r: string)
    ensures |r| <= |s|
    ensures r != [] ==> r[0] !in cut
  {
    if s != [] && s[0] in cut then TrimLeft(s[1..], cut) else s
  }

  function TrimRight(s: string, cut: set<char>): (r: string)
    ensures |r| <= |s|
    ensures r != [] ==> r[|r| - 1] !in cut
  {
    if s != [] && s[|s| - 1] in cut then TrimRight(s[..|s| - 1], cut) else s
  }

  function Trim(s: string, cut: set<char>): string {
    TrimRight(TrimLeft(s, cut), cut)
  }

  function TrimSpace(s: string): string {
    Trim(s, SPACES)
  }

  /** No character of `cut` at either end. */
  predicate Trimmed(s: string, cut: set<char>) {
    s != [] ==> s[0] !in cut && s[|s| - 1] !in cut
  }

  /** The three clauses of `TrimRight` determine its result. */
  lemma {:induction false} TrimRightUnique(kept: string, tail: string, cut: set<char>)
    requires AllIn(tail, cut)
    requires kept != [] ==> kept[|kept| - 1] !in cut
    ensures TrimRight(kept + tail, cut) == kept
  {
    if tail == [] {
      assert kept + tail == kept;
    } else {
      var s := kept + tail;
      assert s[|s| - 1] == tail[|tail| - 1];
      assert s[..|s| - 1] == kept + tail[..|tail| - 1];
      TrimRightUnique(kept, tail[..|tail| - 1], cut);
    }
  }

  lemma {:induction false} TrimLeftUnique(head: string, kept: string, cut: set<char>)
    requires AllIn(head, cut)
    requires kept != [] ==> kept[0] !in cut
    ensures TrimLeft(head + kept, cut) == kept
  {
    if head == [] {
      assert head + kept == kept;
    } else {
      var s := head + kept;
      assert s[0] == head[0];
      assert s[1..] == head[1..] + kept;
      TrimLeftUnique(head[1..], kept, cut);
    }
  }

  /** Characters of the cut set around a text disappear. */
  lemma {:induction false} TrimUnique(head: string, kept: string, tail: string, cut: set<char>)
    requires AllIn(head, cut)
    requires AllIn(tail, cut)
    requires Trimmed(kept, cut)
    ensures Trim(head + kept + tail, cut) == kept
  {
    if kept == [] {
      assert head + kept + tail == (head + tail) + [];
      TrimLeftUnique(head + tail, [], cut);
    } else {
      assert head + kept + tail == head + (kept + tail);
      TrimLeftUnique(head, kept + tail, cut);
      TrimRightUnique(kept, tail, cut);
    }
  }

  lemma {:induction false} TrimmedIsFixed(s: string, cut: set<char>)
    requires Trimmed(s, cut)
    ensures Trim(s, cut) == s
  {
    TrimUnique([], s, [], cut);
    assert [] + s + [] == s;
  }

  lemma Prepended(s: string, h: string, t: string)
    requires s != [] && s[1..] == h + t
    ensures s == [s[0]] + h + t
  {
    assert s == [s[0]] + s[1..];
  }

  lemma {:induction false} TrimLeftParts(s: string, cut: set<char>) returns (head: string)
    ensures s == head + TrimLeft(s, cut) && AllIn(head, cut)
  {
    if s != [] && s[0] in cut {
      var h := TrimLeftParts(s[1..], cut);
      head := [s[0]] + h;
      Prepended(s, h, TrimLeft(s[1..], cut));
    } else {
      head := [];
    }
  }

  lemma {:induction false} TrimRightParts(s: string, cut: set<char>) returns (tail: string)
    ensures s == TrimRight(s, cut) + tail && AllIn(tail, cut)
  {
    if s != [] && s[|s| - 1] in cut {
      var t := TrimRightParts(s[..|s| - 1], cut);
      tail := t + [s[|s| - 1]];
      assert s == (TrimRight(s[..|s| - 1], cut) + t) + [s[|s| - 1]];
    } else {
      tail := [];
    }
  }

  lemma {:induction false} TrimRightEnd(s: string, cut: set<char>)
    ensures var t := TrimRight(s, cut); t != [] ==> t[|t| - 1] !in cut
  {
    if s != [] && s[|s| - 1] in cut { TrimRightEnd(s[..|s| - 1], cut); }
  }

  lemma {:induction false} TrimRightKeepsFirst(s: string, cut: set<char>)
    requires s != [] && s[0] !in cut
    ensures TrimRight(s, cut) != [] && TrimRight(s, cut)[0] == s[0]
  {
    if s[|s| - 1] in cut { TrimRightKeepsFirst(s[..|s| - 1], cut); }
  }

  /** What trimming cut off on either side. */
  lemma {:induction false} TrimParts(s: string, cut: set<char>) returns (head: string, tail: string)
    ensures Trimmed(Trim(s, cut), cut)
    ensures s == head + Trim(s, cut) + tail && AllIn(head, cut) && AllIn(tail, cut)
  {
    var l := TrimLeft(s, cut);
    head := TrimLeftParts(s, cut);
    tail := TrimRightParts(l, cut);
    var r := TrimRight(l, cut);
    assert s == head + (r + tail);
    if r != [] { assert l[0] == (r + tail)[0] == r[0]; }
  }

  lemma TrimAddsNothing(s: string, cut: set<char>, c: char)
    requires c !in s
    ensures c !in Trim(s, cut)
  {
    var head, tail := TrimParts(s, cut);
  }

  /** Padding with characters of the cut set does not change what trimming leaves. */
  lemma {:induction false} TrimIgnoresPadding(head: string, s: string, tail: string, cut: set<char>)
    requires AllIn(head, cut) && AllIn(tail, cut)
    ensures Trim(head + s + tail, cut) == Trim(s, cut)
  {
    var h, t := TrimParts(s, cut);
    TrimUnique(head + h, Trim(s, cut), t + tail, cut);
    assert head + s + tail == (head + h) + Trim(s, cut) + (t + tail);
  }

  // ----- searching -----

  /** `m` occurs in `s` at offset `i`. */
  predicate At(s: string, m: string, i: int) {
    0 <= i && i + |m| <= |s| && s[i..i + |m|] == m
  }

  /** `strings.Index(s[from:], m)`, as an offset into `s`. */
  function IndexFrom(s: string, m: string, from: nat): (r: int)
    ensures r == -1 || (from <= r && At(s, m, r))
    decreases |s| - from
  {
    if from + |m| > |s| then -1
    else if At(s, m, from) then from
    else IndexFrom(s, m, from + 1)
  }

  lemma {:induction false} IndexFromLeast(s: string, m: string, from: nat, j: int)
    requires from <= j && At(s, m, j)
    ensures from <= IndexFrom(s, m, from) <= j
    decreases |s| - from
  {
    if !At(s, m, from) { IndexFromLeast(s, m, from + 1, j); }
  }

  function Index(s: string, m: string): (r: int)
    ensures r == -1 || At(s, m, r)
  {
    IndexFrom(s, m, 0)
  }

  /** `Index` finds the first occurrence. */
  lemma IndexLeast(s: string, m: string, j: int)
    requires At(s, m, j)
    ensures 0 <= Index(s, m) <= j
  {
    IndexFromLeast(s, m, 0, j);
  }

  /** A one-character marker is at `i` exactly when the text has that character there. */
  lemma AtChar(s: string, c: char, i: int)
    ensures At(s, [c], i) <==> 0 <= i < |s| && s[i] == c
  {
    if 0 <= i < |s| { assert s[i..i + 1] == [s[i]]; }
  }

  lemma IndexOfChar(a: string, c: char, rest: string)
    requires c !in a
    ensures Index(a + [c] + rest, [c]) == |a|
  {
    var s := a + [c] + rest;
    AtChar(s, c, |a|);
    IndexLeast(s, [c], |a|);
    var r := Index(s, [c]);
    AtChar(s, c, r);
    assert forall k | 0 <= k < |a| :: s[k] == a[k];
  }

  /** The first occurrence of a character has none before it. */
  lemma IndexChar(s: string, c: char)
    ensures var r := Index(s, [c]);
            if r < 0 then c !in s else r < |s| && s[r] == c && c !in s[..r]
  {
    var r := Index(s, [c]);
    AtChar(s, c, r);
    forall k | 0 <= k < |s| && s[k] == c ensures 0 <= r <= k {
      AtChar(s, c, k);
      IndexLeast(s, [c], k);
    }
  }

  lemma IndexAbsent(a: string, c: char)
    requires c !in a
    ensures Index(a, [c]) == -1
  {
    AtChar(a, c, Index(a, [c]));
  }

  predicate HasPrefix(s: string, p: string) {
    p <= s
  }

  /** `strings.Cut`: the text around the first `sep`, if there is one. */
  function Cut(s: string, sep: string): Option<(string, string)> {
    var i := Index(s, sep);
    if i < 0 then None else Some((s[..i], s[i + |sep|..]))
  }

  lemma CutAtChar(a: string, c: char, rest: string)
    requires c !in a
    ensures Cut(a + [c] + rest, [c]) == Some((a, rest))
  {
    IndexOfChar(a, c, rest);
    var s := a + [c] + rest;
    assert s[..|a|] == a && s[|a| + 1..] == rest;
  }

  // ----- splitting and joining -----

  /** `strings.Split` for a non-empty separator. */
  function Split(s: string, sep: string): (parts: seq<string>)
    requires sep != []
    ensures parts != []
    decreases |s|
  {
    var i := Index(s, sep);
    if i < 0 then [s] else [s[..i]] + Split(s[i + |sep|..], sep)
  }

  function Flatten<T>(groups: seq<seq<T>>): seq<T> {
    if groups == [] then [] else groups[0] + Flatten(groups[1..])
  }

  function Join(parts: seq<string>, sep: string): string {
    if parts == [] then []
    else if |parts| == 1 then parts[0]
    else parts[0] + sep + Join(parts[1..], sep)
  }

  lemma SplitCons(a: string, c: char, rest: string)
    requires c !in a
    ensures Split(a + [c] + rest, [c]) == [a] + Split(rest, [c])
  {
    IndexOfChar(a, c, rest);
    var s := a + [c] + rest;
    assert s[..|a|] == a && s[|a| + 1..] == rest;
  }

  lemma SplitLast(a: string, c: char)
    requires c !in a
    ensures Split(a, [c]) == [a]
  {
    IndexAbsent(a, c);
  }

  /** Joining and splitting at a character undo each other. */
  lemma {:induction false} SplitJoin(parts: seq<string>, c: char)
    requires parts != []
    requires forall p :: p in parts ==> c !in p
    ensures Split(Join(parts, [c]), [c]) == parts
  {
    if |parts| == 1 {
      SplitLast(parts[0], c);
    } else {
      SplitCons(parts[0], c, Join(parts[1..], [c]));
      SplitJoin(parts[1..], c);
      assert parts == [parts[0]] + parts[1..];
    }
  }

  lemma {:induction false} JoinSplit(s: string, c: char)
    ensures Join(Split(s, [c]), [c]) == s
    ensures forall p :: p in Split(s, [c]) ==> c !in p
    decreases |s|
  {
    var i := Index(s, [c]);
    IndexChar(s, c);
    if i >= 0 {
      JoinSplit(s[i + 1..], c);
      assert Split(s, [c])[1..] == Split(s[i + 1..], [c]);
      assert s == s[..i] + [c] + s[i + 1..];
    }
  }

  lemma {:induction false} JoinConcat(a: seq<string>, b: seq<string>, sep: string)
    requires a != [] && b != []
    ensures Join(a + b, sep) == Join(a, sep) + sep + Join(b, sep)
    decreases |a|
  {
    assert (a + b)[1..] == a[1..] + b && (a + b)[0] == a[0];
    if |a| > 1 {
      JoinConcat(a[1..], b, sep);
      JoinStep(a[0], sep, Join(a[1..], sep), Join(b, sep));
    }
  }

  lemma JoinStep(first: string, sep: string, x: string, y: string)
    ensures first + sep + (x + sep + y) == (first + sep + x) + sep + y
  {
  }

  // ----- words -----

  /** Length of the leading run without white space. */
  function WordLength(s: string): (n: nat)
    ensures n <= |s|
    ensures forall i :: 0 <= i < n ==> !IsSpace(s[i])
    ensures n < |s| ==> IsSpace(s[n])
  {
    if s == [] || IsSpace(s[0]) then 0 else 1 + WordLength(s[1..])
  }

  /** `strings.Fields`: the maximal runs without white space. */
  function Fields(s: string): (words: seq<string>)
    ensures forall k :: 0 <= k < |words| ==> words[k] != [] && SpaceFree(words[k])
    decreases |s|
  {
    var t := TrimLeft(s, SPACES);
    if t == [] then []
    else
      var n := WordLength(t);
      assert n > 0;
      [t[..n]] + Fields(t[n..])
  }

  predicate SpaceFree(s: string) {
    forall i :: 0 <= i < |s| ==> !IsSpace(s[i])
  }

  lemma {:induction false} WordLengthIs(w: string, rest: string)
    requires SpaceFree(w)
    requires rest != [] ==> IsSpace(rest[0])
    ensures WordLength(w + rest) == |w|
  {
    if w == [] {
      assert w + rest == rest;
    } else {
      assert (w + rest)[0] == w[0];
      assert (w + rest)[1..] == w[1..] + rest;
      WordLengthIs(w[1..], rest);
    }
  }

  /** The first word, behind any white space. */
  lemma FieldsCons(pad: string, w: string, rest: string)
    requires AllIn(pad, SPACES) && w != [] && SpaceFree(w)
    requires rest != [] ==> IsSpace(rest[0])
    ensures Fields(pad + w + rest) == [w] + Fields(rest)
  {
    assert pad + w + rest == pad + (w + rest);
    assert (w + rest)[0] == w[0];
    TrimLeftUnique(pad, w + rest, SPACES);
    WordLengthIs(w, rest);
    assert (w + rest)[..|w|] == w && (w + rest)[|w|..] == rest;
  }

  lemma FieldsBlank(pad: string)
    requires AllIn(pad, SPACES)
    ensures Fields(pad) == []
  {
    TrimLeftUnique(pad, [], SPACES);
    assert pad + [] == pad;
  }

  /** A text with words is white space, the first word, and the rest. */
  lemma FirstWord(s: string) returns (pad: string, w: string, rest: string)
    ensures s == pad + w + rest && AllIn(pad, SPACES) && SpaceFree(w)
    ensures rest != [] ==> IsSpace(rest[0])
    ensures w == [] ==> rest == []
  {
    pad := TrimLeftParts(s, SPACES);
    w, rest := WordAndRest(TrimLeft(s, SPACES));
    assert s == pad + (w + rest);
  }

  lemma WordAndRest(t: string) returns (w: string, rest: string)
    requires t != [] ==> !IsSpace(t[0])
    ensures t == w + rest && SpaceFree(w)
    ensures rest != [] ==> IsSpace(rest[0])
    ensures w == [] ==> rest == []
  {
    var n := WordLength(t);
    w, rest := t[..n], t[n..];
  }

  /** The last word. */
  lemma {:induction false} FieldsSnoc(s: string, w: string)
    requires w != [] && SpaceFree(w)
    ensures Fields(s + " " + w) == Fields(s) + [w]
    decreases |s|
  {
    var pad, first, rest := FirstWord(s);
    assert IsSpace(' ');
    if first == [] {
      FieldsBlank(pad);
      FieldsCons(pad + " ", w, []);
      FieldsBlank([]);
      assert pad + first + rest == pad && (pad + " ") + w + [] == pad + " " + w;
    } else {
      FieldsCons(pad, first, rest);
      FieldsCons(pad, first, rest + " " + w);
      FieldsSnoc(rest, w);
      BehindWord(pad, first, rest, w);
    }
  }

  lemma BehindWord(pad: string, first: string, rest: string, w: string)
    ensures pad + first + rest + " " + w == pad + first + (rest + " " + w)
  {
  }

  // ----- UTF-8 length -----

  /** Bytes of the UTF-8 encoding of one scalar value. */
  function CharBytes(c: char): nat {
    if c < '\U{0080}' then 1 else if c < '\U{0800}' then 2 else if c < '\U{10000}' then 3 else 4
  }

  function ByteLength(s: string): nat {
    if s == [] then 0 else CharBytes(s[0]) + ByteLength(s[1..])
  }
}
