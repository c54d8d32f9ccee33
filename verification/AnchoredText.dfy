/** Regions of a text that are delimited by markers at the start of a line: the line-anchored
    search of `cli/internal/skillgen/skillgen.go`, and printing and finding such a region,
    for any pair of markers. */
module AnchoredText {
  import opened Text

  // ----- line-anchored search -----

  /** Offset `i` starts a line of `s`. */
  predicate LineStart(s: string, i: int) {
    i == 0 || (0 < i <= |s| && s[i - 1] == '\n')
  }

  /** `m` occurs at `i`, at the start of a line. */
  predicate Anchored(s: string, m: string, i: int) {
    At(s, m, i) && LineStart(s, i)
  }

  function AnchoredFrom(s: string, m: string, from: nat): (r: int)
    requires m != []
    ensures r == -1 || (from <= r && Anchored(s, m, r))
    decreases |s| - from
  {
    var i := IndexFrom(s, m, from);
    if i < 0 then -1
    else if LineStart(s, i) then i
    else AnchoredFrom(s, m, i + 1)
  }

  lemma {:induction false} AnchoredFromLeast(s: string, m: string, from: nat, j: int)
    requires m != [] && from <= j && Anchored(s, m, j)
    ensures from <= AnchoredFrom(s, m, from) <= j
    decreases |s| - from
  {
    IndexFromLeast(s, m, from, j);
    var i := IndexFrom(s, m, from);
    if LineStart(s, i) {
      FoundHere(s, m, from, i);
    } else {
      AnchoredFromLeast(s, m, i + 1, j);
      FoundLater(s, m, from, i);
    }
  }

  lemma FoundHere(s: string, m: string, from: nat, i: nat)
    requires m != [] && IndexFrom(s, m, from) == i && LineStart(s, i)
    ensures AnchoredFrom(s, m, from) == i
  {
  }

  lemma FoundLater(s: string, m: string, from: nat, i: nat)
    requires m != [] && IndexFrom(s, m, from) == i && !LineStart(s, i)
    ensures AnchoredFrom(s, m, from) == AnchoredFrom(s, m, i + 1)
  {
  }

  /** The first line that begins with `m`, or -1. */
  function AnchoredIndex(s: string, m: string): (r: int)
    requires m != []
    ensures r == -1 || Anchored(s, m, r)
  {
    AnchoredFrom(s, m, 0)
  }

  predicate HasLine(s: string, m: string)
    requires m != []
  {
    AnchoredIndex(s, m) >= 0
  }

  method LineAnchoredIndex(s: string, marker: string) returns (r: int)
    requires marker != []
    ensures r == AnchoredIndex(s, marker)
  {
    var from := 0;
    while true
      invariant 0 <= from <= |s|
      invariant AnchoredFrom(s, marker, from) == AnchoredIndex(s, marker)
      decreases |s| - from
    {
      var abs := IndexFrom(s, marker, from);
      if abs < 0 {
        return -1;
      }
      if LineStart(s, abs) {
        return abs;
      }
      from := abs + 1;
    }
  }

  /** A newline-free marker cannot straddle the end of a newline-terminated prefix. */
  lemma AnchoredAfter(p: string, x: string, m: string, i: int)
    requires m != [] && '\n' !in m && LineStart(p, |p|)
    ensures i < |p| ==> (Anchored(p + x, m, i) <==> Anchored(p, m, i))
    ensures i >= |p| ==> (Anchored(p + x, m, i) <==> Anchored(x, m, i - |p|))
  {
    var s := p + x;
    if 0 <= i < |p| {
      if i + |m| <= |p| {
        assert s[i..i + |m|] == p[i..i + |m|];
      } else if i + |m| <= |s| {
        assert s[i..i + |m|][|p| - 1 - i] == '\n';
      }
    } else if i >= |p| && i + |m| <= |s| {
      assert s[i..i + |m|] == x[i - |p|..i - |p| + |m|];
    }
  }

  /** `AnchoredIndex` finds the first such line. */
  lemma AnchoredLeast(s: string, m: string, j: int)
    requires m != [] && Anchored(s, m, j)
    ensures HasLine(s, m) && AnchoredIndex(s, m) <= j
  {
    AnchoredFromLeast(s, m, 0, j);
  }

  /** A line found in a prefix that ends a line is the one found in the whole. */
  lemma AnchoredInPrefix(p: string, x: string, m: string)
    requires m != [] && '\n' !in m && LineStart(p, |p|) && HasLine(p, m)
    ensures AnchoredIndex(p + x, m) == AnchoredIndex(p, m)
  {
    var j := AnchoredIndex(p, m);
    AnchoredAfter(p, x, m, j);
    AnchoredLeast(p + x, m, j);
    var i := AnchoredIndex(p + x, m);
    AnchoredAfter(p, x, m, i);
    AnchoredLeast(p, m, i);
  }

  /** With none in the prefix, the search goes on behind it. */
  lemma AnchoredBeyond(p: string, x: string, m: string)
    requires m != [] && '\n' !in m && LineStart(p, |p|) && !HasLine(p, m) && HasLine(x, m)
    ensures AnchoredIndex(p + x, m) == |p| + AnchoredIndex(x, m)
  {
    var k := AnchoredIndex(x, m);
    AnchoredAfter(p, x, m, |p| + k);
    AnchoredLeast(p + x, m, |p| + k);
    var i := AnchoredIndex(p + x, m);
    AnchoredAfter(p, x, m, i);
    if i < |p| { AnchoredLeast(p, m, i); }
    AnchoredLeast(x, m, i - |p|);
  }

  lemma NoLineIn(p: string, x: string, m: string)
    requires m != [] && '\n' !in m && LineStart(p, |p|) && !HasLine(p, m) && !HasLine(x, m)
    ensures !HasLine(p + x, m)
  {
    var i := AnchoredIndex(p + x, m);
    if i >= 0 {
      AnchoredAfter(p, x, m, i);
      if i < |p| { AnchoredLeast(p, m, i); } else { AnchoredLeast(x, m, i - |p|); }
    }
  }

  /** A prefix has no more anchored lines than the whole. */
  lemma HasLinePrefix(a: string, b: string, m: string)
    requires m != [] && !HasLine(a + b, m)
    ensures !HasLine(a, m)
  {
    if HasLine(a, m) {
      var i := AnchoredIndex(a, m);
      assert (a + b)[i..i + |m|] == a[i..i + |m|];
      AnchoredLeast(a + b, m, i);
    }
  }

  /** A closing newline adds no anchored line. */
  lemma HasLineNewline(a: string, m: string)
    requires m != [] && '\n' !in m && !HasLine(a, m)
    ensures !HasLine(a + "\n", m)
  {
    var s := a + "\n";
    if HasLine(s, m) {
      var i := AnchoredIndex(s, m);
      assert m[|m| - 1] == s[i + |m| - 1];
      assert s[i..i + |m|] == a[i..i + |m|];
      AnchoredLeast(a, m, i);
    }
  }

  /** A single line carries an anchored marker only by starting with it. */
  lemma HasLineSingle(a: string, m: string)
    requires m != [] && '\n' !in a && !(m <= a)
    ensures !HasLine(a, m)
  {
    if |m| <= |a| { assert a[..|m|] == a[0..|m|]; }
  }

  /** The text starts with the marker. */
  lemma StartsAnchored(s: string, m: string)
    requires m != [] && m <= s
    ensures AnchoredIndex(s, m) == 0
  {
    assert s[0..|m|] == m;
    AnchoredLeast(s, m, 0);
  }

  // ----- marked regions -----

  /** A pair of markers: one line each, told apart by their text. */
  datatype Markers = Markers(open: string, close: string)
  {
    predicate Valid() {
      && open != [] && '\n' !in open && '\r' !in open
      && close != [] && '\n' !in close && '\r' !in close
      && |close| <= |open| && !(close <= open)
    }
  }

  /** A region: its offsets, and what follows the opening marker on its line. */
  datatype Span = NoSpan | Span(start: nat, note: string, end: nat)

  /** End of the line that starts at `i`. */
  function LineEnd(s: string, i: nat): (e: nat)
    requires i <= |s|
    ensures i <= e <= |s|
  {
    var nl := Index(s[i..], "\n");
    if nl < 0 then |s| else i + nl
  }

  /** The first region: an opening marker at the start of a line, then a closing one. */
  function FindSpan(mk: Markers, s: string): (r: Span)
    requires mk.Valid()
    ensures r.Span? ==> r.start < r.end <= |s|
  {
    var bi := AnchoredIndex(s, mk.open);
    if bi < 0 then NoSpan
    else
      var relEnd := AnchoredIndex(s[bi..], mk.close);
      if relEnd < 0 then NoSpan
      else
        MarkerWithinLine(s, mk.open, bi);
        Span(bi, s[bi + |mk.open|..LineEnd(s, bi)], bi + relEnd + |mk.close|)
  }

  lemma MarkerWithinLine(s: string, m: string, i: nat)
    requires At(s, m, i) && '\n' !in m
    ensures i + |m| <= LineEnd(s, i)
  {
    var nl := Index(s[i..], "\n");
    AtChar(s[i..], '\n', nl);
    assert m == s[i..][..|m|];
  }

  /** A region as printed: opening marker with a note, body, closing marker. */
  function Printed(mk: Markers, note: string, body: string): string {
    mk.open + note + "\n" + body + "\n" + mk.close
  }

  lemma CommonPrefix(a: string, b: string, s: string)
    requires a <= s && b <= s && |a| <= |b|
    ensures a <= b
  {
  }

  /** No closing marker before the one that was printed. */
  lemma NoCloseInside(mk: Markers, line: string, body: string)
    requires mk.Valid() && mk.open <= line && '\n' !in line && !HasLine(body, mk.close)
    ensures !HasLine(line + "\n" + body + "\n", mk.close)
  {
    HasLineNewline(body, mk.close);
    if mk.close <= line { CommonPrefix(mk.close, mk.open, line); }
    HasLineSingle(line, mk.close);
    HasLineNewline(line, mk.close);
    NoLineIn(line + "\n", body + "\n", mk.close);
    assert line + "\n" + body + "\n" == (line + "\n") + (body + "\n");
  }

  lemma LineEndIs(text: string, i: nat, line: string, rest: string)
    requires i <= |text| && text[i..] == line + "\n" + rest && '\n' !in line
    ensures LineEnd(text, i) == i + |line|
  {
    IndexOfChar(line, '\n', rest);
  }

  lemma LineIs(text: string, start: nat, open: string, note: string, rest: string)
    requires start <= |text| && text[start..] == open + note + "\n" + rest && '\n' !in open && '\n' !in note
    ensures LineEnd(text, start) == start + |open| + |note| && text[start + |open|..start + |open| + |note|] == note
  {
    LineEndIs(text, start, open + note, rest);
    assert text[start..][|open|..|open| + |note|] == note;
  }

  lemma FoundSpan(mk: Markers, s: string, bi: nat, relEnd: nat)
    requires mk.Valid() && bi == AnchoredIndex(s, mk.open) && relEnd == AnchoredIndex(s[bi..], mk.close)
    ensures bi + |mk.open| <= LineEnd(s, bi)
    ensures FindSpan(mk, s) == Span(bi, s[bi + |mk.open|..LineEnd(s, bi)], bi + relEnd + |mk.close|)
  {
    MarkerWithinLine(s, mk.open, bi);
  }

  lemma OpensBehind(p: string, tail: string, m: string)
    requires m != [] && '\n' !in m && LineStart(p, |p|) && !HasLine(p, m) && m <= tail
    ensures AnchoredIndex(p + tail, m) == |p| && (p + tail)[|p|..] == tail
  {
    StartsAnchored(tail, m);
    AnchoredBeyond(p, tail, m);
  }

  lemma SpanBehind(mk: Markers, text: string, start: nat, tail: string, note: string, rest: string, length: nat)
    requires mk.Valid() && start <= |text| && text[start..] == tail && AnchoredIndex(text, mk.open) == start
    requires tail == mk.open + note + "\n" + rest && '\n' !in note && AnchoredIndex(tail, mk.close) == length
    ensures FindSpan(mk, text) == Span(start, note, start + length + |mk.close|)
  {
    LineIs(text, start, mk.open, note, rest);
    FoundSpan(mk, text, start, length);
  }

  lemma TailSpan(mk: Markers, p: string, tail: string, note: string, rest: string, length: nat)
    requires mk.Valid() && LineStart(p, |p|) && !HasLine(p, mk.open)
    requires tail == mk.open + note + "\n" + rest && '\n' !in note && AnchoredIndex(tail, mk.close) == length
    ensures FindSpan(mk, p + tail) == Span(|p|, note, |p| + length + |mk.close|)
  {
    OpensBehind(p, tail, mk.open);
    SpanBehind(mk, p + tail, |p|, tail, note, rest, length);
  }

  /** The line of the opening marker hides no closing one. */
  lemma ClosesBehind(mk: Markers, line: string, rest: string)
    requires mk.Valid() && mk.open <= line && '\n' !in line && HasLine(rest, mk.close)
    ensures AnchoredIndex(line + "\n" + rest, mk.close) == |line| + 1 + AnchoredIndex(rest, mk.close)
  {
    if mk.close <= line { CommonPrefix(mk.close, mk.open, line); }
    HasLineSingle(line, mk.close);
    HasLineNewline(line, mk.close);
    AnchoredBeyond(line + "\n", rest, mk.close);
  }

  lemma ClosesPrinted(body: string, m: string, suffix: string)
    requires m != [] && '\n' !in m && !HasLine(body, m)
    ensures AnchoredIndex(body + "\n" + (m + suffix), m) == |body| + 1
  {
    HasLineNewline(body, m);
    StartsAnchored(m + suffix, m);
    AnchoredBeyond(body + "\n", m + suffix, m);
  }

  lemma MiddleOf(p: string, x: string, suffix: string)
    ensures (p + x + suffix)[|p|..|p| + |x|] == x
  {
  }

  lemma PrintedIsTail(mk: Markers, note: string, body: string, suffix: string)
    ensures Printed(mk, note, body) + suffix == mk.open + note + "\n" + (body + "\n" + (mk.close + suffix))
  {
  }

  lemma Reassociated(a: string, b: string, c: string)
    ensures a + b + c == a + (b + c)
  {
  }

  lemma ClosesTail(mk: Markers, line: string, body: string, suffix: string)
    requires mk.Valid() && mk.open <= line && '\n' !in line && !HasLine(body, mk.close)
    ensures AnchoredIndex(line + "\n" + (body + "\n" + (mk.close + suffix)), mk.close) == |line| + 1 + |body| + 1
  {
    ClosesPrinted(body, mk.close, suffix);
    ClosesBehind(mk, line, body + "\n" + (mk.close + suffix));
  }

  lemma FindTail(mk: Markers, p: string, tail: string, note: string, body: string, suffix: string)
    requires mk.Valid() && LineStart(p, |p|) && !HasLine(p, mk.open)
    requires '\n' !in note && !HasLine(body, mk.close)
    requires tail == mk.open + note + "\n" + (body + "\n" + (mk.close + suffix))
    ensures FindSpan(mk, p + tail) == Span(|p|, note, |p| + |mk.open + note| + 1 + |body| + 1 + |mk.close|)
  {
    ClosesTail(mk, mk.open + note, body, suffix);
    TailSpan(mk, p, tail, note, body + "\n" + (mk.close + suffix), |mk.open + note| + 1 + |body| + 1);
  }

  /** Finding a region undoes printing it, whatever surrounds it. */
  lemma FindPrinted(mk: Markers, p: string, note: string, body: string, suffix: string)
    requires mk.Valid() && LineStart(p, |p|) && !HasLine(p, mk.open)
    requires '\n' !in note && !HasLine(body, mk.close)
    ensures FindSpan(mk, p + Printed(mk, note, body) + suffix)
         == Span(|p|, note, |p| + |Printed(mk, note, body)|)
  {
    PrintedIsTail(mk, note, body, suffix);
    Reassociated(p, Printed(mk, note, body), suffix);
    FindTail(mk, p, Printed(mk, note, body) + suffix, note, body, suffix);
  }
}
