/** Exactly when repeating `splice` of `cli/internal/skillgen/skillgen.go` changes nothing. */
module Idempotence {
  import opened Text
  import opened Newlines
  import opened AnchoredText
  import opened ManagedBlock
  import opened Splicing
  import opened SpliceLimits
  import opened EndLines

  // ----- a region never holds an END line -----

  lemma RegionBodyHasNoEnd(q: string, m: string)
    requires m != [] && '\n' !in m && q != [] && q[|q| - 1] == '\n' && !HasLine(q, m)
    ensures !HasLine(RegionBody(q + m, m), m)
  {
    var k := FirstNewline(q, m);
    var rest := q[k + 1..];
    assert (q + m)[k + 1..] == rest + m;
    DropsSuffix(rest, m);
    assert q == q[..k + 1] + rest;
    NoCloseInTail(m, q[..k + 1], rest);
    var tail := TrimRightParts(rest, NEWLINE);
    HasLinePrefix(TrimRight(rest, NEWLINE), tail, m);
  }

  lemma FirstNewline(q: string, m: string) returns (k: nat)
    requires q != [] && q[|q| - 1] == '\n'
    ensures k < |q| && q[k] == '\n' && Index(q + m, "\n") == k
  {
    AtChar(q + m, '\n', |q| - 1);
    IndexLeast(q + m, "\n", |q| - 1);
    k := Index(q + m, "\n");
    AtChar(q + m, '\n', k);
  }

  /** A region from the opening marker up to the first closing one. */
  lemma RegionShape(mk: Markers, x: string) returns (q: string)
    requires mk.Valid() && mk.open <= x && HasLine(x, mk.close)
    ensures q != [] && q[|q| - 1] == '\n' && !HasLine(q, mk.close)
    ensures |q| == AnchoredIndex(x, mk.close) && q + mk.close <= x
  {
    var n := AnchoredIndex(x, mk.close);
    NothingBeforeFirst(x, mk.close);
    q := x[..n];
    assert x[..n + |mk.close|] == q + x[n..n + |mk.close|];
    if n == 0 { CommonPrefix(mk.close, mk.open, x); }
  }

  lemma SpanStarts(mk: Markers, text: string)
    requires mk.Valid() && FindSpan(mk, text).Span?
    ensures var span := FindSpan(mk, text);
            && mk.open <= text[span.start..] && HasLine(text[span.start..], mk.close)
            && span.end == span.start + AnchoredIndex(text[span.start..], mk.close) + |mk.close|
  {
    var i := AnchoredIndex(text, mk.open);
    assert text[i..i + |mk.open|] == text[i..][..|mk.open|];
  }

  lemma SliceIsPrefix(text: string, i: nat, r: string)
    requires i <= |text| && r <= text[i..]
    ensures i + |r| <= |text| && text[i..i + |r|] == r
  {
  }

  /** The body that the generator reads never holds a line that begins with the END marker. */
  lemma FoundBodyHasNoEnd(g: Generator, text: string)
    requires '\r' !in text && BlockIn(g, text).Region?
    ensures BlockIn(g, text).end <= |text| && !HasLine(CurrentBlockBody(g, text, BlockIn(g, text)), g.mk.close)
  {
    var r := FoundRegion(g, text);
    ReadsRegion(g, text, BlockIn(g, text), r);
  }

  lemma FoundRegion(g: Generator, text: string) returns (r: string)
    requires '\r' !in text && BlockIn(g, text).Region?
    ensures var blk := BlockIn(g, text); blk.end <= |text| && text[blk.start..blk.end] == r
    ensures !HasLine(RegionBody(r, g.mk.close), g.mk.close)
  {
    RegionSpan(g, text);
    r := SpanRegion(g.mk, text);
  }

  lemma SpanRegion(mk: Markers, text: string) returns (r: string)
    requires mk.Valid() && FindSpan(mk, text).Span?
    ensures var span := FindSpan(mk, text); span.end <= |text| && text[span.start..span.end] == r
    ensures !HasLine(RegionBody(r, mk.close), mk.close)
  {
    SpanStarts(mk, text);
    r := RegionWithoutEnd(mk, text, FindSpan(mk, text).start);
  }

  lemma RegionSpan(g: Generator, text: string)
    requires '\r' !in text && BlockIn(g, text).Region?
    ensures var span, blk := FindSpan(g.mk, text), BlockIn(g, text);
            span.Span? && span.start == blk.start && span.end == blk.end
  {
  }

  lemma RegionWithoutEnd(mk: Markers, text: string, i: nat) returns (r: string)
    requires mk.Valid() && i <= |text| && mk.open <= text[i..] && HasLine(text[i..], mk.close)
    ensures i + |r| <= |text| && text[i..i + |r|] == r && |r| == AnchoredIndex(text[i..], mk.close) + |mk.close|
    ensures !HasLine(RegionBody(r, mk.close), mk.close)
  {
    var q := RegionShape(mk, text[i..]);
    r := q + mk.close;
    SliceIsPrefix(text, i, r);
    RegionBodyHasNoEnd(q, mk.close);
  }

  lemma ReadsRegion(g: Generator, text: string, blk: Found, region: string)
    requires blk.Region? && blk.start <= blk.end <= |text| && text[blk.start..blk.end] == region
    ensures CurrentBlockBody(g, text, blk) == RegionBody(region, g.mk.close)
  {
  }

  // ----- the theorem -----

  /** Short of a collision, no text is up to date with a body that has an END line. */
  lemma EndLineNeverSettles(g: Generator, text: string, body: string)
    requires HasLine(Normalize(body), g.mk.close) && NoClash(g, text, body)
    ensures !UpToDate(g, text, body)
  {
    if UpToDate(g, text, body) {
      FoundBodyHasNoEnd(g, Normalize(text));
      TrimKeepsLine(Normalize(body), g.mk.close);
    }
  }

  lemma SettledBlock(g: Generator, p: string, note: string, z: string, body: string, source: string, s: string)
    requires OpenPrefix(g, p) && BodyOk(g, z) && SpaceFree(source) && '\r' !in s
    requires note == Note(HashContent(g, body), source)
    requires TrimRight(z, NEWLINE) == TrimRight(Normalize(body), NEWLINE)
    ensures UpToDate(g, p + Printed(g.mk, note, z) + s, body)
  {
    SpaceFreeTells(g, body, source);
    PlainSource(source);
    NoteIsPlain(HashContent(g, body), source);
    FindPrintedNote(g, p, note, z, s);
    HashIgnoresNewlines(g, z);
  }

  /** A body without an END line settles at once, whatever its line endings. */
  lemma SpliceSettles(g: Generator, raw: string, body: string, source: string)
    requires Spliceable(g, raw) && !HasLine(Normalize(body), g.mk.close) && SpaceFree(source)
    ensures UpToDate(g, Splice(g, raw, body, source).out, body)
  {
    SpliceShape(g, raw, body, source);
    NormalizeTwice(raw);
    UnchangedIsUpToDate(g, raw, body, source);
    if Splice(g, raw, body, source).changed {
      BeforeIsOpen(g, raw);
      PlainSource(source);
      var z := BlockNormalized(g, Before(g, raw), body, source, After(g, raw));
      EndFree(g, z, Normalize(body));
      SettledBlock(g, Before(g, raw), Note(HashContent(g, body), source), z, body, source, After(g, raw));
    }
  }

  /** For every body: a second splice changes nothing exactly when the file had a region or no BEGIN line and the body
      has no END line, or else when the text happens to be up to date. */
  lemma IdempotentExactly(g: Generator, raw: string, body: string, source: string)
    requires SpaceFree(source)
    ensures var once := Splice(g, raw, body, source).out;
            !Splice(g, once, body, source).changed
            <==> (Spliceable(g, raw) && !HasLine(Normalize(body), g.mk.close)) || UpToDate(g, once, body)
  {
    UnchangedIsUpToDate(g, Splice(g, raw, body, source).out, body, source);
    if Spliceable(g, raw) && !HasLine(Normalize(body), g.mk.close) { SpliceSettles(g, raw, body, source); }
  }

  /** So, unless two hashes collide: exactly when the file had a region or no BEGIN line, and the body has no END
      line. */
  lemma IdempotentIff(g: Generator, raw: string, body: string, source: string)
    requires SpaceFree(source) && NoClash(g, Splice(g, raw, body, source).out, body)
    ensures !Splice(g, Splice(g, raw, body, source).out, body, source).changed
            <==> Spliceable(g, raw) && !HasLine(Normalize(body), g.mk.close)
  {
    IdempotentExactly(g, raw, body, source);
    if HasLine(Normalize(body), g.mk.close) {
      EndLineNeverSettles(g, Splice(g, raw, body, source).out, body);
    } else if !Spliceable(g, raw) {
      OrphanNotUpToDate(g, raw, body, source);
    }
  }

  // ----- what an END line does to the file -----

  /** The hash tells the body from what is read back of it. */
  predicate CutShows(g: Generator, body: string)
    requires HasLine(body, g.mk.close)
  {
    HashContent(g, body[..AnchoredIndex(body, g.mk.close)]) != HashContent(g, body)
  }

  lemma BehindCut(p: string, x: string, tail: string, s: string)
    ensures (p + (x + tail) + s)[..|p|] == p
    ensures (p + (x + tail) + s)[|p| + |x|..] == tail + s
  {
  }

  lemma SurroundingsOfCut(g: Generator, p: string, body: string, source: string, s: string)
    requires OpenPrefix(g, p) && SpaceFree(source) && '\r' !in s && '\r' !in body && HasLine(body, g.mk.close)
    ensures var text := p + Block(g, body, source) + s;
            Before(g, text) == p && After(g, text) == LeftBehind(g, body) + s
  {
    var blk := CutFound(g, p, body, source, s);
    SurroundingsAre(g, p + Block(g, body, source) + s, blk);
    BehindBlock(g, p, body, source, s);
  }

  lemma CutFound(g: Generator, p: string, body: string, source: string, s: string) returns (blk: Found)
    requires OpenPrefix(g, p) && SpaceFree(source) && '\r' !in s && '\r' !in body && HasLine(body, g.mk.close)
    ensures var text := p + Block(g, body, source) + s;
            && '\r' !in text && blk.Region? && BlockIn(g, text) == blk
            && blk.start == |p| && blk.start <= blk.end <= |text|
    ensures blk.end == |p| + |Block(g, body, source)| - |LeftBehind(g, body)|
  {
    EndLineCutsRegion(g, p, body, source, s);
    blk := BlockIn(g, p + Block(g, body, source) + s);
  }

  lemma BehindBlock(g: Generator, p: string, body: string, source: string, s: string)
    requires HasLine(body, g.mk.close)
    ensures var text, end := p + Block(g, body, source) + s, |p| + |Block(g, body, source)| - |LeftBehind(g, body)|;
            |p| <= end <= |text| && text[..|p|] == p && text[end..] == LeftBehind(g, body) + s
  {
    var x := BlockHead(g, body, source);
    BehindCut(p, x, LeftBehind(g, body), s);
  }

  lemma BlockHead(g: Generator, body: string, source: string) returns (x: string)
    requires HasLine(body, g.mk.close)
    ensures Block(g, body, source) == x + LeftBehind(g, body)
  {
    BlockIsCut(g, body, source);
    x := CutRegion(g.mk, Note(HashContent(g, body), source), body[..AnchoredIndex(body, g.mk.close)]);
  }

  lemma CutUpToDate(g: Generator, p: string, body: string, source: string, s: string)
    requires OpenPrefix(g, p) && SpaceFree(source) && '\r' !in s && '\r' !in body && HasLine(body, g.mk.close)
    ensures UpToDate(g, p + Block(g, body, source) + s, body) <==> !CutShows(g, body)
  {
    EndLineCutsRegion(g, p, body, source, s);
  }

  /** Splicing the same body again over its own output: a change is reported exactly when the hashes tell, and then
      the tail of the old body stays behind as the user's text. */
  lemma EndLineRefresh(g: Generator, p: string, body: string, source: string, s: string)
    requires OpenPrefix(g, p) && SpaceFree(source) && '\r' !in s && '\r' !in body && HasLine(body, g.mk.close)
    ensures var r := Splice(g, p + Block(g, body, source) + s, body, source);
            && (r.changed <==> CutShows(g, body))
            && (r.changed ==> r.out == p + Block(g, body, source) + (LeftBehind(g, body) + s))
  {
    var text := p + Block(g, body, source) + s;
    CutUpToDate(g, p, body, source, s);
    UnchangedIsUpToDate(g, text, body, source);
    SpliceShape(g, text, body, source);
    SurroundingsOfCut(g, p, body, source, s);
  }

  /** After a first splice that wrote such a body, the second one grows the file exactly when the hashes tell. */
  lemma EndLineGrows(g: Generator, raw: string, body: string, source: string)
    requires Spliceable(g, raw) && SpaceFree(source) && '\r' !in body && HasLine(body, g.mk.close)
    requires Splice(g, raw, body, source).changed
    ensures var once := Splice(g, raw, body, source).out;
            var twice := Splice(g, once, body, source);
            && (twice.changed <==> CutShows(g, body))
            && (twice.changed ==> |twice.out| == |once| + |LeftBehind(g, body)| > |once|)
  {
    SpliceShape(g, raw, body, source);
    BeforeIsOpen(g, raw);
    EndLineRefresh(g, Before(g, raw), body, source, After(g, raw));
  }
}
