/** Bodies with a line that begins with the END marker, which the generator of
    `cli/internal/skillgen/skillgen.go` cannot read back. */
module EndLines {
  import opened Text
  import opened AnchoredText
  import opened ManagedBlock
  import opened Splicing

  lemma CutRegionBody(mk: Markers, note: string, t: string)
    requires mk.Valid() && '\n' !in note
    ensures RegionBody(mk.open + note + "\n" + t + mk.close, mk.close) == TrimRight(t, NEWLINE)
  {
    Reassociated(mk.open + note + "\n", t, mk.close);
    IndexOfChar(mk.open + note, '\n', t + mk.close);
    AfterFirstLine(mk.open + note, t + mk.close);
    DropsSuffix(t, mk.close);
  }

  // ----- where the body is cut -----

  /** A line that lies in a prefix is the first one there too. */
  lemma LineStays(t: string, x: string, m: string)
    requires m != [] && HasLine(t + x, m) && AnchoredIndex(t + x, m) + |m| <= |t|
    ensures AnchoredIndex(t, m) == AnchoredIndex(t + x, m)
  {
    var i := AnchoredIndex(t + x, m);
    assert t[i..i + |m|] == (t + x)[i..i + |m|];
    AnchoredLeast(t, m, i);
    var j := AnchoredIndex(t, m);
    assert t[j..j + |m|] == (t + x)[j..j + |m|];
    AnchoredLeast(t + x, m, j);
  }

  /** A marker holds no newline, so newlines behind a text do not matter. */
  lemma NewlinesAside(t: string, tail: string, m: string)
    requires m != [] && '\n' !in m && AllIn(tail, NEWLINE) && HasLine(t + tail, m)
    ensures AnchoredIndex(t, m) == AnchoredIndex(t + tail, m)
  {
    var i := AnchoredIndex(t + tail, m);
    assert (t + tail)[i..i + |m|][|m| - 1] == (t + tail)[i + |m| - 1];
    LineStays(t, tail, m);
  }

  lemma TrimKeepsLine(body: string, m: string)
    requires m != [] && '\n' !in m && HasLine(body, m)
    ensures var t := TrimRight(body, NEWLINE);
            AnchoredIndex(t, m) == AnchoredIndex(body, m) && t[..AnchoredIndex(t, m)] == body[..AnchoredIndex(t, m)]
  {
    var t := TrimRight(body, NEWLINE);
    var tail := TrimRightParts(body, NEWLINE);
    NewlinesAside(t, tail, m);
    assert (t + tail)[..|t|] == t;
  }

  function CutRegion(mk: Markers, note: string, kept: string): string {
    mk.open + note + "\n" + kept + mk.close
  }

  lemma ClosesEarly(t: string, m: string, suffix: string)
    requires m != [] && '\n' !in m && HasLine(t, m)
    ensures AnchoredIndex(t + "\n" + (m + suffix), m) == AnchoredIndex(t, m)
  {
    var i := AnchoredIndex(t, m);
    assert (t + "\n")[i..i + |m|] == t[i..i + |m|];
    AnchoredLeast(t + "\n", m, i);
    NewlinesAside(t, "\n", m);
    AnchoredInPrefix(t + "\n", m + suffix, m);
  }

  lemma ClosesInTail(mk: Markers, line: string, t: string, s: string)
    requires mk.Valid() && mk.open <= line && '\n' !in line && HasLine(t, mk.close)
    ensures AnchoredIndex(line + "\n" + (t + "\n" + (mk.close + s)), mk.close)
         == |line| + 1 + AnchoredIndex(t, mk.close)
  {
    ClosesEarly(t, mk.close, s);
    ClosesBehind(mk, line, t + "\n" + (mk.close + s));
  }

  lemma ClosesTailEarly(mk: Markers, tail: string, note: string, t: string, s: string) returns (length: nat)
    requires mk.Valid() && '\n' !in note && HasLine(t, mk.close)
    requires tail == mk.open + note + "\n" + (t + "\n" + (mk.close + s))
    ensures AnchoredIndex(tail, mk.close) == length && length == |mk.open| + |note| + 1 + AnchoredIndex(t, mk.close)
  {
    ClosesInTail(mk, mk.open + note, t, s);
    length := |mk.open| + |note| + 1 + AnchoredIndex(t, mk.close);
  }

  lemma CutTailSpan(mk: Markers, p: string, tail: string, note: string, t: string, s: string)
    requires mk.Valid() && LineStart(p, |p|) && !HasLine(p, mk.open) && '\n' !in note && HasLine(t, mk.close)
    requires tail == mk.open + note + "\n" + (t + "\n" + (mk.close + s))
    ensures FindSpan(mk, p + tail)
         == Span(|p|, note, |p| + (|mk.open| + |note| + 1 + AnchoredIndex(t, mk.close)) + |mk.close|)
  {
    var length := ClosesTailEarly(mk, tail, note, t, s);
    TailSpan(mk, p, tail, note, t + "\n" + (mk.close + s), length);
  }

  /** The region found in a printed one whose body holds a closing marker. */
  lemma CutSpanOf(mk: Markers, p: string, note: string, t: string, s: string)
    requires mk.Valid() && LineStart(p, |p|) && !HasLine(p, mk.open) && '\n' !in note && HasLine(t, mk.close)
    ensures FindSpan(mk, p + Printed(mk, note, t) + s)
         == Span(|p|, note, |p| + |CutRegion(mk, note, t[..AnchoredIndex(t, mk.close)])|)
  {
    PrintedIsTail(mk, note, t, s);
    Reassociated(p, Printed(mk, note, t), s);
    CutTailSpan(mk, p, Printed(mk, note, t) + s, note, t, s);
  }

  /** That region begins what was printed. */
  lemma CutRegionStarts(mk: Markers, note: string, t: string)
    requires mk.Valid() && HasLine(t, mk.close)
    ensures CutRegion(mk, note, t[..AnchoredIndex(t, mk.close)]) <= Printed(mk, note, t)
  {
    var i := AnchoredIndex(t, mk.close);
    assert t == t[..i] + mk.close + t[i + |mk.close|..];
    CutRegionIsPrefix(mk, note, t[..i], t[i + |mk.close|..]);
  }

  lemma CutRegionIsPrefix(mk: Markers, note: string, kept: string, more: string)
    ensures CutRegion(mk, note, kept) <= Printed(mk, note, kept + mk.close + more)
  {
    assert Printed(mk, note, kept + mk.close + more) == CutRegion(mk, note, kept) + (more + "\n" + mk.close);
  }

  lemma SliceOfPrefix(p: string, x: string, y: string, s: string)
    requires x <= y
    ensures |p| + |x| <= |p + y + s| && (p + y + s)[|p|..|p| + |x|] == x
  {
  }

  lemma ReadsCut(g: Generator, text: string, blk: Found, note: string, kept: string)
    requires blk.Region? && blk.start <= blk.end <= |text| && '\n' !in note
    requires text[blk.start..blk.end] == CutRegion(g.mk, note, kept)
    ensures CurrentBlockBody(g, text, blk) == TrimRight(kept, NEWLINE)
  {
    CutRegionBody(g.mk, note, kept);
  }

  lemma CutStands(mk: Markers, p: string, note: string, t: string, s: string)
    requires mk.Valid() && HasLine(t, mk.close)
    ensures var region := CutRegion(mk, note, t[..AnchoredIndex(t, mk.close)]);
            var text := p + Printed(mk, note, t) + s;
            |p| + |region| <= |text| && text[|p|..|p| + |region|] == region
  {
    CutRegionStarts(mk, note, t);
    SliceOfPrefix(p, CutRegion(mk, note, t[..AnchoredIndex(t, mk.close)]), Printed(mk, note, t), s);
  }

  lemma CutIsRead(g: Generator, p: string, note: string, t: string, s: string, blk: Found)
    requires HasLine(t, g.mk.close) && '\n' !in note && blk.Region? && blk.start == |p|
    requires blk.end == |p| + |CutRegion(g.mk, note, t[..AnchoredIndex(t, g.mk.close)])|
    ensures blk.end <= |p + Printed(g.mk, note, t) + s|
    ensures CurrentBlockBody(g, p + Printed(g.mk, note, t) + s, blk)
         == TrimRight(t[..AnchoredIndex(t, g.mk.close)], NEWLINE)
  {
    CutStands(g.mk, p, note, t, s);
    ReadsCut(g, p + Printed(g.mk, note, t) + s, blk, note, t[..AnchoredIndex(t, g.mk.close)]);
  }

  lemma CutIsFound(g: Generator, text: string, blk: Found)
    requires blk.Region? && IsShortHash(blk.hash) && SpaceFree(blk.source) && '\r' !in text
    requires FindSpan(g.mk, text) == Span(blk.start, Note(blk.hash, blk.source), blk.end)
    ensures BlockIn(g, text) == blk
  {
    HashIsPlain(blk.hash);
    ParsePrintedMeta(blk.hash, blk.source);
    BlockInIs(g, text, Span(blk.start, Note(blk.hash, blk.source), blk.end), Meta(blk.hash, blk.source));
  }

  /** What stays of a printed body behind the cut. */
  function CutTail(mk: Markers, body: string): string
    requires mk.Valid() && HasLine(body, mk.close)
  {
    TrimKeepsLine(body, mk.close);
    TrimRight(body, NEWLINE)[AnchoredIndex(body, mk.close) + |mk.close|..] + "\n" + mk.close
  }

  function LeftBehind(g: Generator, body: string): string
    requires HasLine(body, g.mk.close)
  {
    CutTail(g.mk, body)
  }

  lemma PrintedIsCut(mk: Markers, note: string, body: string)
    requires mk.Valid() && HasLine(body, mk.close)
    ensures Printed(mk, note, TrimRight(body, NEWLINE))
         == CutRegion(mk, note, body[..AnchoredIndex(body, mk.close)]) + CutTail(mk, body)
  {
    TrimKeepsLine(body, mk.close);
    CutPrinted(mk, note, TrimRight(body, NEWLINE), AnchoredIndex(body, mk.close));
  }

  lemma BlockIsCut(g: Generator, body: string, source: string)
    requires HasLine(body, g.mk.close)
    ensures Block(g, body, source)
         == CutRegion(g.mk, Note(HashContent(g, body), source), body[..AnchoredIndex(body, g.mk.close)])
            + LeftBehind(g, body)
  {
    PrintedIsCut(g.mk, Note(HashContent(g, body), source), body);
  }

  lemma CutPrinted(mk: Markers, note: string, t: string, i: int)
    requires At(t, mk.close, i)
    ensures Printed(mk, note, t) == CutRegion(mk, note, t[..i]) + (t[i + |mk.close|..] + "\n" + mk.close)
  {
    assert t == t[..i] + mk.close + t[i + |mk.close|..];
  }

  lemma EditedIs(g: Generator, text: string, blk: Found, kept: string)
    requires blk.Region? && blk.start <= blk.end <= |text| && IsShortHash(blk.hash) && '\r' !in kept
    requires CurrentBlockBody(g, text, blk) == TrimRight(kept, NEWLINE)
    ensures BlockUserEdited(g, text, blk) <==> HashContent(g, kept) != blk.hash
  {
    HashIgnoresNewlines(g, kept);
  }

  /** A body with a line that begins with the END marker is cut there when it is read back, so the
      generator takes its own output for a user edit unless the two hashes collide. */
  lemma EndLineCutsRegion(g: Generator, p: string, body: string, source: string, s: string)
    requires OpenPrefix(g, p) && SpaceFree(source) && '\r' !in s && '\r' !in body && HasLine(body, g.mk.close)
    ensures var text := p + Block(g, body, source) + s;
            var kept := body[..AnchoredIndex(body, g.mk.close)];
            var blk := BlockIn(g, text);
            && '\r' !in text
            && blk.Region? && blk.start == |p| && blk.hash == HashContent(g, body)
            && blk.end == |p| + |Block(g, body, source)| - |LeftBehind(g, body)| <= |text|
            && CurrentBlockBody(g, text, blk) == TrimRight(kept, NEWLINE)
            && (BlockUserEdited(g, text, blk) <==> HashContent(g, kept) != HashContent(g, body))
  {
    var text, t := p + Block(g, body, source) + s, TrimRight(body, NEWLINE);
    var note := Note(HashContent(g, body), source);
    NoteIsPlain(HashContent(g, body), source);
    PrintedIsPlain(g, body, source);
    TrimKeepsLine(body, g.mk.close);
    var end := |p| + |CutRegion(g.mk, note, t[..AnchoredIndex(t, g.mk.close)])|;
    var blk := Region(HashContent(g, body), source, |p|, end);
    CutSpanOf(g.mk, p, note, t, s);
    CutIsFound(g, text, blk);
    CutIsRead(g, p, note, t, s, blk);
    BlockIsCut(g, body, source);
    EditedIs(g, text, blk, body[..AnchoredIndex(body, g.mk.close)]);
  }
}
