/** Splicing the managed region into a file, `splice` in `cli/internal/skillgen/skillgen.go`. */
module Splicing {
  import opened Text
  import opened Newlines
  import opened AnchoredText
  import opened ManagedBlock

  datatype SpliceResult = SpliceResult(out: string, changed: bool, created: bool, userEdits: bool)

  /** The recorded hash proves that somebody edited the body. */
  predicate BlockUserEdited(g: Generator, existing: string, blk: Found)
    requires blk.Region? && blk.start <= blk.end <= |existing|
  {
    IsShortHash(blk.hash) && HashContent(g, CurrentBlockBody(g, existing, blk)) != blk.hash
  }

  /** The file after a new region is put at its end, behind a blank line. */
  function Insert(existing: string, newBlock: string): string {
    var trimmed := TrimRight(existing, NEWLINE);
    if trimmed == "" then newBlock + "\n" else trimmed + "\n\n" + newBlock + "\n"
  }

  function Splice(g: Generator, raw: string, body: string, source: string): SpliceResult {
    var existing := Normalize(raw);
    var newBlock := Block(g, body, source);
    var blk := BlockIn(g, existing);
    if blk.NoBlock? then SpliceResult(Insert(existing, newBlock), true, true, false)
    else
      var userEdited := BlockUserEdited(g, existing, blk);
      if blk.hash == HashContent(g, body) && !userEdited then SpliceResult(existing, false, false, false)
      else
        var out := existing[..blk.start] + newBlock + existing[blk.end..];
        if out == existing then SpliceResult(existing, false, false, userEdited)
        else SpliceResult(out, true, false, userEdited)
  }

  /** The text has a region that records the hash of `body` and has not been edited. */
  predicate UpToDate(g: Generator, raw: string, body: string) {
    var existing := Normalize(raw);
    var blk := BlockIn(g, existing);
    blk.Region? && blk.hash == HashContent(g, body) && !BlockUserEdited(g, existing, blk)
  }

  // ----- what is kept around the region -----

  /** The text has a region, or at least nothing that could be mistaken for the start of one. */
  predicate Spliceable(g: Generator, raw: string) {
    BlockIn(g, raw).Region? || !HasLine(Normalize(raw), g.mk.open)
  }

  /** The user's text in front of the region, as the first splice leaves it. */
  function Before(g: Generator, raw: string): string {
    var existing := Normalize(raw);
    match BlockIn(g, existing)
    case Region(_, _, start, _) => existing[..start]
    case NoBlock => Lead(existing)
  }

  function Lead(existing: string): string {
    var trimmed := TrimRight(existing, NEWLINE);
    if trimmed == "" then "" else trimmed + "\n\n"
  }

  lemma InsertShape(existing: string, newBlock: string)
    ensures Insert(existing, newBlock) == Lead(existing) + newBlock + "\n"
  {
    assert "" + newBlock + "\n" == newBlock + "\n";
  }

  /** The user's text behind the region, as the first splice leaves it. */
  function After(g: Generator, raw: string): string {
    var existing := Normalize(raw);
    match BlockIn(g, existing)
    case Region(_, _, _, end) => existing[end..]
    case NoBlock => "\n"
  }

  lemma NormalizeTwice(raw: string)
    ensures Normalize(Normalize(raw)) == Normalize(raw)
  {
  }

  lemma BlockInNormalized(g: Generator, raw: string)
    ensures BlockIn(g, Normalize(raw)) == BlockIn(g, raw)
  {
    NormalizeTwice(raw);
  }

  /** What precedes the first anchored marker has none. */
  lemma NothingBeforeFirst(s: string, m: string)
    requires m != [] && HasLine(s, m)
    ensures var p := s[..AnchoredIndex(s, m)]; LineStart(p, |p|) && !HasLine(p, m)
  {
    var i := AnchoredIndex(s, m);
    var p := s[..i];
    if HasLine(p, m) {
      var j := AnchoredIndex(p, m);
      assert s[j..j + |m|] == p[j..j + |m|];
      AnchoredLeast(s, m, j);
    }
  }

  lemma BeforeIsOpen(g: Generator, raw: string)
    requires Spliceable(g, raw)
    ensures OpenPrefix(g, Before(g, raw)) && '\r' !in After(g, raw)
  {
    var existing := Normalize(raw);
    BlockInNormalized(g, raw);
    if BlockIn(g, existing).Region? {
      NothingBeforeFirst(existing, g.mk.open);
    } else {
      var tail := TrimRightParts(existing, NEWLINE);
      var trimmed := TrimRight(existing, NEWLINE);
      HasLinePrefix(trimmed, tail, g.mk.open);
      HasLineNewline(trimmed, g.mk.open);
      HasLineNewline(trimmed + "\n", g.mk.open);
      assert trimmed + "\n" + "\n" == trimmed + "\n\n";
    }
  }

  // ----- what splicing guarantees -----

  lemma InsertDiffers(existing: string, newBlock: string)
    requires newBlock != [] && newBlock[0] != '\n'
    ensures Insert(existing, newBlock) != existing
  {
    InsertShape(existing, newBlock);
    var tail := TrimRightParts(existing, NEWLINE);
    var trimmed := TrimRight(existing, NEWLINE);
    var i := |Lead(existing)|;
    assert (Lead(existing) + newBlock + "\n")[i] == newBlock[0];
    if i < |existing| { assert existing[i] == tail[i - |trimmed|]; }
  }

  /** `changed` is exact, for every input. */
  lemma ChangedIsExact(g: Generator, raw: string, body: string, source: string)
    ensures var r := Splice(g, raw, body, source);
            r.changed <==> r.out != Normalize(raw)
  {
    var newBlock := Block(g, body, source);
    assert newBlock[0] == g.mk.open[0];
    InsertDiffers(Normalize(raw), newBlock);
  }

  /** A splice that reports a change leaves the user's surroundings with the printed region in between;
      one that does not leaves the normalised text. */
  lemma SpliceShape(g: Generator, raw: string, body: string, source: string)
    ensures var r := Splice(g, raw, body, source);
            r.out == if r.changed then Before(g, raw) + Block(g, body, source) + After(g, raw) else Normalize(raw)
  {
    InsertShape(Normalize(raw), Block(g, body, source));
  }

  /** Between plain texts, a printed region is read with its body's line endings normalised. */
  lemma BlockNormalized(g: Generator, p: string, body: string, source: string, s: string) returns (z: string)
    requires '\r' !in p && '\r' !in s && '\n' !in source && '\r' !in source
    ensures '\r' !in z && TrimRight(z, NEWLINE) == TrimRight(Normalize(body), NEWLINE)
    ensures Normalize(p + Block(g, body, source) + s) == p + Printed(g.mk, Note(HashContent(g, body), source), z) + s
  {
    NoteIsPlain(HashContent(g, body), source);
    TrimBeforeNormalizing(body);
    z := PrintedNormalized(g.mk, p, Note(HashContent(g, body), source), TrimRight(body, NEWLINE), s);
  }

  /** The same for a region printed with any one-line note. */
  lemma PrintedNormalized(mk: Markers, p: string, note: string, t: string, s: string) returns (z: string)
    requires mk.Valid() && '\r' !in p && '\r' !in s && '\r' !in note
    ensures '\r' !in z && TrimRight(z, NEWLINE) == TrimRight(Normalize(t), NEWLINE)
    ensures Normalize(p + Printed(mk, note, t) + s) == p + Printed(mk, note, z) + s
  {
    z := NormalizeClosed(t);
    BlockAround(mk, p, note, t, s);
    BlockAround(mk, p, note, z, s);
    NormalizeBetween(p + (mk.open + note + "\n"), t + "\n", mk.close + s);
  }

  lemma BlockAround(mk: Markers, p: string, note: string, t: string, s: string)
    ensures p + Printed(mk, note, t) + s == p + (mk.open + note + "\n") + ((t + "\n") + (mk.close + s))
  {
  }

  /** Trailing newlines do not change the hash, whatever the line endings. */
  lemma HashIgnoresNewlines(g: Generator, body: string)
    ensures HashContent(g, TrimRight(body, NEWLINE)) == HashContent(g, body)
  {
    TrimBeforeNormalizing(body);
  }

  /** The text holds exactly the printed region for `body` between `p` and `s`. */
  ghost predicate Manages(g: Generator, text: string, p: string, body: string, source: string, s: string) {
    && OpenPrefix(g, p) && BodyOk(g, body) && SpaceFree(source) && '\r' !in s
    && text == p + Block(g, body, source) + s
  }

  /** What the generator knows about a text it has written. */
  lemma ManagedState(g: Generator, text: string, p: string, body: string, source: string, s: string)
    requires Manages(g, text, p, body, source, s)
    ensures Normalize(text) == text && Spliceable(g, text)
    ensures var blk := BlockIn(g, text);
            && blk == Region(HashContent(g, body), source, |p|, |p| + |Block(g, body, source)|)
            && blk.end <= |text|
            && CurrentBlockBody(g, text, blk) == TrimRight(body, NEWLINE)
            && !BlockUserEdited(g, text, blk)
    ensures Before(g, text) == p && After(g, text) == s
  {
    FindPrintedBlock(g, p, body, source, s);
    HashIgnoresNewlines(g, body);
    SurroundingsAre(g, text, BlockIn(g, text));
    Around(p, Block(g, body, source), s);
  }

  lemma SurroundingsAre(g: Generator, text: string, blk: Found)
    requires '\r' !in text && blk.Region? && BlockIn(g, text) == blk && blk.start <= blk.end <= |text|
    ensures Before(g, text) == text[..blk.start] && After(g, text) == text[blk.end..]
  {
  }

  lemma Around(p: string, x: string, s: string)
    ensures (p + x + s)[..|p|] == p && (p + x + s)[|p| + |x|..] == s
  {
  }

  /** A first splice puts the region at the end, behind the text and a blank line. */
  lemma FirstSpliceAppends(g: Generator, raw: string, body: string, source: string)
    requires BlockIn(g, raw).NoBlock?
    ensures var text, block := TrimRight(Normalize(raw), NEWLINE), Block(g, body, source);
            && Splice(g, raw, body, source).changed
            && Splice(g, raw, body, source).out
               == if text == "" then block + "\n" else text + "\n" + "\n" + block + "\n"
  {
    BlockInNormalized(g, raw);
    var text := TrimRight(Normalize(raw), NEWLINE);
    assert text + "\n" + "\n" == text + "\n\n";
  }

  lemma SpliceManages(g: Generator, raw: string, body: string, source: string)
    requires Spliceable(g, raw) && BodyOk(g, body) && SpaceFree(source)
    requires Splice(g, raw, body, source).changed
    ensures Manages(g, Splice(g, raw, body, source).out, Before(g, raw), body, source, After(g, raw))
  {
    SpliceShape(g, raw, body, source);
    BeforeIsOpen(g, raw);
  }

  /** Splicing into a text the generator has written: skipped exactly when the hashes agree, otherwise
      only the region is replaced; never taken for a user edit. */
  lemma SpliceIntoManaged(g: Generator, text: string, p: string, b1: string, s1: string, s: string,
                          b2: string, s2: string)
    requires Manages(g, text, p, b1, s1, s) && BodyOk(g, b2) && SpaceFree(s2)
    ensures Splice(g, text, b2, s2)
         == if HashContent(g, b1) == HashContent(g, b2) then SpliceResult(text, false, false, false)
            else SpliceResult(p + Block(g, b2, s2) + s, true, false, false)
  {
    ManagedState(g, text, p, b1, s1, s);
    var out := p + Block(g, b2, s2) + s;
    ManagedState(g, out, p, b2, s2, s);
  }

  /** Repeating a splice changes nothing. */
  lemma SpliceIdempotent(g: Generator, raw: string, body: string, source: string)
    requires Spliceable(g, raw) && BodyOk(g, body) && SpaceFree(source)
    ensures var once := Splice(g, raw, body, source).out;
            var twice := Splice(g, once, body, source);
            !twice.changed && twice.out == once
  {
    var r := Splice(g, raw, body, source);
    if r.changed {
      SpliceManages(g, raw, body, source);
      SpliceIntoManaged(g, r.out, Before(g, raw), body, source, After(g, raw), body, source);
    } else {
      SpliceShape(g, raw, body, source);
      NormalizeTwice(raw);
    }
  }

  /** How an editor saved the line endings makes no difference. */
  lemma SpliceIgnoresCRLF(g: Generator, text: string, body: string, source: string)
    requires '\r' !in text
    ensures Splice(g, WithCRLF(text), body, source) == Splice(g, text, body, source)
  {
    NormalizeWithCRLF(text);
  }
}
