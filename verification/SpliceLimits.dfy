/** Where the laws of splicing end: the BEGIN line without an END line that breaks idempotence, and the
    guard in `splice` that no text reaches. */
module SpliceLimits {
  import opened Text
  import opened Newlines
  import opened AnchoredText
  import opened ManagedBlock
  import opened Splicing

  lemma {:induction false} HasLineNewlines(a: string, tail: string, m: string)
    requires m != [] && '\n' !in m && !HasLine(a, m) && AllIn(tail, NEWLINE)
    ensures !HasLine(a + tail, m)
  {
    if tail == [] {
      assert a + tail == a;
    } else {
      var rest := tail[..|tail| - 1];
      HasLineNewlines(a, rest, m);
      HasLineNewline(a + rest, m);
      assert a + tail == (a + rest) + "\n";
    }
  }

  // ----- a BEGIN line without an END line -----

  /** A line of a text without newlines at its end is still the first behind which others are put. */
  lemma LeadKeepsLine(existing: string, m: string)
    requires m != [] && '\n' !in m && HasLine(existing, m)
    ensures var i, p := AnchoredIndex(existing, m), Lead(existing);
            && TrimRight(existing, NEWLINE) != "" && i < |TrimRight(existing, NEWLINE)|
            && AnchoredIndex(p, m) == i && LineStart(p, |p|)
  {
    var t := TrimRight(existing, NEWLINE);
    var tail := TrimRightParts(existing, NEWLINE);
    if !HasLine(t, m) { HasLineNewlines(t, tail, m); }
    AnchoredPrefix(t, tail, m);
    AnchoredPrefix(t, "\n\n", m);
  }

  /** No more lines than before behind an offset, either. */
  lemma LeadAddsNoLine(existing: string, i: nat, m: string)
    requires m != [] && '\n' !in m && i < |TrimRight(existing, NEWLINE)| && !HasLine(existing[i..], m)
    ensures !HasLine(Lead(existing)[i..], m) && existing[..i] == Lead(existing)[..i]
  {
    var t := TrimRight(existing, NEWLINE);
    var tail := TrimRightParts(existing, NEWLINE);
    TailOf(t, tail, i);
    TailOf(t, "\n\n", i);
    HasLinePrefix(t[i..], tail, m);
    HasLineNewlines(t[i..], "\n\n", m);
  }

  lemma TailOf(t: string, tail: string, i: nat)
    requires i <= |t|
    ensures (t + tail)[i..] == t[i..] + tail && (t + tail)[..i] == t[..i]
  {
  }

  /** The opening marker that has no closing one is still the first after a splice. */
  lemma OrphanStaysFirst(mk: Markers, existing: string)
    requires mk.Valid() && FindSpan(mk, existing).NoSpan? && HasLine(existing, mk.open)
    ensures var i, p := AnchoredIndex(existing, mk.open), Lead(existing);
            && AnchoredIndex(p, mk.open) == i && i < |p| && LineStart(p, |p|)
            && existing[..i] == p[..i] && !HasLine(p[i..], mk.close)
  {
    LeadKeepsLine(existing, mk.open);
    LeadAddsNoLine(existing, AnchoredIndex(existing, mk.open), mk.close);
  }

  /** The first anchored line of a prefix is the first of the whole. */
  lemma AnchoredPrefix(a: string, b: string, m: string)
    requires m != [] && HasLine(a, m)
    ensures HasLine(a + b, m) && AnchoredIndex(a + b, m) == AnchoredIndex(a, m)
  {
    var j := AnchoredIndex(a, m);
    assert (a + b)[j..j + |m|] == a[j..j + |m|];
    AnchoredLeast(a + b, m, j);
    var i := AnchoredIndex(a + b, m);
    assert (a + b)[i..i + |m|] == a[i..i + |m|];
    AnchoredLeast(a, m, i);
  }

  /** The text that a splice makes behind an orphan BEGIN line, with the line endings of its body normalised. */
  lemma OrphanOnce(g: Generator, raw: string, body: string, source: string) returns (z: string)
    requires !Spliceable(g, raw) && SpaceFree(source)
    ensures '\r' !in z && TrimRight(z, NEWLINE) == TrimRight(Normalize(body), NEWLINE)
    ensures Normalize(Splice(g, raw, body, source).out)
         == Lead(Normalize(raw)) + Printed(g.mk, Note(HashContent(g, body), source), z) + "\n"
  {
    PlainSource(source);
    BlockInNormalized(g, raw);
    InsertShape(Normalize(raw), Block(g, body, source));
    LeadIsPlain(Normalize(raw));
    z := BlockNormalized(g, Lead(Normalize(raw)), body, source, "\n");
  }

  lemma LeadIsPlain(existing: string)
    requires '\r' !in existing
    ensures '\r' !in Lead(existing)
  {
    var tail := TrimRightParts(existing, NEWLINE);
  }

  /** The region found in such a text runs from the orphan to the new END line. */
  lemma OrphanFound(g: Generator, existing: string, note: string, body: string)
    requires '\r' !in existing && FindSpan(g.mk, existing).NoSpan? && HasLine(existing, g.mk.open)
    requires BodyOk(g, body) && '\n' !in note && '\r' !in note
    ensures var once := Lead(existing) + Printed(g.mk, note, body) + "\n";
            var blk := BlockIn(g, once);
            && '\r' !in once
            && blk.Region? && blk.end == |once| - 1
            && blk.start == AnchoredIndex(existing, g.mk.open) && blk.start < |Lead(existing)|
            && once[..blk.start] == existing[..blk.start]
  {
    var p, block := Lead(existing), Printed(g.mk, note, body);
    var once := p + block + "\n";
    var i := AnchoredIndex(existing, g.mk.open);
    OrphanStaysFirst(g.mk, existing);
    LeadIsPlain(existing);
    OrphanStarts(p, block, g.mk.open, i);
    OrphanEnd(g, p, i, note, body);
    FoundSpan(g.mk, once, i, |once| - 1 - |g.mk.close| - i);
  }

  lemma OrphanStarts(p: string, x: string, m: string, i: nat)
    requires m != [] && HasLine(p, m) && AnchoredIndex(p, m) == i
    ensures AnchoredIndex(p + x + "\n", m) == i && (p + x + "\n")[..i] == p[..i]
  {
    AnchoredPrefix(p, x + "\n", m);
    assert p + x + "\n" == p + (x + "\n");
  }

  lemma OrphanText(g: Generator, raw: string)
    requires !Spliceable(g, raw)
    ensures FindSpan(g.mk, Normalize(raw)).NoSpan? && HasLine(Normalize(raw), g.mk.open)
  {
  }

  lemma EndFree(g: Generator, z: string, body: string)
    requires '\r' !in z && TrimRight(z, NEWLINE) == TrimRight(body, NEWLINE) && !HasLine(body, g.mk.close)
    ensures BodyOk(g, z)
  {
    var tail := TrimRightParts(body, NEWLINE);
    var more := TrimRightParts(z, NEWLINE);
    HasLinePrefix(TrimRight(body, NEWLINE), tail, g.mk.close);
    HasLineNewlines(TrimRight(z, NEWLINE), more, g.mk.close);
  }

  /** After a splice behind an orphan BEGIN line, the region found runs from the orphan to the new END line. */
  lemma OrphanRegion(g: Generator, raw: string, body: string, source: string)
    requires !Spliceable(g, raw) && SpaceFree(source) && !HasLine(Normalize(body), g.mk.close)
    ensures var once := Normalize(Splice(g, raw, body, source).out);
            var blk := BlockIn(g, once);
            && blk.Region? && blk.end == |once| - 1 && once[|once| - 1..] == "\n"
            && blk.start == AnchoredIndex(Normalize(raw), g.mk.open)
            && once[..blk.start] == Normalize(raw)[..blk.start]
  {
    var z := OrphanOnce(g, raw, body, source);
    EndFree(g, z, Normalize(body));
    OrphanText(g, raw);
    PlainSource(source);
    NoteIsPlain(HashContent(g, body), source);
    OrphanFound(g, Normalize(raw), Note(HashContent(g, body), source), z);
    EndsLine(Lead(Normalize(raw)) + Printed(g.mk, Note(HashContent(g, body), source), z));
  }

  lemma EndsLine(x: string)
    ensures (x + "\n")[|x + "\n"| - 1..] == "\n"
  {
  }

  /** The first closing marker behind two stretches of text that hold none. */
  lemma CloseAfter(m: string, x: string, inner: string, s: string)
    requires m != [] && '\n' !in m
    requires LineStart(x, |x|) && !HasLine(x, m) && LineStart(inner, |inner|) && !HasLine(inner, m)
    ensures AnchoredIndex(x + (inner + (m + s)), m) == |x| + |inner|
  {
    StartsAnchored(m + s, m);
    AnchoredBeyond(inner, m + s, m);
    AnchoredBeyond(x, inner + (m + s), m);
  }

  /** The part of a printed region in front of its closing marker holds no other one. */
  lemma OpenPart(mk: Markers, note: string, body: string) returns (inner: string)
    requires mk.Valid() && '\n' !in note && !HasLine(body, mk.close)
    ensures Printed(mk, note, body) == inner + mk.close
    ensures LineStart(inner, |inner|) && !HasLine(inner, mk.close)
  {
    NoCloseInside(mk, mk.open + note, body);
    inner := mk.open + note + "\n" + body + "\n";
  }

  /** The closing marker that an orphan opening marker at `i` is paired with. */
  lemma OrphanEnd(g: Generator, p: string, i: nat, note: string, body: string)
    requires !HasLine(body, g.mk.close) && '\n' !in note
    requires i < |p| && LineStart(p, |p|) && !HasLine(p[i..], g.mk.close)
    ensures var once := p + Printed(g.mk, note, body) + "\n";
            AnchoredIndex(once[i..], g.mk.close) == |once| - 1 - |g.mk.close| - i
  {
    var inner := OpenPart(g.mk, note, body);
    CloseAfter(g.mk.close, p[i..], inner, "\n");
    FromInside(p, i, inner, g.mk.close, "\n");
  }

  lemma FromInside(p: string, i: nat, inner: string, m: string, s: string)
    requires i <= |p|
    ensures (p + (inner + m) + s)[i..] == p[i..] + (inner + (m + s))
    ensures |p + (inner + m) + s| == |p| + |inner| + |m| + |s|
  {
    assert p + (inner + m) + s == p + (inner + (m + s));
  }

  /** With an orphan BEGIN line the second splice, of this body or another, throws away the user's text from that line
      on, unless the orphan records the very hash being written and its region happens to hash to it. */
  lemma OrphanBeginSwallowsText(g: Generator, raw: string, b1: string, s1: string, b2: string, s2: string)
    requires !Spliceable(g, raw) && SpaceFree(s1) && SpaceFree(s2) && !HasLine(Normalize(b1), g.mk.close)
    requires !UpToDate(g, Splice(g, raw, b1, s1).out, b2)
    ensures var orphan := AnchoredIndex(Normalize(raw), g.mk.open);
            var twice := Splice(g, Splice(g, raw, b1, s1).out, b2, s2);
            twice.changed && twice.out == Normalize(raw)[..orphan] + Block(g, b2, s2) + "\n"
  {
    OrphanRegion(g, raw, b1, s1);
    var once := Splice(g, raw, b1, s1).out;
    UnchangedIsUpToDate(g, once, b2, s2);
    SpliceShape(g, once, b2, s2);
  }

  /** The body that the generator reads in the text does not collide with another one. */
  predicate NoClash(g: Generator, text: string, body: string) {
    var existing := Normalize(text);
    var blk := BlockIn(g, existing);
    blk.Region? && HashContent(g, CurrentBlockBody(g, existing, blk)) == HashContent(g, body)
    ==> CurrentBlockBody(g, existing, blk) == TrimRight(Normalize(body), NEWLINE)
  }

  /** The lines in front of a body make what is read longer than the body. */
  lemma LongerThanBody(y: string, body: string)
    requires y != [] && y[|y| - 1] != '\n'
    ensures |TrimRight(y + "\n" + body + "\n", NEWLINE)| > |TrimRight(body, NEWLINE)|
  {
    var t := TrimRight(body, NEWLINE);
    var tail := TrimRightParts(body, NEWLINE);
    if t == [] {
      TrimRightUnique(y, "\n" + tail + "\n", NEWLINE);
      assert y + "\n" + body + "\n" == y + ("\n" + tail + "\n");
    } else {
      TrimRightUnique(y + "\n" + t, tail + "\n", NEWLINE);
      assert y + "\n" + body + "\n" == (y + "\n" + t) + (tail + "\n");
    }
  }

  /** What is read in a region whose first line is the orphan's. */
  lemma OrphanBody(x: string, open: string, note: string, body: string, close: string)
    requires '\n' in x && note != [] && '\n' !in note
    ensures |RegionBody(x + (open + note + "\n" + body + "\n" + close), close)| > |TrimRight(body, NEWLINE)|
  {
    NoNewlineBefore(x);
    var k := Index(x, "\n");
    var head, rest := x[..k], x[k + 1..];
    assert x == head + "\n" + rest;
    SameRegion(head, rest, open, note, body, close);
    IndexOfChar(head, '\n', rest + open + note + "\n" + body + "\n" + close);
    AfterFirstLine(head, rest + open + note + "\n" + body + "\n" + close);
    var y := rest + open + note;
    DropsSuffix(y + "\n" + body + "\n", close);
    LongerThanBody(y, body);
  }

  lemma NoNewlineBefore(x: string)
    requires '\n' in x
    ensures var k := Index(x, "\n"); 0 <= k < |x| && x[k] == '\n' && '\n' !in x[..k]
  {
    IndexChar(x, '\n');
  }

  lemma SameRegion(head: string, rest: string, open: string, note: string, t: string, close: string)
    ensures (head + "\n" + rest) + (open + note + "\n" + t + "\n" + close)
         == head + "\n" + (rest + open + note + "\n" + t + "\n" + close)
  {
  }

  lemma OrphanNotUpToDate(g: Generator, raw: string, body: string, source: string)
    requires !Spliceable(g, raw) && SpaceFree(source) && !HasLine(Normalize(body), g.mk.close)
    requires NoClash(g, Splice(g, raw, body, source).out, body)
    ensures !UpToDate(g, Splice(g, raw, body, source).out, body)
  {
    var z := OrphanOnce(g, raw, body, source);
    EndFree(g, z, Normalize(body));
    OrphanText(g, raw);
    PlainSource(source);
    NoteIsPlain(HashContent(g, body), source);
    OrphanReads(g, Normalize(raw), Note(HashContent(g, body), source), z);
  }

  /** What is read in the region of an orphan is longer than the body that was printed. */
  lemma OrphanReads(g: Generator, existing: string, note: string, body: string)
    requires '\r' !in existing && FindSpan(g.mk, existing).NoSpan? && HasLine(existing, g.mk.open)
    requires BodyOk(g, body) && note != [] && '\n' !in note && '\r' !in note
    ensures var once := Lead(existing) + Printed(g.mk, note, body) + "\n";
            var blk := BlockIn(g, once);
            && '\r' !in once && blk.Region?
            && |CurrentBlockBody(g, once, blk)| > |TrimRight(body, NEWLINE)|
  {
    var p, block := Lead(existing), Printed(g.mk, note, body);
    OrphanFound(g, existing, note, body);
    var i := BlockIn(g, p + block + "\n").start;
    MiddleFrom(p, i, block);
    LeadEnds(existing, i);
    OrphanBody(p[i..], g.mk.open, note, body, g.mk.close);
  }

  lemma MiddleFrom(p: string, i: nat, x: string)
    requires i <= |p|
    ensures (p + x + "\n")[i..|p + x + "\n"| - 1] == p[i..] + x
  {
  }

  lemma LeadEnds(existing: string, i: nat)
    requires i < |Lead(existing)|
    ensures '\n' in Lead(existing)[i..]
  {
    var p := Lead(existing);
    assert p[i..][|p| - 1 - i] == p[|p| - 1];
  }

  // ----- the guard after the rewrite -----

  /** When replacing the region by the new block gives back the same bytes, the region was up to date
      and unedited already, so `splice` had returned before. */
  lemma IdenticalRewriteWasUpToDate(g: Generator, existing: string, body: string, source: string)
    requires '\r' !in existing && NoteTells(g, body, source) && BlockIn(g, existing).Region?
    requires var blk := BlockIn(g, existing);
             existing == existing[..blk.start] + Block(g, body, source) + existing[blk.end..]
    ensures var blk := BlockIn(g, existing);
            blk.hash == HashContent(g, body) && !BlockUserEdited(g, existing, blk)
  {
    var blk := BlockIn(g, existing);
    var p, s := existing[..blk.start], existing[blk.end..];
    BeforeIsOpen(g, existing);
    RewrittenBodyOk(g, existing, body, source);
    FindPrintedLine(g, p, body, source, s);
    HashIgnoresNewlines(g, body);
  }

  lemma NoCloseBeforeFirst(m: string, inner: string, suffix: string)
    requires m != [] && '\n' !in m && LineStart(inner, |inner|)
    requires AnchoredIndex(inner + (m + suffix), m) == |inner|
    ensures !HasLine(inner, m)
  {
    if HasLine(inner, m) { AnchoredInPrefix(inner, m + suffix, m); }
  }

  lemma NoCloseInTail(m: string, head: string, x: string)
    requires m != [] && '\n' !in m && LineStart(head, |head|) && !HasLine(head + x, m)
    ensures !HasLine(x, m)
  {
    if HasLine(x, m) {
      var i := AnchoredIndex(x, m);
      AnchoredAfter(head, x, m, |head| + i);
      AnchoredLeast(head + x, m, |head| + i);
    }
  }

  lemma BlockParts(g: Generator, body: string, source: string)
    ensures var head := g.mk.open + Note(HashContent(g, body), source) + "\n";
            var t := TrimRight(body, NEWLINE);
            && Block(g, body, source) == head + (t + "\n") + g.mk.close
            && Block(g, body, source) == head + (t + ("\n" + g.mk.close))
  {
  }

  lemma BodyOkFromParts(g: Generator, head: string, body: string)
    requires LineStart(head, |head|) && !HasLine(head + (TrimRight(body, NEWLINE) + "\n"), g.mk.close)
    requires '\r' !in TrimRight(body, NEWLINE)
    ensures BodyOk(g, body)
  {
    var t := TrimRight(body, NEWLINE);
    var tail := TrimRightParts(body, NEWLINE);
    NoCloseInTail(g.mk.close, head, t + "\n");
    HasLinePrefix(t, "\n", g.mk.close);
    HasLineNewlines(t, tail, g.mk.close);
  }

  lemma RewrittenBodyOk(g: Generator, existing: string, body: string, source: string)
    requires '\r' !in existing && '\n' !in source && '\r' !in source && BlockIn(g, existing).Region?
    requires var blk := BlockIn(g, existing);
             existing == existing[..blk.start] + Block(g, body, source) + existing[blk.end..]
    ensures BodyOk(g, body)
  {
    var blk := BlockIn(g, existing);
    var t := TrimRight(body, NEWLINE);
    var head := g.mk.open + Note(HashContent(g, body), source) + "\n";
    BlockParts(g, body, source);
    NoCloseInRewritten(g, existing, head + (t + "\n"));
    CarriageReturns(existing, blk.start, head, t, "\n" + g.mk.close, existing[blk.end..]);
    BodyOkFromParts(g, head, body);
  }

  lemma Rewritten(existing: string, start: nat, end: nat, inner: string, m: string)
    requires start <= end <= |existing|
    requires existing == existing[..start] + (inner + m) + existing[end..]
    ensures existing[start..] == inner + (m + existing[end..])
    ensures end - start == |inner| + |m|
  {
    assert existing[start..] == (inner + m) + existing[end..];
  }

  lemma NoCloseInRewritten(g: Generator, existing: string, inner: string)
    requires '\r' !in existing && BlockIn(g, existing).Region? && LineStart(inner, |inner|)
    requires var blk := BlockIn(g, existing);
             existing == existing[..blk.start] + (inner + g.mk.close) + existing[blk.end..]
    ensures !HasLine(inner, g.mk.close)
  {
    var blk := BlockIn(g, existing);
    Rewritten(existing, blk.start, blk.end, inner, g.mk.close);
    NoCloseBeforeFirst(g.mk.close, inner, existing[blk.end..]);
  }

  lemma CarriageReturns(existing: string, start: nat, head: string, t: string, rest: string, suffix: string)
    requires '\r' !in existing && start <= |existing|
    requires existing == existing[..start] + (head + (t + rest)) + suffix
    ensures '\r' !in t
  {
    forall i | 0 <= i < |t| ensures t[i] != '\r' {
      assert t[i] == existing[start + |head| + i];
    }
  }

  /** `splice` gets to the guard after the rewrite with a rewrite that is byte-identical. */
  predicate ReachesGuard(g: Generator, raw: string, body: string, source: string) {
    var existing := Normalize(raw);
    var blk := BlockIn(g, existing);
    && blk.Region? && !UpToDate(g, raw, body)
    && existing[..blk.start] + Block(g, body, source) + existing[blk.end..] == existing
  }

  /** As long as the BEGIN line tells its hash, no text reaches the guard: whenever `splice` rewrites, the file
      differs. */
  lemma GuardUnreachable(g: Generator, raw: string, body: string, source: string)
    requires NoteTells(g, body, source)
    ensures !ReachesGuard(g, raw, body, source)
  {
    var existing := Normalize(raw);
    if ReachesGuard(g, raw, body, source) {
      BlockInNormalized(g, raw);
      IdenticalRewriteWasUpToDate(g, existing, body, source);
    }
  }

  /** Otherwise a file that holds nothing but the region reaches it. */
  lemma GuardReached(g: Generator, body: string, source: string)
    requires BodyOk(g, body) && '\n' !in source && '\r' !in source && !NoteTells(g, body, source)
    ensures ReachesGuard(g, Block(g, body, source) + "\n", body, source)
  {
    var text := Block(g, body, source) + "\n";
    assert "" + Block(g, body, source) + "\n" == text;
    FindPrintedLine(g, "", body, source, "\n");
    Around("", Block(g, body, source), "\n");
    assert text == "" + Block(g, body, source) + "\n";
  }

  lemma ReachedBodyOk(g: Generator, raw: string, body: string, source: string)
    requires ReachesGuard(g, raw, body, source) && '\n' !in source && '\r' !in source
    ensures BodyOk(g, body)
  {
    BlockInNormalized(g, raw);
    RewrittenBodyOk(g, Normalize(raw), body, source);
  }

  /** For a source of one line: the guard is reached by no text exactly when the BEGIN line tells its hash, or the body
      has a carriage return or an END line. */
  lemma GuardUnreachableExactly(g: Generator, body: string, source: string)
    requires '\n' !in source && '\r' !in source
    ensures (forall raw :: !ReachesGuard(g, raw, body, source)) <==> NoteTells(g, body, source) || !BodyOk(g, body)
  {
    if NoteTells(g, body, source) || !BodyOk(g, body) {
      forall raw ensures !ReachesGuard(g, raw, body, source) {
        if NoteTells(g, body, source) { GuardUnreachable(g, raw, body, source); }
        if ReachesGuard(g, raw, body, source) { ReachedBodyOk(g, raw, body, source); }
      }
    } else {
      GuardReached(g, body, source);
    }
  }

  /** A splice reports no change exactly when the text is up to date. */
  lemma UnchangedExactly(g: Generator, raw: string, body: string, source: string)
    requires NoteTells(g, body, source)
    ensures !Splice(g, raw, body, source).changed <==> UpToDate(g, raw, body)
  {
    BlockInNormalized(g, raw);
    GuardUnreachable(g, raw, body, source);
  }

  lemma UnchangedIsUpToDate(g: Generator, raw: string, body: string, source: string)
    requires SpaceFree(source)
    ensures !Splice(g, raw, body, source).changed <==> UpToDate(g, raw, body)
  {
    SpaceFreeTells(g, body, source);
    UnchangedExactly(g, raw, body, source);
  }
}
