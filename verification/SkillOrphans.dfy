/** What applying a skill does to a shared file with a BEGIN line that has no END line, `Apply` in
    `cli/internal/skillgen/apply.go`. */
module SkillOrphans {
  import opened Text
  import opened Newlines
  import opened AnchoredText
  import opened ManagedBlock
  import opened Splicing
  import opened SpliceLimits
  import opened SkillRender
  import opened SkillApply
  import opened SkillRuns

  // ----- the orphan's line -----

  /** What follows the marker on the first line that begins with it. */
  function OrphanNote(s: string, m: string): string
    requires m != [] && '\n' !in m && HasLine(s, m)
  {
    var i := AnchoredIndex(s, m);
    MarkerWithinLine(s, m, i);
    s[i + |m|..LineEnd(s, i)]
  }

  lemma FirstNewlineStays(a: string, x: string)
    requires '\n' in a
    ensures 0 <= Index(a + x, "\n") == Index(a, "\n")
  {
    IndexChar(a, '\n');
    IndexChar(a + x, '\n');
    var i, j := Index(a, "\n"), Index(a + x, "\n");
    AtChar(a + x, '\n', i);
    IndexLeast(a + x, "\n", i);
    AtChar(a, '\n', j);
    IndexLeast(a, "\n", j);
  }

  /** A line of a text stays as it is when more lines are put behind. */
  lemma LineStands(t: string, x: string, i: nat)
    requires i <= |t| && (x != "" ==> x[0] == '\n')
    ensures LineEnd(t + x, i) == LineEnd(t, i)
  {
    TailOf(t, x, i);
    EndStands(t[i..], x);
  }

  lemma EndStands(a: string, x: string)
    requires x != "" ==> x[0] == '\n'
    ensures LineEnd(a + x, 0) == LineEnd(a, 0)
  {
    assert (a + x)[0..] == a + x && a[0..] == a;
    if '\n' in a {
      FirstNewlineStays(a, x);
    } else {
      IndexAbsent(a, '\n');
      if x == "" {
        assert a + x == a;
      } else {
        IndexOfChar(a, '\n', x[1..]);
        assert a + x == a + "\n" + x[1..];
      }
    }
  }

  lemma NoteStands(t: string, x: string, m: string)
    requires m != [] && '\n' !in m && HasLine(t, m) && (x != "" ==> x[0] == '\n')
    ensures HasLine(t + x, m) && OrphanNote(t + x, m) == OrphanNote(t, m)
  {
    var i := AnchoredIndex(t, m);
    AnchoredPrefix(t, x, m);
    LineStands(t, x, i);
    MarkerWithinLine(t, m, i);
    SliceStands(t, x, i + |m|, LineEnd(t, i));
  }

  lemma SliceStands(t: string, x: string, i: nat, j: nat)
    requires i <= j <= |t|
    ensures (t + x)[i..j] == t[i..j]
  {
  }

  lemma NewlinesFirst(tail: string)
    requires AllIn(tail, NEWLINE)
    ensures tail != "" ==> tail[0] == '\n'
  {
  }

  /** The orphan's line is the same in front of a new region. */
  lemma OrphanNoteKept(existing: string, x: string, m: string)
    requires m != [] && '\n' !in m && HasLine(existing, m)
    ensures HasLine(Lead(existing) + x, m) && OrphanNote(Lead(existing) + x, m) == OrphanNote(existing, m)
  {
    var t := TrimRight(existing, NEWLINE);
    var tail := TrimRightParts(existing, NEWLINE);
    if !HasLine(t, m) { HasLineNewlines(t, tail, m); }
    NewlinesFirst(tail);
    NoteStands(t, tail, m);
    NoteStands(t, "\n\n" + x, m);
    assert Lead(existing) + x == t + ("\n\n" + x);
  }

  lemma FoundNote(g: Generator, text: string)
    requires '\r' !in text && BlockIn(g, text).Region?
    ensures HasLine(text, g.mk.open) && BlockIn(g, text).hash == ParseMeta(OrphanNote(text, g.mk.open)).hash
  {
    SpanNote(g.mk, text);
  }

  lemma SpanNote(mk: Markers, text: string)
    requires mk.Valid() && FindSpan(mk, text).Span?
    ensures HasLine(text, mk.open) && FindSpan(mk, text).note == OrphanNote(text, mk.open)
  {
  }

  lemma InsertedBehind(existing: string, block: string)
    ensures Insert(existing, block) == Lead(existing) + (block + "\n")
  {
    InsertShape(existing, block);
    Grouped(Lead(existing), block, "\n");
  }

  lemma OrphanIsFound(g: Generator, raw: string, body: string, source: string)
    requires !Spliceable(g, raw) && BodyOk(g, body) && SpaceFree(source)
    ensures var once := Splice(g, raw, body, source).out;
            && once == Lead(Normalize(raw)) + (Block(g, body, source) + "\n")
            && '\r' !in once && BlockIn(g, once).Region?
  {
    BlockInNormalized(g, raw);
    OrphanRegion(g, raw, body, source);
    PlainSource(source);
    PrintedIsPlain(g, body, source);
    LeadIsPlain(Normalize(raw));
    InsertedBehind(Normalize(raw), Block(g, body, source));
  }

  /** After a splice, the region found records what the orphan's line says. */
  lemma OrphanHash(g: Generator, raw: string, body: string, source: string)
    requires !Spliceable(g, raw) && BodyOk(g, body) && SpaceFree(source)
    ensures var once := Splice(g, raw, body, source).out;
            && HasLine(Normalize(raw), g.mk.open) && '\r' !in once && BlockIn(g, once).Region?
            && BlockIn(g, once).hash == ParseMeta(OrphanNote(Normalize(raw), g.mk.open)).hash
  {
    OrphanText(g, raw);
    OrphanIsFound(g, raw, body, source);
    OrphanNoteKept(Normalize(raw), Block(g, body, source) + "\n", g.mk.open);
    FoundNote(g, Splice(g, raw, body, source).out);
  }

  // ----- applying twice -----

  /** An apply over such a file is never refused. The next unforced one is refused exactly when the BEGIN line records a
      well-formed hash that is not the hash of what now stands behind it; otherwise it discards the user's text from
      that line on, unless that hash is the very one to be written. */
  lemma OrphanApplies(g: Generator, c1: Canonical, c2: Canonical, file: Option<string>, force: bool)
    requires Fits(g, c1) && Fits(g, c2) && !Spliceable(g, TextOf(file))
    ensures var existing := Normalize(TextOf(file));
            var (first, once) := ApplyTo(g, Agents, c1, file, force, false);
            var (second, twice) := ApplyTo(g, Agents, c2, once, false, false);
            && HasLine(existing, g.mk.open) && once.Some? && !first.userEdits
            && var hash := ParseMeta(OrphanNote(existing, g.mk.open)).hash;
               var blk := BlockIn(g, once.value);
               && blk.Region? && blk.end <= |once.value|
               && (second.userEdits <==>
                     IsShortHash(hash) && HashContent(g, CurrentBlockBody(g, once.value, blk)) != hash)
               && (!second.userEdits ==>
                     twice == if hash == HashContent(g, RenderBody(c2)) then once
                              else Some(existing[..AnchoredIndex(existing, g.mk.open)]
                                        + Block(g, RenderBody(c2), SourceOf(c2)) + "\n"))
  {
    var raw := TextOf(file);
    var once := Splice(g, raw, RenderBody(c1), SourceOf(c1)).out;
    BlockInNormalized(g, raw);
    OrphanHash(g, raw, RenderBody(c1), SourceOf(c1));
    AppliedOnce(g, c1, file, force);
    UnchangedIsUpToDate(g, once, RenderBody(c2), SourceOf(c2));
    if !UpToDate(g, once, RenderBody(c2)) {
      OrphanBeginSwallowsText(g, raw, RenderBody(c1), SourceOf(c1), RenderBody(c2), SourceOf(c2));
    }
  }

  lemma AppliedOnce(g: Generator, c: Canonical, file: Option<string>, force: bool)
    requires !Spliceable(g, TextOf(file))
    ensures var (outcome, after) := ApplyTo(g, Agents, c, file, force, false);
            !outcome.userEdits && after == Some(Splice(g, TextOf(file), RenderBody(c), SourceOf(c)).out)
  {
    BlockInNormalized(g, TextOf(file));
  }
}
