/** What counts as a user's edit, told from the texts, and what applies and removals report,
    `cli/internal/skillgen/apply.go`. */
module SkillEdits {
  import opened Text
  import opened Newlines
  import opened AnchoredText
  import opened ManagedBlock
  import opened Splicing
  import opened SpliceLimits
  import opened SkillRender
  import opened SkillApply
  import opened SkillRuns

  // ----- edits of the region -----

  /** The text with the region that was printed for `a` between `p` and `s`, in which `b` now stands in place of it. */
  function Rewritten(g: Generator, p: string, a: string, source: string, b: string, s: string): string {
    p + Printed(g.mk, Note(HashContent(g, a), source), b) + s
  }

  lemma RewrittenIsFound(g: Generator, p: string, a: string, source: string, b: string, s: string)
    requires OpenPrefix(g, p) && SpaceFree(source) && '\r' !in s && !HasLine(Normalize(b), g.mk.close)
    ensures var text := Normalize(Rewritten(g, p, a, source, b, s));
            var blk := BlockIn(g, text);
            && blk.Region? && blk.hash == HashContent(g, a) && blk.end <= |text|
            && CurrentBlockBody(g, text, blk) == TrimRight(Normalize(b), NEWLINE)
  {
    var note := Note(HashContent(g, a), source);
    SpaceFreeTells(g, a, source);
    PlainSource(source);
    NoteIsPlain(HashContent(g, a), source);
    var z := PrintedNormalized(g.mk, p, note, b, s);
    EndFree(g, z, Normalize(b));
    FindPrintedNote(g, p, note, z, s);
  }

  lemma RewrittenIsEdited(g: Generator, p: string, a: string, source: string, b: string, s: string)
    requires OpenPrefix(g, p) && SpaceFree(source) && '\r' !in s && !HasLine(Normalize(b), g.mk.close)
    requires Apart(g, TrimRight(Normalize(a), NEWLINE), TrimRight(Normalize(b), NEWLINE))
    ensures RegionEdited(g, Rewritten(g, p, a, source, b, s))
            <==> TrimRight(Normalize(a), NEWLINE) != TrimRight(Normalize(b), NEWLINE)
    ensures BlockIn(g, Rewritten(g, p, a, source, b, s)).Region?
  {
    RewrittenIsFound(g, p, a, source, b, s);
    BlockInNormalized(g, Rewritten(g, p, a, source, b, s));
    SameHashExactly(g, a, b);
    HashIgnoresNewlines(g, Normalize(b));
    assert Normalize(Normalize(b)) == Normalize(b);
  }

  /** Told from the texts: whatever the user puts in place of the body that was printed, an apply or a removal without
      force is refused, and leaves the file as it is, exactly when it is another text than that body, line endings and
      newlines at the end aside. On a file that is all ours, an apply is refused at least then. */
  lemma EditRefusedExactly(g: Generator, ad: Adapter, c: Canonical, base: string, dryRun: bool,
                           p: string, a: string, source: string, b: string, s: string)
    requires OpenPrefix(g, p) && SpaceFree(source) && '\r' !in s && !HasLine(Normalize(b), g.mk.close)
    requires Apart(g, TrimRight(Normalize(a), NEWLINE), TrimRight(Normalize(b), NEWLINE))
    ensures var text := Rewritten(g, p, a, source, b, s);
            var (applied, file) := ApplyTo(g, ad, c, Some(text), false, dryRun);
            var (removed, left) := RemoveFrom(g, base, Some(text), false, dryRun);
            var edited := TrimRight(Normalize(a), NEWLINE) != TrimRight(Normalize(b), NEWLINE);
            && (edited ==> applied.userEdits && file == Some(text) && left == Some(text))
            && (ad.Agents? ==> (applied.userEdits <==> edited))
            && (removed.userEdits <==> edited)
  {
    var text := Rewritten(g, p, a, source, b, s);
    RewrittenIsEdited(g, p, a, source, b, s);
    EditedIs(g, ad, c, text);
    RemovalRefused(g, base, text, dryRun);
  }

  lemma EditedIs(g: Generator, ad: Adapter, c: Canonical, text: string)
    requires BlockIn(g, text).Region?
    ensures RegionEdited(g, text) ==> Edited(g, ad, c, text)
    ensures ad.Agents? && Edited(g, ad, c, text) ==> RegionEdited(g, text)
  {
  }

  lemma RemovalRefused(g: Generator, base: string, text: string, dryRun: bool)
    requires BlockIn(g, text).Region?
    ensures var (outcome, left) := RemoveFrom(g, base, Some(text), false, dryRun);
            (outcome.userEdits <==> RegionEdited(g, text)) && (outcome.userEdits ==> left == Some(text))
  {
    BlockInNormalized(g, text);
  }

  /** A BEGIN line that records anything but twelve hexadecimal digits is nobody's edit. */
  lemma MalformedIsNoEdit(g: Generator, c: Canonical, base: string, text: string, dryRun: bool)
    requires BlockIn(g, text).Region?
    requires var hash := BlockIn(g, text).hash;
             |hash| != 12 || exists i :: 0 <= i < |hash| && hash[i] !in "0123456789abcdef"
    ensures !ApplyTo(g, Agents, c, Some(text), false, dryRun).0.userEdits
    ensures !RemoveFrom(g, base, Some(text), false, dryRun).0.userEdits
  {
    BlockInNormalized(g, text);
    NotShort(BlockIn(g, text).hash);
    EditedIs(g, Agents, c, text);
    RemovalRefused(g, base, text, dryRun);
  }

  lemma NotShort(hash: string)
    requires |hash| != 12 || exists i :: 0 <= i < |hash| && hash[i] !in "0123456789abcdef"
    ensures !IsShortHash(hash)
  {
    forall c: char | IsHexDigit(c) ensures c in "0123456789abcdef" { HexDigits(c); }
  }

  lemma HexDigits(c: char)
    requires IsHexDigit(c)
    ensures c in "0123456789abcdef"
  {
    if c <= '9' {
      assert c == "0123456789abcdef"[c as int - '0' as int];
    } else {
      assert c == "0123456789abcdef"[10 + (c as int - 'a' as int)];
    }
  }

  // ----- updates -----

  lemma SameRendering(c1: Canonical, c2: Canonical)
    ensures TrimRight(RenderBody(c1), NEWLINE) == TrimRight(RenderBody(c2), NEWLINE)
            <==> RenderBody(c1) == RenderBody(c2)
  {
    RenderingTrimmed(c1);
    RenderingTrimmed(c2);
  }

  lemma RenderingTrimmed(c: Canonical)
    ensures TrimRight(RenderBody(c), NEWLINE) + "\n" == RenderBody(c)
  {
    var t := TrimRight(FullBody(c), NEWLINE);
    TrimRightEnd(FullBody(c), NEWLINE);
    TrimRightUnique(t, "\n", NEWLINE);
  }

  /** An apply over a printed region writes exactly when the two renderings differ, and then only the region changes. */
  lemma UpdateWritesExactly(g: Generator, text: string, p: string, c1: Canonical, c2: Canonical, s: string, force: bool)
    requires Manages(g, text, p, RenderBody(c1), SourceOf(c1), s) && Fits(g, c2)
    requires Apart(g, TrimRight(RenderBody(c1), NEWLINE), TrimRight(RenderBody(c2), NEWLINE))
    ensures ApplyTo(g, Agents, c2, Some(text), force, false)
         == if RenderBody(c1) == RenderBody(c2) then (Outcome(false, false, true, false), Some(text))
            else (Outcome(false, true, false, false), Some(p + Block(g, RenderBody(c2), SourceOf(c2)) + s))
  {
    SameRendering(c1, c2);
    SameHashExactly(g, RenderBody(c1), RenderBody(c2));
    UpdateByHash(g, text, p, c1, c2, s, force);
  }

  lemma UpdateByHash(g: Generator, text: string, p: string, c1: Canonical, c2: Canonical, s: string, force: bool)
    requires Manages(g, text, p, RenderBody(c1), SourceOf(c1), s) && Fits(g, c2)
    ensures ApplyTo(g, Agents, c2, Some(text), force, false)
         == if HashContent(g, RenderBody(c1)) == HashContent(g, RenderBody(c2))
            then (Outcome(false, false, true, false), Some(text))
            else (Outcome(false, true, false, false), Some(p + Block(g, RenderBody(c2), SourceOf(c2)) + s))
  {
    SpliceIntoManaged(g, text, p, RenderBody(c1), SourceOf(c1), s, RenderBody(c2), SourceOf(c2));
    ManagedNotRefused(g, text, p, c1, c2, s);
    SharedApply(g, c2, text, force);
  }

  lemma SharedApply(g: Generator, c: Canonical, text: string, force: bool)
    requires !Edited(g, Agents, c, text)
    ensures var r := Splice(g, text, RenderBody(c), SourceOf(c));
            ApplyTo(g, Agents, c, Some(text), force, false)
            == (Outcome(false, r.changed, !r.changed, false), Some(if r.changed then r.out else text))
  {
  }

  lemma ManagedNotRefused(g: Generator, text: string, p: string, c1: Canonical, c2: Canonical, s: string)
    requires Manages(g, text, p, RenderBody(c1), SourceOf(c1), s)
    ensures !Edited(g, Agents, c2, text)
  {
    ManagedState(g, text, p, RenderBody(c1), SourceOf(c1), s);
    SettledIsNotRefused(g, text, p, s, HashContent(g, RenderBody(c1)), c2);
  }

  // ----- what is reported -----

  /** A dry run reports what the real one would, and leaves the file. */
  lemma DryRunTells(g: Generator, a: Adapter, c: Canonical, file: Option<string>, force: bool)
    ensures ApplyTo(g, a, c, file, force, true) == (ApplyTo(g, a, c, file, force, false).0, file)
  {
  }

  lemma DryRemovalTells(g: Generator, base: string, file: Option<string>, force: bool)
    ensures RemoveFrom(g, base, file, force, true) == (RemoveFrom(g, base, file, force, false).0, file)
  {
  }

  /** With force, any region goes, edited or not, and the text around it stays but for newlines at the ends. */
  lemma ForcedRemoval(g: Generator, base: string, text: string)
    requires BlockIn(g, text).Region? && base != "SKILL.md"
    ensures var rest := Trim(Before(g, text) + After(g, text), NEWLINE);
            RemoveFrom(g, base, Some(text), true, false)
            == (RemoveOutcome(true, false, false), if rest == "" then None else Some(rest + "\n"))
  {
    BlockInNormalized(g, text);
    NormalizeTwice(text);
  }

  /** Created: there was no file. Changed: there is another text now. Skipped: neither changed nor refused. */
  lemma OutcomeTells(g: Generator, a: Adapter, c: Canonical, file: Option<string>, force: bool)
    requires Fits(g, c)
    ensures var (outcome, after) := ApplyTo(g, a, c, file, force, false);
            && (outcome.created <==> file.None?)
            && (outcome.changed <==> after != file)
            && (outcome.skipped <==> !outcome.changed && !outcome.userEdits)
            && (outcome.userEdits ==> after == file)
  {
    RenderTells(g, a, c, TextOf(file));
    FromNothing(g, a, c);
  }

  lemma RenderTells(g: Generator, a: Adapter, c: Canonical, text: string)
    requires Fits(g, c)
    ensures RenderFile(g, a, c, text).1 ==> RenderFile(g, a, c, text).0 != text
  {
    if a.Agents? { SpliceTells(g, text, RenderBody(c), SourceOf(c)); }
  }

  lemma SpliceTells(g: Generator, raw: string, body: string, source: string)
    requires BodyOk(g, body) && SpaceFree(source)
    ensures Splice(g, raw, body, source).changed ==> Splice(g, raw, body, source).out != raw
  {
    ChangedIsExact(g, raw, body, source);
    SpliceShape(g, raw, body, source);
    PlainSource(source);
    PrintedIsPlain(g, body, source);
    LeadIsPlain(Normalize(raw));
  }

  /** A file that is not there is always written. */
  lemma FromNothing(g: Generator, a: Adapter, c: Canonical)
    ensures RenderFile(g, a, c, "").1 && !Edited(g, a, c, "")
  {
    EmptyHasNoBlock(g);
    if !a.Agents? { EndsLine(TrimRight(Frontmatter(a, c), NEWLINE) + "\n\n" + Block(g, RenderBody(c), SourceOf(c))); }
  }

  lemma EmptyHasNoBlock(g: Generator)
    ensures BlockIn(g, "").NoBlock? && Normalize("") == ""
  {
  }

  /** Created: there was no region. Edited: the region found was, and it has been replaced or left as it was. */
  lemma SpliceReports(g: Generator, raw: string, body: string, source: string)
    requires SpaceFree(source)
    ensures var r := Splice(g, raw, body, source);
            && (r.created <==> BlockIn(g, raw).NoBlock?)
            && (r.userEdits <==> RegionEdited(g, raw))
            && (r.created || r.userEdits ==> r.changed)
  {
    BlockInNormalized(g, raw);
    UnchangedIsUpToDate(g, raw, body, source);
  }
}
