/** The two sentinels of `cli/internal/skillgen/skillgen.go`, and what the general results say about them. */
module JenticMarkers {
  import opened Text
  import opened AnchoredText
  import opened ManagedBlock
  import opened SkillRender
  import opened SkillApply
  import opened SkillRuns
  import opened SkillDedicated
  import opened SkillFits

  const NAME := "<!-- BEGIN JENTIC MANAGED SKILL"
  const WARNING := " (do not edit inside;"
  const ORIGIN := " regenerated by Jentic) -->"
  const BEGIN := NAME + WARNING + ORIGIN
  const END := "<!-- END JENTIC MANAGED SKILL -->"

  const JENTIC := Markers(BEGIN, END)

  predicate OneLine(s: string) {
    '\n' !in s && '\r' !in s
  }

  lemma NameIsPlain()
    ensures OneLine(NAME) && |NAME| == 31 && NAME[0] == '<' && NAME[5] == 'B'
  {
  }

  lemma WarningIsPlain()
    ensures OneLine(WARNING) && OneLine(ORIGIN) && |ORIGIN| == 27
  {
  }

  lemma EndIsPlain()
    ensures OneLine(END) && |END| == 33 && END[5] == 'E' && END[0] == '<'
  {
  }

  lemma Composed(a: string, b: string, c: string, close: string)
    requires OneLine(a) && OneLine(b) && OneLine(c) && OneLine(close)
    requires 5 < |a| && 5 < |close| <= |a| + |c| && a[5] != close[5]
    ensures Markers(a + b + c, close).Valid() && (a + b + c)[0] == a[0]
  {
    var open := a + b + c;
    assert open[5] == a[5];
  }

  /** They meet what is asked of a pair of markers, and start as `SkillDedicated` and `SkillFits` need. */
  lemma JenticIsValid()
    ensures JENTIC.Valid() && JENTIC.open[0] == '<' && JENTIC.close[0] == '<'
  {
    NameIsPlain();
    WarningIsPlain();
    EndIsPlain();
    Composed(NAME, WARNING, ORIGIN, END);
  }

  /** The generator of the repository, for whatever the hash function gives. */
  function JenticGenerator(sha: (string, nat) -> HexDigit): Generator {
    JenticIsValid();
    GeneratorData(JENTIC, sha)
  }

  /** A skill of plain lines, none of them in a step's body beginning with the END sentinel. */
  predicate PlainSkill(c: Canonical) {
    && Without(RenderedLines(c), '\n') && Without(RenderedLines(c), '\r') && SpaceFree(SourceOf(c))
    && StepsFree(c.steps, 0, END) && PlainFront(c)
  }

  lemma PlainSkillFits(sha: (string, nat) -> HexDigit, c: Canonical)
    requires PlainSkill(c)
    ensures Fits(JenticGenerator(sha), c)
  {
    JenticIsValid();
    FitsExactly(JenticGenerator(sha), c);
  }

  /** With the repository's own sentinels: the update that follows an accepted one is refused on a claude or cursor
      file exactly when the name or the description has changed. */
  lemma JenticGuard(sha: (string, nat) -> HexDigit, c1: Canonical, c2: Canonical, file: Option<string>, force: bool,
                    dryRun: bool)
    requires PlainSkill(c1) && PlainSkill(c2)
    requires !ApplyTo(JenticGenerator(sha), DirSkill, c1, file, force, false).0.userEdits
    ensures var g := JenticGenerator(sha);
            ApplyTo(g, DirSkill, c2, ApplyTo(g, DirSkill, c1, file, force, false).1, false, dryRun).0.userEdits
            <==> c1.name != c2.name || c1.description != c2.description
  {
    JenticIsValid();
    PlainSkillFits(sha, c1);
    PlainSkillFits(sha, c2);
    DirSkillGuard(JenticGenerator(sha), c1, c2, file, force, dryRun);
  }
}
