/** The canonical skill and its Markdown rendering, `cli/internal/skillgen/adapters.go`. */
module SkillRender {
  import opened Text
  import opened ManagedBlock
  import opened Splicing

  datatype Step = Step(title: string, body: string)

  datatype Canonical = Canonical(
    name: string,
    description: string,
    version: string,
    whenToUse: seq<string>,
    prereqs: seq<string>,
    steps: seq<Step>,
    quickRef: seq<string>,
    pitfalls: seq<string>,
    verify: seq<string>,
    baseURL: string,
    origin: string)

  // ----- what is rendered -----

  function Digit(d: nat): char
    requires d < 10
  {
    ('0' as int + d) as char
  }

  function Decimal(n: nat): (s: string)
    ensures s != [] && forall i :: 0 <= i < |s| ==> '0' <= s[i] <= '9'
  {
    if n < 10 then [Digit(n)] else Decimal(n / 10) + [Digit(n % 10)]
  }

  predicate AllDigits(s: string) {
    forall i :: 0 <= i < |s| ==> '0' <= s[i] <= '9'
  }

  /** The number that digits stand for. */
  function Numeral(s: string): nat
    requires AllDigits(s)
  {
    if s == "" then 0 else 10 * Numeral(s[..|s| - 1]) + (s[|s| - 1] as int - '0' as int)
  }

  /** A number is printed as the digits that stand for it, without leading zeros. */
  lemma {:induction false} DecimalIs(n: nat)
    ensures Numeral(Decimal(n)) == n && (n > 0 ==> Decimal(n)[0] != '0')
  {
    if n >= 10 {
      DecimalIs(n / 10);
      assert Decimal(n)[..|Decimal(n)| - 1] == Decimal(n / 10);
      assert Digit(n % 10) as int - '0' as int == n % 10;
    } else {
      assert Decimal(n)[..0] == "";
      assert Digit(n) as int - '0' as int == n;
    }
  }

  function TitleFor(c: Canonical): string {
    if c.name == "jentic" then "Using Jentic from the CLI" else c.name
  }

  function BulletText(items: seq<string>): string {
    if items == [] then "" else "- " + items[0] + "\n" + BulletText(items[1..])
  }

  function BulletSection(heading: string, items: seq<string>): string {
    if items == [] then "" else "## " + heading + "\n\n" + BulletText(items) + "\n"
  }

  function StepText(n: nat, s: Step): string {
    "### " + Decimal(n) + ". " + s.title + "\n\n" + TrimRight(s.body, NEWLINE) + "\n\n"
  }

  function StepsText(steps: seq<Step>, from: nat): string
    requires from <= |steps|
    decreases |steps| - from
  {
    if from == |steps| then "" else StepText(from + 1, steps[from]) + StepsText(steps, from + 1)
  }

  function Procedure(steps: seq<Step>): string {
    if steps == [] then "" else "## Procedure\n\n" + StepsText(steps, 0)
  }

  function Heading(c: Canonical): string {
    "# " + TitleFor(c) + "\n\n" + (if c.baseURL == "" then "" else "Jentic control plane: `" + c.baseURL + "`\n\n")
  }

  function FullBody(c: Canonical): string {
    Heading(c)
    + BulletSection("When to Use", c.whenToUse)
    + BulletSection("Prerequisites", c.prereqs)
    + Procedure(c.steps)
    + BulletSection("Quick Reference", c.quickRef)
    + BulletSection("Pitfalls", c.pitfalls)
    + BulletSection("Verification", c.verify)
  }

  function RenderBody(c: Canonical): string {
    TrimRight(FullBody(c), NEWLINE) + "\n"
  }

  // ----- the rendering loops -----

  class Builder {
    var text: string

    constructor ()
      ensures text == ""
    {
      text := "";
    }

    method WriteString(s: string)
      modifies this
      ensures text == old(text) + s
    {
      text := text + s;
    }
  }

  method WriteBullets(b: Builder, heading: string, items: seq<string>)
    modifies b
    ensures b.text == old(b.text) + BulletSection(heading, items)
  {
    if items == [] {
      return;
    }
    b.WriteString("## " + heading + "\n\n");
    ghost var start := old(b.text) + ("## " + heading + "\n\n");
    for i := 0 to |items|
      invariant b.text + BulletText(items[i..]) == start + BulletText(items)
    {
      ghost var before := b.text;
      b.WriteString("- " + items[i] + "\n");
      assert items[i..][1..] == items[i + 1..];
      assert before + ("- " + items[i] + "\n" + BulletText(items[i + 1..])) == b.text + BulletText(items[i + 1..]);
    }
    assert items[|items|..] == [];
    assert b.text == start + BulletText(items);
    b.WriteString("\n");
    assert b.text == old(b.text) + ("## " + heading + "\n\n" + BulletText(items) + "\n");
  }

  lemma Assoc(a: string, b: string, c: string)
    ensures a + (b + c) == (a + b) + c
  {
  }

  method WriteStep(b: Builder, n: nat, s: Step)
    modifies b
    ensures b.text == old(b.text) + StepText(n, s)
  {
    b.WriteString("### " + Decimal(n) + ". " + s.title + "\n\n");
    b.WriteString(TrimRight(s.body, NEWLINE));
    b.WriteString("\n\n");
  }

  method WriteSteps(b: Builder, steps: seq<Step>)
    modifies b
    ensures b.text == old(b.text) + Procedure(steps)
  {
    if |steps| > 0 {
      b.WriteString("## Procedure\n\n");
      ghost var start := old(b.text) + "## Procedure\n\n";
      for i := 0 to |steps|
        invariant b.text + StepsText(steps, i) == start + StepsText(steps, 0)
      {
        ghost var before := b.text;
        WriteStep(b, i + 1, steps[i]);
        Assoc(before, StepText(i + 1, steps[i]), StepsText(steps, i + 1));
      }
      assert b.text == start + StepsText(steps, 0);
      Assoc(old(b.text), "## Procedure\n\n", StepsText(steps, 0));
    }
  }

  method Render(c: Canonical) returns (body: string)
    ensures body == RenderBody(c)
  {
    var b := new Builder();
    b.WriteString("# " + TitleFor(c) + "\n\n");
    if c.baseURL != "" {
      b.WriteString("Jentic control plane: `" + c.baseURL + "`\n\n");
    }
    assert b.text == Heading(c);
    WriteBullets(b, "When to Use", c.whenToUse);
    WriteBullets(b, "Prerequisites", c.prereqs);
    WriteSteps(b, c.steps);
    WriteBullets(b, "Quick Reference", c.quickRef);
    WriteBullets(b, "Pitfalls", c.pitfalls);
    WriteBullets(b, "Verification", c.verify);
    body := TrimRight(b.text, NEWLINE) + "\n";
  }

  // ----- frontmatter -----

  function DirSkillFrontmatter(c: Canonical): string {
    "---\nname: " + c.name + "\ndescription: " + c.description + "\n---\n"
  }

  /** The one-sentence description that the hermes runtime requires: at most sixty characters, with a
      period at the end and nowhere else. */
  function HermesDescription(full: string): (r: string)
    ensures 0 < |r| <= 60 && r[|r| - 1] == '.' && '.' !in r[..|r| - 1]
  {
    var sentence := FirstSentence(TrimSpace(full));
    TrimAddsNothing(sentence, SPACES, '.');
    var t := TrimSpace(sentence);
    if t == "" || |t| > 59 then "Find and run third-party APIs via" + " the Jentic CLI."
    else t + "."
  }

  function FirstSentence(s: string): (r: string)
    ensures '.' !in r && r <= s
  {
    var i := Index(s, ".");
    IndexChar(s, '.');
    if i >= 0 then s[..i] else s
  }

  /** It is the first sentence, whatever white space stands around it, as long as there is one and it is short
      enough; otherwise it is the fixed one. */
  lemma HermesTakesTheSentence(head: string, sentence: string, gap: string, rest: string)
    requires AllIn(head, SPACES) && AllIn(gap, SPACES) && Trimmed(sentence, SPACES) && '.' !in sentence
    requires rest == "" || rest[0] == '.'
    ensures HermesDescription(head + sentence + gap + rest)
         == if sentence == "" || |sentence| > 59 then "Find and run third-party APIs via" + " the Jentic CLI."
            else sentence + "."
  {
    TrimUnique("", sentence, gap, SPACES);
    assert "" + sentence + gap == sentence + gap;
    if rest == "" {
      SentenceAlone(head, sentence, gap);
      assert head + sentence + gap + rest == head + sentence + gap;
    } else {
      SentenceFirst(head, sentence, gap, rest);
    }
  }

  lemma SentenceAlone(head: string, sentence: string, gap: string)
    requires AllIn(head, SPACES) && AllIn(gap, SPACES) && Trimmed(sentence, SPACES) && '.' !in sentence
    ensures TrimSpace(FirstSentence(TrimSpace(head + sentence + gap))) == sentence
  {
    TrimUnique(head, sentence, gap, SPACES);
    IndexAbsent(sentence, '.');
    TrimmedIsFixed(sentence, SPACES);
  }

  lemma UpToPeriod(body: string, r: string)
    requires '.' !in body && r != "" && r[0] == '.'
    ensures FirstSentence(body + r) == body
  {
    assert r == "." + r[1..];
    IndexOfChar(body, '.', r[1..]);
    assert body + r == body + "." + r[1..];
    assert (body + r)[..|body|] == body;
  }

  lemma PeriodStays(lead: string, body: string, rest: string) returns (r: string)
    requires AllIn(lead, SPACES) && (body != "" ==> body[0] !in SPACES) && rest != "" && rest[0] == '.'
    ensures r != "" && r[0] == '.' && TrimSpace(lead + body + rest) == body + r
  {
    r := TrimRight(rest, SPACES);
    var tail := TrimRightParts(rest, SPACES);
    TrimRightKeepsFirst(rest, SPACES);
    TrimRightEnd(rest, SPACES);
    TrimUnique(lead, body + r, tail, SPACES);
    Regrouped(lead, body, r, tail);
  }

  lemma Regrouped(a: string, b: string, c: string, d: string)
    ensures a + (b + c) + d == a + b + (c + d)
  {
  }

  lemma SentenceFirst(head: string, sentence: string, gap: string, rest: string)
    requires AllIn(head, SPACES) && AllIn(gap, SPACES) && Trimmed(sentence, SPACES) && '.' !in sentence
    requires rest != "" && rest[0] == '.'
    ensures TrimSpace(FirstSentence(TrimSpace(head + sentence + gap + rest))) == sentence
  {
    if sentence == "" {
      var r := PeriodStays(head + gap, "", rest);
      UpToPeriod("", r);
      assert head + sentence + gap + rest == head + gap + "" + rest;
      assert TrimSpace("") == "";
    } else {
      SentenceUpToPeriod(head, sentence + gap, rest, sentence, gap);
      assert head + sentence + gap + rest == head + (sentence + gap) + rest;
    }
  }

  lemma SentenceUpToPeriod(head: string, body: string, rest: string, sentence: string, gap: string)
    requires AllIn(head, SPACES) && AllIn(gap, SPACES) && Trimmed(sentence, SPACES) && '.' !in sentence
    requires rest != "" && rest[0] == '.' && sentence != "" && body == sentence + gap
    ensures TrimSpace(FirstSentence(TrimSpace(head + body + rest))) == sentence
  {
    NoPeriodIn(gap);
    var r := PeriodStays(head, body, rest);
    UpToPeriod(body, r);
    TrimUnique("", sentence, gap, SPACES);
    assert "" + sentence + gap == body;
  }

  lemma NoPeriodIn(gap: string)
    requires AllIn(gap, SPACES)
    ensures '.' !in gap
  {
    assert '.' !in SPACES;
  }

  function HermesFrontmatter(c: Canonical): string {
    "---\n" + "name: " + c.name + "\n" + "description: " + HermesDescription(c.description) + "\n"
    + "version: " + c.version + "\n" + "metadata:\n  hermes:\n    category: api\n"
    + "    tags: [jentic, api, broker, cli]\n" + "---\n"
  }

  // ----- adapters -----

  datatype Adapter = DirSkill | Hermes | Agents

  predicate OwnsWholeFile(a: Adapter) {
    !a.Agents?
  }

  function Frontmatter(a: Adapter, c: Canonical): string
    requires OwnsWholeFile(a)
  {
    if a.DirSkill? then DirSkillFrontmatter(c) else HermesFrontmatter(c)
  }

  function SourceOf(c: Canonical): string {
    if c.origin == "" then "bundled" else c.origin
  }

  /** A file that is all ours: the frontmatter, a blank line, the region. */
  function Dedicated(g: Generator, frontmatter: string, c: Canonical): string {
    TrimRight(frontmatter, NEWLINE) + "\n\n" + Block(g, RenderBody(c), SourceOf(c)) + "\n"
  }

  /** The new file and whether it counts as a change. */
  function RenderFile(g: Generator, a: Adapter, c: Canonical, existing: string): (string, bool) {
    if OwnsWholeFile(a) then
      var want := Dedicated(g, Frontmatter(a, c), c);
      (want, existing != want)
    else
      var r := Splice(g, existing, RenderBody(c), SourceOf(c));
      (r.out, r.changed)
  }
}
