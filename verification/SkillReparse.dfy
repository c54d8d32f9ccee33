/** More that printing and parsing a skill have to do with each other: the printed number of a step, what two equal
    renderings say, the hermes file, and the errors of the parser, `cli/internal/skillgen/bundled.go`. */
module SkillReparse {
  import opened Text
  import opened TextLines
  import opened SkillRender
  import opened SkillParse
  import opened SkillRoundTrip
  import opened SkillReadable
  import opened SkillDedicated

  // ----- the numbers of the steps -----

  lemma {:induction false} InFlatten(blocks: seq<seq<string>>, i: nat, line: string)
    requires i < |blocks| && line in blocks[i]
    ensures line in Flatten(blocks)
    decreases |blocks|
  {
    if i > 0 { InFlatten(blocks[1..], i - 1, line); }
  }

  lemma {:induction false} InParts(parts: seq<Part>, i: nat, line: string)
    requires i < |parts| && parts[i].present && line in parts[i].lines
    ensures line in PartLines(parts)
    decreases |parts|
  {
    if i > 0 { InParts(parts[1..], i - 1, line); }
  }

  /** The heading of the `i`-th step, counting from zero, carries the digits of `i + 1`. */
  lemma StepIsNumbered(c: Canonical, i: nat) returns (digits: string)
    requires i < |c.steps|
    ensures "### " + (digits + ". " + c.steps[i].title) in DocLines(c)
    ensures AllDigits(digits) && Numeral(digits) == i + 1 && digits != "" && digits[0] != '0'
  {
    digits := Decimal(i + 1);
    DecimalIs(i + 1);
    var line := "### " + (digits + ". " + c.steps[i].title);
    BlockAt(c.steps, i);
    assert line == LinesOfStep(i + 1, c.steps[i])[0];
    InFlatten(StepBlocks(c.steps, 0), i, line);
    InParts(Parts(c), 2, line);
  }

  lemma HeadingStarts(c: Canonical) returns (more: string)
    ensures Heading(c) == "# " + TitleFor(c) + "\n" + more
  {
    more := "\n" + if c.baseURL == "" then "" else "Jentic control plane: `" + c.baseURL + "`\n\n";
  }

  lemma StartStays(title: string, more: string, rest: string)
    requires TrimRight(rest, NEWLINE) != ""
    ensures title <= TrimRight(title + more + rest, NEWLINE) + "\n"
  {
    TrimBehind(title + more, rest);
  }

  /** The first line is the title: the name of the skill, but for the one that comes with the tool. */
  lemma TitleIsFirst(c: Canonical)
    requires c.steps != []
    ensures "# " + (if c.name == "jentic" then "Using Jentic from the CLI" else c.name) + "\n" <= RenderBody(c)
  {
    BodyParts(c);
    RestIsInk(c);
    var more := HeadingStarts(c);
    StartStays("# " + TitleFor(c) + "\n", more, Rest(c));
  }

  // ----- equal renderings -----

  /** What is rendered behind the heading. */
  function Rest(c: Canonical): string {
    BulletSection("When to Use", c.whenToUse) + BulletSection("Prerequisites", c.prereqs) + Procedure(c.steps)
    + BulletSection("Quick Reference", c.quickRef) + BulletSection("Pitfalls", c.pitfalls)
    + BulletSection("Verification", c.verify)
  }

  lemma BodyParts(c: Canonical)
    ensures FullBody(c) == Heading(c) + Rest(c)
  {
    SixParts(Heading(c), BulletSection("When to Use", c.whenToUse), BulletSection("Prerequisites", c.prereqs),
             Procedure(c.steps), BulletSection("Quick Reference", c.quickRef), BulletSection("Pitfalls", c.pitfalls),
             BulletSection("Verification", c.verify));
  }

  lemma SixParts(h: string, a: string, b: string, c: string, d: string, e: string, f: string)
    ensures h + a + b + c + d + e + f == h + (a + b + c + d + e + f)
  {
  }

  lemma ProcedureStarts(steps: seq<Step>)
    requires steps != []
    ensures '#' in Procedure(steps)
  {
    assert Procedure(steps)[0] == '#';
  }

  lemma RestIsInk(c: Canonical)
    requires c.steps != []
    ensures TrimRight(Rest(c), NEWLINE) != ""
  {
    ProcedureStarts(c.steps);
    var tail := TrimRightParts(Rest(c), NEWLINE);
    assert '#' in Rest(c) && '#' !in tail;
  }

  lemma TrimBehind(h: string, x: string)
    requires TrimRight(x, NEWLINE) != ""
    ensures TrimRight(h + x, NEWLINE) == h + TrimRight(x, NEWLINE)
  {
    var t := TrimRight(x, NEWLINE);
    var tail := TrimRightParts(x, NEWLINE);
    TrimRightEnd(x, NEWLINE);
    assert (h + t)[|h + t| - 1] == t[|t| - 1];
    TrimRightUnique(h + t, tail, NEWLINE);
    assert h + t + tail == h + x;
  }

  lemma SameHeading(c1: Canonical, c2: Canonical)
    requires c1.name == c2.name && Rest(c1) == Rest(c2) && c1.steps != [] && RenderBody(c1) == RenderBody(c2)
    ensures c1.steps == c2.steps ==> Heading(c1) == Heading(c2)
  {
    if c1.steps == c2.steps {
      BodyParts(c1);
      BodyParts(c2);
      RestIsInk(c1);
      TrimBehind(Heading(c1), Rest(c1));
      TrimBehind(Heading(c2), Rest(c2));
      SameSuffix(TrimRight(FullBody(c1), NEWLINE), TrimRight(FullBody(c2), NEWLINE), "\n");
      SameSuffix(Heading(c1), Heading(c2), TrimRight(Rest(c1), NEWLINE));
    }
  }

  lemma SameURL(c1: Canonical, c2: Canonical)
    requires c1.name == c2.name && Heading(c1) == Heading(c2)
    ensures c1.baseURL == c2.baseURL
  {
    var line1 := if c1.baseURL == "" then "" else "Jentic control plane: `" + c1.baseURL + "`\n\n";
    var line2 := if c2.baseURL == "" then "" else "Jentic control plane: `" + c2.baseURL + "`\n\n";
    SamePrefix("# " + TitleFor(c1) + "\n\n", line1, line2);
    if c1.baseURL != "" && c2.baseURL != "" {
      SameSuffix("Jentic control plane: `" + c1.baseURL, "Jentic control plane: `" + c2.baseURL, "`\n\n");
      SamePrefix("Jentic control plane: `", c1.baseURL, c2.baseURL);
    }
  }

  /** Two skills that are printed alike are the same, base URL included, up to where they come from. */
  lemma RenderingTellsAll(c1: Canonical, c2: Canonical)
    requires WellFormed(c1) && WellFormed(c2)
    requires DirSkillFrontmatter(c1) + RenderBody(c1) == DirSkillFrontmatter(c2) + RenderBody(c2)
    ensures c1.(origin := "") == c2.(origin := "")
  {
    ParseRendered(c1);
    ParseRendered(c2);
    SameParsed(c1, c2);
    SamePrefix(DirSkillFrontmatter(c1), RenderBody(c1), RenderBody(c2));
    SameHeading(c1, c2);
    SameURL(c1, c2);
  }

  lemma SameParsed(c1: Canonical, c2: Canonical)
    requires c1.(baseURL := "", origin := "") == c2.(baseURL := "", origin := "")
    ensures c1.name == c2.name && c1.steps == c2.steps && Rest(c1) == Rest(c2)
    ensures DirSkillFrontmatter(c1) == DirSkillFrontmatter(c2)
    ensures c1.baseURL == c2.baseURL ==> c1.(origin := "") == c2.(origin := "")
  {
    assert c1 == c1.(baseURL := "", origin := "").(baseURL := c1.baseURL, origin := c1.origin);
    assert c2 == c2.(baseURL := "", origin := "").(baseURL := c2.baseURL, origin := c2.origin);
  }

  // ----- the errors of the parser -----

  /** Without a description or without steps, the printed document is refused with the error that says so. */
  lemma ErrorsExactly(c: Canonical)
    requires '\n' !in c.name && Trimmed(c.name, SPACES) && '\n' !in c.description && Trimmed(c.description, SPACES)
    requires Sectioned(c.steps) && Separate(c.steps) && AllScannable(DocLines(c))
    ensures var r := Parsed(DirSkillFrontmatter(c) + RenderBody(c));
            && (r.Ok? <==> c.description != "" && c.steps != [])
            && (c.description == "" ==> r == Err("missing description in frontmatter"))
            && (c.description != "" && c.steps == [] ==> r == Err("no procedure steps found"))
  {
    RenderedStart(c);
    FrontmatterRead(c, RenderBody(c));
    StepsAreFound(c);
    DescribedOrNot(c, DirSkillFrontmatter(c) + RenderBody(c));
  }

  lemma StepsAreFound(c: Canonical)
    requires Sectioned(c.steps) && Separate(c.steps) && AllScannable(DocLines(c))
    ensures StepsOf(Field(Sections(RenderBody(c)), "Procedure", "")) == [] <==> c.steps == []
  {
    SectionsOfBody(c);
    if c.steps == [] {
      PartsAreReadable(c);
      Lookup(map[], Parts(c), 2);
      NoBullets();
    } else {
      ProcedureReadBack(c);
    }
  }

  lemma DescribedOrNot(c: Canonical, src: string)
    requires FrontmatterOf(src) == (RenderBody(c), map["name" := c.name, "description" := c.description])
    requires StepsOf(Field(Sections(RenderBody(c)), "Procedure", "")) == [] <==> c.steps == []
    ensures Parsed(src).Ok? <==> c.description != "" && c.steps != []
    ensures c.description == "" ==> Parsed(src) == Err("missing description in frontmatter")
    ensures c.description != "" && c.steps == [] ==> Parsed(src) == Err("no procedure steps found")
  {
    ErrorsFrom(src, RenderBody(c), map["name" := c.name, "description" := c.description]);
  }

  lemma ErrorsFrom(src: string, body: string, fm: map<string, string>)
    requires FrontmatterOf(src) == (body, fm)
    ensures var steps := StepsOf(Field(Sections(body), "Procedure", ""));
            var described := Field(fm, "description", "") != "";
            && (Parsed(src).Ok? <==> described && steps != [])
            && (!described ==> Parsed(src) == Err("missing description in frontmatter"))
            && (described && steps == [] ==> Parsed(src) == Err("no procedure steps found"))
  {
  }

  /** Without a name or a version in the frontmatter, the parser has its own. */
  lemma DefaultsApply(src: string)
    requires Parsed(src).Ok?
    ensures "name" !in FrontmatterOf(src).1 ==> Parsed(src).value.name == "jentic"
    ensures "version" !in FrontmatterOf(src).1 ==> Parsed(src).value.version == "1"
  {
    ParsedParts(src, FrontmatterOf(src).0, FrontmatterOf(src).1);
  }

  // ----- documents without frontmatter -----

  /** A document that does not start with a fence has no frontmatter. */
  lemma NoOpeningFence(src: string)
    requires !HasPrefix(TrimLeft(src, NEWLINE), "---\n")
    ensures FrontmatterOf(src) == (src, map[])
    ensures Parsed(src) == Err("missing description in frontmatter")
  {
  }

  /** Nor has one whose fence is not closed by a line that is exactly three dashes. */
  lemma NoClosingFence(lines: seq<string>)
    requires Fenceless(lines)
    ensures FrontmatterOf("---\n" + Unlines(lines)) == ("---\n" + Unlines(lines), map[])
  {
    var src := "---\n" + Unlines(lines);
    NoFenceFound(lines);
    TrimLeftUnique("", src, NEWLINE);
    assert "" + src == src && src[4..] == Unlines(lines);
  }

  lemma NoFenceFound(lines: seq<string>)
    requires Fenceless(lines)
    ensures Fence(Unlines(lines)) == None
  {
    ClosedPieces(lines, "");
    ClosedAreNoFence(lines);
    assert Unlines(lines) + "" == Unlines(lines);
    EmptyPiece(TotalLength(WithLineEnds(lines)));
    FenceFrom(Unlines(lines), WithLineEnds(lines), SplitAfter(""));
  }

  lemma EmptyPiece(offset: nat)
    ensures FenceIn(SplitAfter(""), offset) == None
  {
    SplitLast("", '\n');
    assert TrimRight("", NEWLINE) == "" && [""][1..] == [];
  }

  // ----- lines that are neither bullets nor titles -----

  /** A line that is no bullet and is not indented is not read. */
  lemma OtherLineIsSkipped(out: seq<string>, a: seq<string>, raw: string, b: seq<string>)
    requires !HasPrefix(TrimRight(raw, BLANK), "- ") && !HasPrefix(raw, "  ")
    ensures BulletLines(out, a + [raw] + b) == BulletLines(out, a + b)
  {
    BulletLinesConcat(out, a + [raw], b);
    BulletLinesConcat(out, a, [raw]);
    BulletLinesConcat(out, a, b);
    OneLineRead(BulletLines(out, a), raw);
  }

  /** A title without an ordinal is the whole heading, and an ordinal of any kind is taken off. */
  lemma TitleIsRead(ordinal: string, title: string)
    requires Titled(title)
    ensures Trimmed(title, SPACES) && !At(title, ". ", Index(title, ". ")) ==> StepTitle(title) == title
    ensures ordinal != "" && !IsSpace(ordinal[0]) && '.' !in ordinal ==> StepTitle(ordinal + ". " + title) == title
  {
    if Trimmed(title, SPACES) { TrimmedIsFixed(title, SPACES); }
    if ordinal != "" && !IsSpace(ordinal[0]) && '.' !in ordinal { OrdinalIsCut(ordinal, title); }
  }

  // ----- the hermes file -----

  lemma KeyedLine(fm: map<string, string>, key: string, value: string, k: string, v: string)
    requires ':' !in key && TrimSpace(key) == k && TrimSpace(value) == v
    ensures AddField(fm, key + ":" + value) == fm[k := v]
  {
    CutAtChar(key, ':', value);
  }

  lemma Spaced(s: string)
    requires Trimmed(s, SPACES)
    ensures TrimSpace("  " + s) == s && TrimSpace("    " + s) == s && TrimSpace(" " + s) == s
  {
    assert IsSpace(' ');
    TrimUnique("  ", s, "", SPACES);
    TrimUnique("    ", s, "", SPACES);
    TrimUnique(" ", s, "", SPACES);
    assert "  " + s + "" == "  " + s && "    " + s + "" == "    " + s && " " + s + "" == " " + s;
  }

  lemma {:induction false} AddFieldsConcat(fm: map<string, string>, a: seq<string>, b: seq<string>)
    ensures AddFields(fm, a + b) == AddFields(AddFields(fm, a), b)
    decreases |a|
  {
    if a == [] {
      assert a + b == b;
    } else {
      AddFieldsConcat(AddField(fm, a[0]), a[1..], b);
      assert (a + b)[0] == a[0] && (a + b)[1..] == a[1..] + b;
    }
  }

  lemma OneField(fm: map<string, string>, line: string)
    ensures AddFields(fm, [line]) == AddField(fm, line)
  {
    assert [line][1..] == [];
  }

  lemma TwoFieldLines(fm: map<string, string>, a: string, b: string)
    ensures AddFields(fm, [a, b]) == AddField(AddField(fm, a), b)
  {
    OneField(fm, a);
    OneField(AddField(fm, a), b);
    AddFieldsConcat(fm, [a], [b]);
    assert [a] + [b] == [a, b];
  }

  lemma ThreeFields(name: string, description: string, version: string)
    requires Trimmed(name, SPACES) && Trimmed(description, SPACES) && Trimmed(version, SPACES)
    ensures AddFields(map[], ["name: " + name, "description: " + description, "version: " + version])
         == map["name" := name, "description" := description, "version" := version]
  {
    var a, b, c := "name: " + name, "description: " + description, "version: " + version;
    var m1 := map["name" := name];
    var m2 := m1["description" := description];
    assert a == "name" + ": " + name && b == "description" + ": " + description && c == "version" + ": " + version;
    FieldRead(map[], "name", name);
    FieldRead(m1, "description", description);
    FieldRead(m2, "version", version);
    TwoFieldLines(map[], a, b);
    OneField(m2, c);
    AddFieldsConcat(map[], [a, b], [c]);
    assert [a, b] + [c] == [a, b, c];
  }

  /** The three values are what the map says under their keys. */
  predicate Says(fm: map<string, string>, name: string, description: string, version: string) {
    && "name" in fm && fm["name"] == name && "description" in fm && fm["description"] == description
    && "version" in fm && fm["version"] == version
  }

  lemma OtherLineKeeps(fm: map<string, string>, key: string, value: string, k: string, n: string, d: string, v: string)
    requires Says(fm, n, d, v) && ':' !in key && TrimSpace(key) == k
    requires k != "name" && k != "description" && k != "version"
    ensures Says(AddField(fm, key + ":" + value), n, d, v)
  {
    KeyedLine(fm, key, value, k, TrimSpace(value));
  }

  lemma FixedKeys()
    ensures TrimSpace("metadata") == "metadata" && TrimSpace("  " + "hermes") == "hermes"
    ensures TrimSpace("    " + "category") == "category" && TrimSpace("    " + "tags") == "tags"
  {
    Plain("metadata");
    Plain("hermes");
    Plain("category");
    Plain("tags");
    TrimmedIsFixed("metadata", SPACES);
    Spaced("hermes");
    Spaced("category");
    Spaced("tags");
  }

  lemma Plain(s: string)
    requires s != "" && 'a' <= s[0] <= 'z' && 'a' <= s[|s| - 1] <= 'z'
    ensures Trimmed(s, SPACES)
  {
    assert !IsSpace(s[0]) && !IsSpace(s[|s| - 1]);
  }

  lemma FixedLinesKeep(fm: map<string, string>, n: string, d: string, v: string)
    requires Says(fm, n, d, v)
    ensures Says(AddFields(fm, HERMES_LINES), n, d, v)
  {
    FixedKeys();
    var l1, l2, l3, l4 := HERMES_LINES[0], HERMES_LINES[1], HERMES_LINES[2], HERMES_LINES[3];
    assert l1 == "metadata" + ":" + "" && l2 == ("  " + "hermes") + ":" + "";
    OtherLineKeeps(fm, "metadata", "", "metadata", n, d, v);
    var m1 := AddField(fm, l1);
    OtherLineKeeps(m1, "  " + "hermes", "", "hermes", n, d, v);
    var m2 := AddField(m1, l2);
    LastTwoKeep(m2, n, d, v);
    TwoFieldLines(fm, l1, l2);
    AddFieldsConcat(fm, [l1, l2], [l3, l4]);
    assert [l1, l2] + [l3, l4] == HERMES_LINES;
  }

  lemma LastTwoKeep(fm: map<string, string>, n: string, d: string, v: string)
    requires Says(fm, n, d, v)
    ensures Says(AddFields(fm, [HERMES_LINES[2], HERMES_LINES[3]]), n, d, v)
  {
    CategoryKeeps(fm, n, d, v);
    TagsKeep(AddField(fm, HERMES_LINES[2]), n, d, v);
    TwoFieldLines(fm, HERMES_LINES[2], HERMES_LINES[3]);
  }

  lemma CategoryKeeps(fm: map<string, string>, n: string, d: string, v: string)
    requires Says(fm, n, d, v)
    ensures Says(AddField(fm, HERMES_LINES[2]), n, d, v)
  {
    FixedKeys();
    OtherLineKeeps(fm, "    " + "category", " api", "category", n, d, v);
    assert HERMES_LINES[2] == ("    " + "category") + ":" + " api";
  }

  lemma TagsKeep(fm: map<string, string>, n: string, d: string, v: string)
    requires Says(fm, n, d, v)
    ensures Says(AddField(fm, HERMES_LINES[3]), n, d, v)
  {
    FixedKeys();
    OtherLineKeeps(fm, "    " + "tags", " [jentic, api, broker, cli]", "tags", n, d, v);
    TagsLine();
  }

  lemma TagsLine()
    ensures HERMES_LINES[3] == ("    " + "tags") + ":" + " [jentic, api, broker, cli]"
  {
  }

  lemma HermesFields(name: string, description: string, version: string)
    requires Trimmed(name, SPACES) && Trimmed(description, SPACES) && Trimmed(version, SPACES)
    ensures var lines := ["name: " + name, "description: " + description, "version: " + version] + HERMES_LINES;
            Says(AddFields(map[], lines + [""]), name, description, version)
  {
    var first := ["name: " + name, "description: " + description, "version: " + version];
    ThreeFields(name, description, version);
    FixedLinesKeep(AddFields(map[], first), name, description, version);
    AddFieldsConcat(map[], first, HERMES_LINES);
    AddFieldsConcat(map[], first + HERMES_LINES, [""]);
    OneField(AddFields(map[], first + HERMES_LINES), "");
    IndexAbsent("", ':');
  }

  lemma HermesDescriptionTrimmed(full: string)
    ensures Trimmed(HermesDescription(full), SPACES)
  {
    var sentence := FirstSentence(TrimSpace(full));
    var head, tail := TrimParts(sentence, SPACES);
    var t := TrimSpace(sentence);
    assert !IsSpace('.') && !IsSpace('F');
    if t != "" && |t| <= 59 { assert (t + ".")[0] == t[0]; }
  }

  lemma FieldsAreFenceless(lines: seq<string>)
    requires FieldLines(lines)
    ensures Fenceless(lines)
  {
    forall i | 0 <= i < |lines| ensures '\n' !in lines[i] && lines[i] != "---" {
      assert FieldLine(lines[i]);
    }
  }

  lemma FencedDocument(lines: seq<string>, body: string)
    requires lines != []
    ensures Fenced(lines) + "\n" + body == "---\n" + (Unlines(lines) + ("---" + "\n" + body))
  {
    UnlinesJoin(lines);
    FenceText(Join(lines, "\n"), body);
  }

  lemma FenceText(j: string, body: string)
    ensures "---\n" + j + "\n---" + "\n" + body == "---\n" + ((j + "\n") + ("---" + "\n" + body))
  {
  }

  /** The document printed for the hermes runtime is read back as well, with its version, and with the description cut
      to the short one. */
  lemma HermesParsed(c: Canonical)
    requires Readable(c.(version := "1")) && PlainFront(c) && Trimmed(c.version, SPACES) && AllScannable(DocLines(c))
    ensures Parsed(HermesFrontmatter(c) + RenderBody(c))
         == Ok(c.(description := HermesDescription(c.description), baseURL := "", origin := ""))
  {
    var d := HermesDescription(c.description);
    var lines, body := FrontLines(Hermes, c), RenderBody(c);
    FrontShape(Hermes, c);
    FrontLinesPlain(Hermes, c);
    FieldsAreFenceless(lines);
    FencedDocument(lines, body);
    RenderedStart(c);
    LinesRead(lines, body, Unlines(lines) + ("---" + "\n" + body));
    HermesDescriptionTrimmed(c.description);
    HermesFields(c.name, d, c.version);
    HermesRead(c, d, HermesFrontmatter(c) + body, AddFields(map[], lines + [""]));
  }

  lemma HermesRead(c: Canonical, d: string, src: string, fm: map<string, string>)
    requires Readable(c.(version := "1")) && AllScannable(DocLines(c)) && d != ""
    requires FrontmatterOf(src) == (RenderBody(c), fm) && Says(fm, c.name, d, c.version)
    ensures Parsed(src) == Ok(c.(description := d, baseURL := "", origin := ""))
  {
    var e := c.(description := d);
    PlainIsSectioned(c.steps);
    SectionsOfBody(c);
    StepsReadBack(c);
    BulletsReturn(c.(version := "1"));
    assert Parts(c.(version := "1")) == Parts(c) && RenderBody(e) == RenderBody(c);
    ParsedFrom(e, src, fm);
  }
}
