/** What the parser of `cli/internal/skillgen/bundled.go` can return at all, and so exactly which content survives being
    printed and parsed. */
module SkillReadable {
  import opened Text
  import opened TextLines
  import opened SkillRender
  import opened SkillParse
  import opened SkillRoundTrip

  // ----- lines -----

  /** Newlines trimmed off both ends leave no other lines. */
  lemma TrimmedLines(ls: seq<string>, mark: string)
    requires NewlineFree(ls) && NoHeading(ls, mark) && mark != ""
    ensures NoHeading(Split(Trim(Unlines(ls), NEWLINE), "\n"), mark)
    ensures Trimmed(Trim(Unlines(ls), NEWLINE), NEWLINE)
  {
    var a, core, b := Core(ls);
    assert forall i :: 0 <= i < |core| ==> core[i] == ls[|a| + i];
    TrimUnlines(a, core, b);
    var head, tail := TrimParts(Unlines(ls), NEWLINE);
    if core == [] {
      SplitLast("", '\n');
    } else {
      forall p | p in core ensures '\n' !in p { }
      SplitJoin(core, '\n');
    }
  }

  /** The first pieces, without a carriage return at their end. */
  predicate DroppedPrefix(scanned: seq<string>, pieces: seq<string>) {
    |scanned| <= |pieces| && forall i :: 0 <= i < |scanned| ==> scanned[i] == DropCR(pieces[i])
  }

  lemma DroppedCons(first: string, scanned: seq<string>, pieces: seq<string>)
    requires DroppedPrefix(scanned, pieces)
    ensures DroppedPrefix([DropCR(first)] + scanned, [first] + pieces)
  {
  }

  lemma {:induction false} ScanDrops(s: string)
    ensures DroppedPrefix(ScanLines(s), Split(s, "\n"))
    decreases |s|
  {
    var nl := Index(s, "\n");
    if s != [] && ScanLines(s) != [] {
      if nl < 0 {
        DroppedCons(s, [], []);
      } else {
        ScanDrops(s[nl + 1..]);
        DroppedCons(s[..nl], ScanLines(s[nl + 1..]), Split(s[nl + 1..], "\n"));
      }
    }
  }

  lemma DroppedStart(line: string, mark: string)
    requires !HasPrefix(line, mark)
    ensures !HasPrefix(DropCR(line), mark)
  {
    assert DropCR(line) <= line;
  }

  /** Scanned lines are lines, and have no heading that the text has not. */
  lemma ScanPlain(s: string)
    ensures NewlineFree(ScanLines(s))
  {
    ScanDrops(s);
    SplitPlain(s);
  }

  lemma ScanKeepsNoHeading(s: string, mark: string)
    requires NoHeading(Split(s, "\n"), mark)
    ensures NoHeading(ScanLines(s), mark)
  {
    ScanDrops(s);
    var scanned, pieces := ScanLines(s), Split(s, "\n");
    forall i | 0 <= i < |scanned| ensures !HasPrefix(scanned[i], mark) {
      DroppedStart(pieces[i], mark);
    }
  }

  lemma SplitPlain(s: string)
    ensures NewlineFree(Split(s, "\n"))
  {
    JoinSplit(s, '\n');
    forall i | 0 <= i < |Split(s, "\n")| ensures '\n' !in Split(s, "\n")[i] {
      assert Split(s, "\n")[i] in Split(s, "\n");
    }
  }

  lemma {:induction false} NewlineFreeConcat(a: seq<string>, b: seq<string>)
    requires NewlineFree(a) && NewlineFree(b)
    ensures NewlineFree(a + b)
  {
  }

  // ----- what frontmatter can say -----

  predicate FieldsOk(fm: map<string, string>) {
    forall k :: k in fm ==> '\n' !in fm[k] && Trimmed(fm[k], SPACES)
  }

  lemma {:induction false} FieldsAreOk(fm: map<string, string>, lines: seq<string>)
    requires FieldsOk(fm) && NewlineFree(lines)
    ensures FieldsOk(AddFields(fm, lines))
    decreases |lines|
  {
    if lines != [] {
      FieldIsOk(fm, lines[0]);
      FieldsAreOk(AddField(fm, lines[0]), lines[1..]);
    }
  }

  lemma FieldIsOk(fm: map<string, string>, line: string)
    requires FieldsOk(fm) && '\n' !in line
    ensures FieldsOk(AddField(fm, line))
  {
    match Cut(line, ":")
    case None =>
    case Some((k, v)) =>
      var head, tail := TrimParts(v, SPACES);
      TrimAddsNothing(v, SPACES, '\n');
  }

  lemma FrontmatterOk(src: string)
    ensures FieldsOk(FrontmatterOf(src).1)
  {
    var s := TrimLeft(src, NEWLINE);
    if HasPrefix(s, "---\n") {
      match Fence(s[4..])
      case None =>
      case Some((start, end)) =>
        SplitPlain(s[4..][..start]);
        FieldsAreOk(map[], Split(s[4..][..start], "\n"));
    }
  }

  // ----- what sections can hold -----

  predicate SectionsOk(m: map<string, string>) {
    forall h :: h in m ==> NoHeading(Split(m[h], "\n"), "## ")
  }

  /** A state of the section scanner that has taken the lines `ls` since the last heading. */
  predicate SectionTook(st: SectionState, ls: seq<string>) {
    SectionsOk(st.sections) && st.buf == Unlines(ls) && NewlineFree(ls) && NoHeading(ls, "## ")
  }

  lemma {:induction false} SectionsAreOk(st: SectionState, ls: seq<string>, lines: seq<string>)
    requires SectionTook(st, ls) && NewlineFree(lines)
    ensures SectionsOk(FlushSection(SectionLines(st, lines)))
    decreases |lines|
  {
    TrimmedLines(ls, "## ");
    if lines != [] {
      var line := lines[0];
      if HasPrefix(line, "## ") {
        SectionsAreOk(SectionLine(st, line), [], lines[1..]);
      } else if st.cur != "" {
        LineTaken(ls, line);
        SectionsAreOk(SectionLine(st, line), ls + [line], lines[1..]);
      } else {
        SectionsAreOk(st, ls, lines[1..]);
      }
    }
  }

  lemma LineTaken(ls: seq<string>, line: string)
    ensures Unlines(ls) + line + "\n" == Unlines(ls + [line])
  {
    UnlinesConcat(ls, [line]);
    assert [line][1..] == [];
    assert line + "\n" + "" == line + "\n";
  }

  lemma SectionOk(body: string, heading: string)
    ensures NoHeading(Split(Field(Sections(body), heading, ""), "\n"), "## ")
  {
    ScanPlain(body);
    SectionsAreOk(NO_SECTIONS, [], ScanLines(body));
    SplitLast("", '\n');
  }

  // ----- what bullets and steps can be -----

  lemma {:induction false} BulletsArePlain(out: seq<string>, lines: seq<string>)
    requires NewlineFree(out) && NewlineFree(lines)
    ensures NewlineFree(BulletLines(out, lines))
    decreases |lines|
  {
    if lines != [] {
      BulletIsPlain(out, lines[0]);
      BulletsArePlain(BulletLine(out, lines[0]), lines[1..]);
    }
  }

  lemma BulletIsPlain(out: seq<string>, raw: string)
    requires NewlineFree(out) && '\n' !in raw
    ensures NewlineFree(BulletLine(out, raw))
  {
    var line := TrimRight(raw, BLANK);
    var tail := TrimRightParts(raw, BLANK);
    assert '\n' !in line;
    if HasPrefix(line, "- ") { TrimAddsNothing(line[2..], SPACES, '\n'); }
    TrimAddsNothing(raw, SPACES, '\n');
  }

  lemma BulletsOk(section: string)
    ensures NewlineFree(BulletsOf(section))
  {
    SplitPlain(section);
    BulletsArePlain([], Split(section, "\n"));
  }

  /** A step as the parser returns it. */
  predicate StepOk(s: Step) {
    && '\n' !in s.title && Trimmed(s.body, NEWLINE)
    && NoHeading(Split(s.body, "\n"), "## ") && NoHeading(Split(s.body, "\n"), "### ")
  }

  predicate StepsOk(steps: seq<Step>) {
    forall i :: 0 <= i < |steps| ==> StepOk(steps[i])
  }

  /** A state of the step scanner that has taken the lines `ls` since the last heading. */
  predicate StepTook(st: StepState, ls: seq<string>) {
    && StepsOk(st.steps) && (st.cur.Some? ==> '\n' !in st.cur.value)
    && st.buf == Unlines(ls) && NewlineFree(ls) && NoHeading(ls, "## ") && NoHeading(ls, "### ")
  }

  lemma {:induction false} StepsAreOk(st: StepState, ls: seq<string>, lines: seq<string>)
    requires StepTook(st, ls) && NewlineFree(lines) && NoHeading(lines, "## ")
    ensures StepsOk(FlushStep(StepLines(st, lines)))
    decreases |lines|
  {
    TrimmedLines(ls, "## ");
    TrimmedLines(ls, "### ");
    if lines != [] {
      var line := lines[0];
      if HasPrefix(line, "### ") {
        TitlePlain(line[4..]);
        StepsAreOk(StepLine(st, line), [], lines[1..]);
      } else if st.cur.Some? {
        LineTaken(ls, line);
        StepsAreOk(StepLine(st, line), ls + [line], lines[1..]);
      } else {
        StepsAreOk(st, ls, lines[1..]);
      }
    }
  }

  lemma TitlePlain(h: string)
    requires '\n' !in h
    ensures '\n' !in StepTitle(h)
  {
    TrimAddsNothing(h, SPACES, '\n');
  }

  lemma ParsedStepsOk(section: string)
    requires NoHeading(Split(section, "\n"), "## ")
    ensures StepsOk(StepsOf(section))
  {
    ScanPlain(section);
    ScanKeepsNoHeading(section, "## ");
    StepsAreOk(NO_STEPS, [], ScanLines(section));
  }

  /** Content as the parser returns it: values and bullets are single lines, values are trimmed, and no line of a step's
      body is a heading. */
  predicate ContentOk(c: Canonical) {
    && '\n' !in c.name && Trimmed(c.name, SPACES)
    && '\n' !in c.description && Trimmed(c.description, SPACES) && c.description != ""
    && NewlineFree(c.whenToUse) && NewlineFree(c.prereqs) && NewlineFree(c.quickRef)
    && NewlineFree(c.pitfalls) && NewlineFree(c.verify)
    && StepsOk(c.steps) && c.steps != []
  }

  /** The content comes from these fields and this body. */
  predicate ContentFrom(c: Canonical, fm: map<string, string>, body: string) {
    && c.name == Field(fm, "name", "jentic") && c.description == Field(fm, "description", "") != ""
    && c.version == Field(fm, "version", "1") && c.baseURL == "" && c.origin == ""
    && BulletsFrom(c, Sections(body)) && c.steps == StepsOf(Field(Sections(body), "Procedure", "")) != []
  }

  lemma ParsedParts(src: string, body: string, fm: map<string, string>)
    requires Parsed(src).Ok? && FrontmatterOf(src) == (body, fm)
    ensures ContentFrom(Parsed(src).value, fm, body)
  {
  }

  /** Whatever is parsed, this is what comes out. */
  lemma ParsedIsOk(src: string)
    requires Parsed(src).Ok?
    ensures ContentOk(Parsed(src).value)
  {
    var (body, fm) := FrontmatterOf(src);
    ParsedParts(src, body, fm);
    FrontmatterOk(src);
    FromParts(Parsed(src).value, fm, body);
  }

  lemma FromParts(c: Canonical, fm: map<string, string>, body: string)
    requires ContentFrom(c, fm, body) && FieldsOk(fm)
    ensures ContentOk(c)
  {
    assert "jentic"[0] == 'j' && "jentic"[5] == 'c';
    FromSections(c, Sections(body));
    SectionOk(body, "Procedure");
    ParsedStepsOk(Field(Sections(body), "Procedure", ""));
  }

  lemma FromSections(c: Canonical, m: map<string, string>)
    requires BulletsFrom(c, m)
    ensures NewlineFree(c.whenToUse) && NewlineFree(c.prereqs) && NewlineFree(c.quickRef)
    ensures NewlineFree(c.pitfalls) && NewlineFree(c.verify)
  {
    BulletsOk(Field(m, "When to Use", ""));
    BulletsOk(Field(m, "Prerequisites", ""));
    BulletsOk(Field(m, "Quick Reference", ""));
    BulletsOk(Field(m, "Pitfalls", ""));
    BulletsOk(Field(m, "Verification", ""));
  }

  // ----- what bullets must be to be read back -----

  lemma {:induction false} BulletsGrow(out: seq<string>, items: seq<string>)
    ensures var r := BulletLines(out, ItemLines(items)); out <= r && |r| <= |out| + |items|
    decreases |items|
  {
    if items != [] {
      var added := ItemRead(out, items[0]);
      BulletsGrow(BulletLine(out, "- " + items[0]), items[1..]);
    }
  }

  /** A printed bullet is read trimmed, or not at all. */
  lemma ItemRead(out: seq<string>, item: string) returns (added: seq<string>)
    ensures BulletLine(out, "- " + item) == out + added && |added| <= 1
    ensures added != [] ==> item != "" && Trimmed(added[0], SPACES)
  {
    var raw := "- " + item;
    var line := TrimRight(raw, BLANK);
    assert raw[0] == '-';
    if item == "" {
      TrimRightUnique("-", " ", BLANK);
      assert raw == "-" + " ";
    }
    if HasPrefix(line, "- ") {
      added := [TrimSpace(line[2..])];
      var head, tail := TrimParts(line[2..], SPACES);
    } else {
      added := [];
      assert out + [] == out;
    }
  }

  lemma {:induction false} ItemsExactly(out: seq<string>, items: seq<string>)
    requires NewlineFree(items) && BulletLines(out, ItemLines(items)) == out + items
    ensures PlainBullets(items)
    decreases |items|
  {
    if items != [] {
      var added := ItemRead(out, items[0]);
      BulletsGrow(out + added, items[1..]);
      if added != [] {
        assert (out + items)[|out|] == items[0];
        assert (out + added)[|out|] == added[0];
        AssocItem(out, items[0], items[1..]);
        assert items == [items[0]] + items[1..];
        ItemsExactly(out + added, items[1..]);
      }
    }
  }

  lemma BulletsExactly(c: Canonical, i: nat, heading: string, items: seq<string>)
    requires Sectioned(c.steps) && NewlineFree(items) && i < 6 && Parts(c)[i] == BulletPart(heading, items)
    requires BulletsOf(Field(AddParts(map[], Parts(c)), heading, "")) == items
    ensures PlainBullets(items)
  {
    PartsAreReadable(c);
    Lookup(map[], Parts(c), i);
    if items != [] {
      ItemLinesPlain(items);
      TrimUnlines([""], ItemLines(items), [""]);
      forall p | p in ItemLines(items) ensures '\n' !in p { }
      SplitJoin(ItemLines(items), '\n');
      ItemsExactly([], items);
    }
  }

  lemma ItemLinesPlain(items: seq<string>)
    requires NewlineFree(items)
    ensures NewlineFree(ItemLines(items))
    ensures |ItemLines(items)| == |items|
    ensures items != [] ==> ItemLines(items)[0] != "" && ItemLines(items)[|items| - 1] != ""
  {
    ItemLinesNonEmpty(items);
  }

  // ----- what titles must be -----

  /** A title that is read back is not empty and has no white space at its end. */
  lemma TitleExactly(n: nat, title: string)
    requires '\n' !in title && StepTitle(Decimal(n) + ". " + title) == title
    ensures Titled(title)
  {
    var d := Decimal(n);
    var h := d + ". " + title;
    var head, tail := TrimParts(h, SPACES);
    if title == "" {
      assert d + ". " + "" == d + ". ";
      OrdinalAlone(d);
    } else {
      assert title == StepTitle(h);
      StepTitleEnds(h);
    }
  }

  lemma StepTitleEnds(h: string)
    requires StepTitle(h) != ""
    ensures var t := StepTitle(h); !IsSpace(t[|t| - 1])
  {
    var head, tail := TrimParts(h, SPACES);
    var title := TrimSpace(h);
    var i := Index(title, ". ");
    if i >= 0 {
      assert title[i + 2..] == StepTitle(h);
      assert title[|title| - 1] == StepTitle(h)[|StepTitle(h)| - 1];
    }
  }

  lemma OrdinalAlone(d: string)
    requires d != [] && forall i :: 0 <= i < |d| ==> '0' <= d[i] <= '9'
    ensures StepTitle(d + ". ") != ""
  {
    var o := d + ".";
    assert o[0] == d[0] && IsSpace(' ');
    TrimUnique("", o, " ", SPACES);
    assert "" + o + " " == d + ". ";
    if Index(o, ". ") >= 0 { PointThenSpace(o, Index(o, ". ")); }
  }

  lemma PointThenSpace(s: string, i: nat)
    requires At(s, ". ", i)
    ensures i + 1 < |s| && s[i + 1] == ' '
  {
    assert s[i..i + 2][1] == s[i + 1];
  }

  lemma StepsExactly(steps: seq<Step>)
    requires StepsOk(steps) && RereadSteps(steps) == steps
    ensures PlainSteps(steps)
  {
    forall i | 0 <= i < |steps| ensures PlainStep(steps[i]) {
      assert RereadSteps(steps)[i] == Reread(i + 1, steps[i]);
      TitleExactly(i + 1, steps[i].title);
    }
  }

  // ----- the rendered lines are lines -----

  lemma StepLinesPlain(n: nat, s: Step)
    requires '\n' !in s.title
    ensures NewlineFree(LinesOfStep(n, s))
  {
    SplitPlain(s.body);
    var head := "### " + (Decimal(n) + ". " + s.title);
    assert '\n' !in head;
    NewlineFreeConcat([""], Split(s.body, "\n"));
    NewlineFreeConcat([""] + Split(s.body, "\n"), [""]);
    NewlineFreeConcat([head], [""] + Split(s.body, "\n") + [""]);
  }

  lemma {:induction false} BlocksPlain(steps: seq<Step>, from: nat)
    requires from <= |steps| && forall i :: 0 <= i < |steps| ==> '\n' !in steps[i].title
    ensures NewlineFree(Flatten(StepBlocks(steps, from)))
    decreases |steps| - from
  {
    if from < |steps| {
      StepLinesPlain(from + 1, steps[from]);
      BlocksPlain(steps, from + 1);
      var blocks := StepBlocks(steps, from);
      assert blocks[1..] == StepBlocks(steps, from + 1);
      NewlineFreeConcat(blocks[0], Flatten(blocks[1..]));
    }
  }

  lemma {:induction false} PartLinesPlain(parts: seq<Part>)
    requires forall i :: 0 <= i < |parts| ==> '\n' !in parts[i].heading && NewlineFree(parts[i].lines)
    ensures NewlineFree(PartLines(parts))
    decreases |parts|
  {
    if parts != [] {
      var p := parts[0];
      PartLinesPlain(parts[1..]);
      NewlineFreeConcat(["## " + p.heading], p.lines);
      NewlineFreeConcat(Section(p.heading, p.lines, p.present), PartLines(parts[1..]));
    }
  }

  lemma BulletPartPlain(heading: string, items: seq<string>)
    requires NewlineFree(items)
    ensures NewlineFree(BulletPart(heading, items).lines)
  {
    ItemLinesPlain(items);
    NewlineFreeConcat([""], ItemLines(items));
    NewlineFreeConcat([""] + ItemLines(items), [""]);
  }

  lemma PartsPlain(c: Canonical)
    requires ContentOk(c)
    ensures forall i :: 0 <= i < 6 ==> '\n' !in Parts(c)[i].heading && NewlineFree(Parts(c)[i].lines)
  {
    HeadingsPlain(c);
    BulletPartPlain("When to Use", c.whenToUse);
    BulletPartPlain("Prerequisites", c.prereqs);
    BlocksPlain(c.steps, 0);
    NewlineFreeConcat([""], LinesOfSteps(c.steps));
    BulletPartPlain("Quick Reference", c.quickRef);
    BulletPartPlain("Pitfalls", c.pitfalls);
    BulletPartPlain("Verification", c.verify);
  }

  lemma HeadingsPlain(c: Canonical)
    ensures forall i :: 0 <= i < 6 ==> '\n' !in Parts(c)[i].heading
  {
    FirstHeadings();
    LastHeadings();
  }

  lemma FirstHeadings()
    ensures '\n' !in "When to Use" && '\n' !in "Prerequisites" && '\n' !in "Procedure"
  {
  }

  lemma LastHeadings()
    ensures '\n' !in "Quick Reference" && '\n' !in "Pitfalls" && '\n' !in "Verification"
  {
  }

  lemma HeadingPlain(c: Canonical)
    requires '\n' !in c.name && '\n' !in c.baseURL
    ensures NewlineFree(HeadingLines(c))
  {
    assert '\n' !in "# " + TitleFor(c);
    assert '\n' !in "Jentic control plane: `" + c.baseURL + "`";
  }

  /** The base URL is a line, and no rendered line is too long for the scanner or ends in a carriage return. */
  predicate FitsScanner(c: Canonical) {
    '\n' !in c.baseURL && forall i :: 0 <= i < |DocLines(c)| ==> Fitting(DocLines(c)[i])
  }

  lemma LinesAreScannable(c: Canonical)
    requires ContentOk(c) && FitsScanner(c)
    ensures AllScannable(DocLines(c))
  {
    HeadingPlain(c);
    PartsPlain(c);
    PartLinesPlain(Parts(c));
    NewlineFreeConcat(HeadingLines(c), PartLines(Parts(c)));
  }

  // ----- exactly which content survives -----

  lemma ReadableIsOk(c: Canonical)
    requires Readable(c)
    ensures ContentOk(c)
  {
  }

  lemma AllBulletsExactly(c: Canonical)
    requires ContentOk(c) && Sectioned(c.steps) && BulletsFrom(c, AddParts(map[], Parts(c)))
    ensures PlainBullets(c.whenToUse) && PlainBullets(c.prereqs) && PlainBullets(c.quickRef)
    ensures PlainBullets(c.pitfalls) && PlainBullets(c.verify)
  {
    BulletsExactly(c, 0, "When to Use", c.whenToUse);
    BulletsExactly(c, 1, "Prerequisites", c.prereqs);
    BulletsExactly(c, 3, "Quick Reference", c.quickRef);
    BulletsExactly(c, 4, "Pitfalls", c.pitfalls);
    BulletsExactly(c, 5, "Verification", c.verify);
  }

  /** Parsing undoes printing exactly for readable content, as long as the scanner takes its lines. */
  lemma ParseRenderedExactly(c: Canonical)
    requires FitsScanner(c)
    ensures Parsed(DirSkillFrontmatter(c) + RenderBody(c)) == Ok(c.(baseURL := "", origin := "")) <==> Readable(c)
  {
    if Readable(c) {
      ReadableIsOk(c);
      LinesAreScannable(c);
      ParseRendered(c);
    }
    if Parsed(DirSkillFrontmatter(c) + RenderBody(c)) == Ok(c.(baseURL := "", origin := "")) {
      ParsedIsOk(DirSkillFrontmatter(c) + RenderBody(c));
      LinesAreScannable(c);
      SurvivorIsReadable(c);
    }
  }

  lemma SurvivorIsReadable(c: Canonical)
    requires ContentOk(c) && AllScannable(DocLines(c))
    requires Parsed(DirSkillFrontmatter(c) + RenderBody(c)) == Ok(c.(baseURL := "", origin := ""))
    ensures Readable(c)
  {
    RenderedStart(c);
    FrontmatterRead(c, RenderBody(c));
    WhatIsRead(c, DirSkillFrontmatter(c) + RenderBody(c));
    ReadBackIsReadable(c);
  }

  lemma WhatIsRead(c: Canonical, src: string)
    requires FrontmatterOf(src) == (RenderBody(c), map["name" := c.name, "description" := c.description])
    requires Parsed(src) == Ok(c.(baseURL := "", origin := ""))
    ensures c.version == "1" && StepsOf(Field(Sections(RenderBody(c)), "Procedure", "")) == c.steps
    ensures BulletsFrom(c, Sections(RenderBody(c)))
  {
    ParsedParts(src, RenderBody(c), map["name" := c.name, "description" := c.description]);
  }

  lemma ReadBackIsReadable(c: Canonical)
    requires ContentOk(c) && AllScannable(DocLines(c)) && c.version == "1"
    requires StepsOf(Field(Sections(RenderBody(c)), "Procedure", "")) == c.steps
    requires BulletsFrom(c, Sections(RenderBody(c)))
    ensures Readable(c)
  {
    OkSteps(c.steps);
    SectionsOfBody(c);
    ProcedureReadBack(c);
    AllBulletsExactly(c);
    StepsExactly(c.steps);
  }

  lemma OkSteps(steps: seq<Step>)
    requires StepsOk(steps)
    ensures Sectioned(steps) && Separate(steps)
  {
  }

  /** The parser itself returns bullets and titles that do not survive. */
  lemma ParserCanReturnMore()
    ensures BulletsOf("- a" + "\n" + "  ") == ["a" + " "] && !Chunk("a" + " ")
    ensures StepsOf("### " + "\n") == [Step("", "")] && !Titled("")
  {
    assert IsSpace(' ');
    BlankContinuation();
    BlankTitle();
  }

  lemma BlankContinuation()
    ensures BulletsOf("- a" + "\n" + "  ") == ["a" + " "]
  {
    SplitCons("- a", '\n', "  ");
    SplitLast("  ", '\n');
    FirstChunkLine([], "a");
    assert "- " + "a" == "- a";
    BlankLine("a");
    TwoLinesRead("- a", "  ");
    assert ["- a"] + ["  "] == ["- a", "  "] && [] + ["a"] == ["a"];
  }

  lemma TwoLinesRead(a: string, b: string)
    ensures BulletLines([], [a, b]) == BulletLine(BulletLine([], a), b)
  {
    OneLineRead([], a);
    OneLineRead(BulletLine([], a), b);
    BulletLinesConcat([], [a], [b]);
    assert [a] + [b] == [a, b];
  }

  lemma OneLineRead(out: seq<string>, line: string)
    ensures BulletLines(out, [line]) == BulletLine(out, line)
  {
    assert [line][1..] == [];
  }

  lemma BlankLine(item: string)
    ensures BulletLine([item], "  ") == [item + " "]
  {
    TrimRightUnique("", "  ", BLANK);
    assert IsSpace(' ');
    TrimUnique("", "", "  ", SPACES);
    assert "" + "  " == "  " && "" + "" + "  " == "  ";
    assert item + " " + "" == item + " ";
  }

  lemma BlankTitle()
    ensures StepsOf("### " + "\n") == [Step("", "")]
  {
    ScanUnlines(["### "]);
    assert ["### "][1..] == [] && Unlines(["### "]) == "### " + "\n";
    assert "### "[4..] == "";
    assert StepTitle("") == "";
  }
}
