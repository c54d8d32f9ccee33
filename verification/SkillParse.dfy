/** Reading the canonical skill back from Markdown, `cli/internal/skillgen/bundled.go`. Each scanner is a
    loop over lines; its specification folds one line at a time into the scanner's state. */
module SkillParse {
  import opened Text
  import opened TextLines
  import opened SkillRender

  // ----- frontmatter -----

  /** Every line but the last with its newline. */
  function WithNewlines(lines: seq<string>): seq<string> {
    if |lines| <= 1 then lines else [lines[0] + "\n"] + WithNewlines(lines[1..])
  }

  /** `strings.SplitAfter` at newlines. */
  function SplitAfter(s: string): seq<string> {
    WithNewlines(Split(s, "\n"))
  }

  function TotalLength(pieces: seq<string>): nat {
    if pieces == [] then 0 else |pieces[0]| + TotalLength(pieces[1..])
  }

  lemma {:induction false} LengthOfJoin(lines: seq<string>)
    requires lines != []
    ensures TotalLength(WithNewlines(lines)) == |Join(lines, "\n")|
    decreases |lines|
  {
    if |lines| == 1 {
      assert TotalLength(lines[1..]) == 0;
    } else {
      LengthOfJoin(lines[1..]);
      assert WithNewlines(lines)[1..] == WithNewlines(lines[1..]);
    }
  }

  lemma LengthOfPieces(s: string)
    ensures TotalLength(SplitAfter(s)) == |s|
  {
    LengthOfJoin(Split(s, "\n"));
    JoinSplit(s, '\n');
  }

  /** The first piece that is exactly `---` but for its line end: where it starts and where it ends. */
  function FenceIn(pieces: seq<string>, offset: nat): (r: Option<(nat, nat)>)
    ensures r.Some? ==> r.value.0 <= r.value.1 <= offset + TotalLength(pieces)
    decreases |pieces|
  {
    if pieces == [] then None
    else if TrimRight(pieces[0], NEWLINE) == "---" then Some((offset, offset + |pieces[0]|))
    else FenceIn(pieces[1..], offset + |pieces[0]|)
  }

  function Fence(s: string): (r: Option<(nat, nat)>)
    ensures r.Some? ==> r.value.0 <= r.value.1 <= |s|
  {
    LengthOfPieces(s);
    FenceIn(SplitAfter(s), 0)
  }

  method ClosingFence(s: string) returns (r: Option<(nat, nat)>)
    ensures r == Fence(s)
  {
    var offset := 0;
    var pieces := SplitAfter(s);
    for i := 0 to |pieces|
      invariant offset >= 0 && FenceIn(pieces[i..], offset) == FenceIn(pieces, 0)
    {
      var line := pieces[i];
      assert pieces[i..][1..] == pieces[i + 1..];
      if TrimRight(line, NEWLINE) == "---" {
        return Some((offset, offset + |line|));
      }
      offset := offset + |line|;
    }
    return None;
  }

  function AddField(fm: map<string, string>, line: string): map<string, string> {
    match Cut(line, ":")
    case None => fm
    case Some((k, v)) => fm[TrimSpace(k) := TrimSpace(v)]
  }

  function AddFields(fm: map<string, string>, lines: seq<string>): map<string, string>
    decreases |lines|
  {
    if lines == [] then fm else AddFields(AddField(fm, lines[0]), lines[1..])
  }

  /** Body and fields; the whole source is body when there is no closed frontmatter. */
  function FrontmatterOf(src: string): (string, map<string, string>) {
    var s := TrimLeft(src, NEWLINE);
    if !HasPrefix(s, "---\n") then (src, map[])
    else
      var rest := s[4..];
      match Fence(rest)
      case None => (src, map[])
      case Some((start, end)) =>
        (TrimLeft(rest[end..], NEWLINE), AddFields(map[], Split(rest[..start], "\n")))
  }

  method SplitFrontmatter(src: string) returns (body: string, fm: map<string, string>)
    ensures (body, fm) == FrontmatterOf(src)
  {
    fm := map[];
    var s := TrimLeft(src, NEWLINE);
    if !HasPrefix(s, "---\n") {
      return src, fm;
    }
    var rest := s[4..];
    var fence := ClosingFence(rest);
    match fence
    case None =>
      body := src;
    case Some((start, end)) =>
      var lines := Split(rest[..start], "\n");
      for i := 0 to |lines|
        invariant AddFields(fm, lines[i..]) == AddFields(map[], lines)
      {
        assert lines[i..][1..] == lines[i + 1..];
        fm := AddField(fm, lines[i]);
      }
      body := TrimLeft(rest[end..], NEWLINE);
  }

  // ----- sections -----

  datatype SectionState = SectionState(sections: map<string, string>, cur: string, buf: string)

  const NO_SECTIONS := SectionState(map[], "", "")

  function FlushSection(st: SectionState): map<string, string> {
    if st.cur == "" then st.sections else st.sections[st.cur := Trim(st.buf, NEWLINE)]
  }

  function SectionLine(st: SectionState, line: string): SectionState {
    if HasPrefix(line, "## ") then SectionState(FlushSection(st), TrimSpace(line[3..]), "")
    else if st.cur != "" then st.(buf := st.buf + line + "\n")
    else st
  }

  function SectionLines(st: SectionState, lines: seq<string>): SectionState
    decreases |lines|
  {
    if lines == [] then st else SectionLines(SectionLine(st, lines[0]), lines[1..])
  }

  function Sections(body: string): map<string, string> {
    FlushSection(SectionLines(NO_SECTIONS, ScanLines(body)))
  }

  method SplitSections(body: string) returns (sections: map<string, string>)
    ensures sections == Sections(body)
  {
    sections := map[];
    var cur, buf := "", "";
    var lines := ScanLines(body);
    for i := 0 to |lines|
      invariant SectionLines(SectionState(sections, cur, buf), lines[i..]) == SectionLines(NO_SECTIONS, lines)
    {
      var line := lines[i];
      assert lines[i..][1..] == lines[i + 1..];
      if HasPrefix(line, "## ") {
        if cur != "" {
          sections := sections[cur := Trim(buf, NEWLINE)];
        }
        buf := "";
        cur := TrimSpace(line[3..]);
      } else if cur != "" {
        buf := buf + line + "\n";
      }
    }
    if cur != "" {
      sections := sections[cur := Trim(buf, NEWLINE)];
    }
  }

  // ----- bullets -----

  function BulletLine(out: seq<string>, raw: string): seq<string> {
    var line := TrimRight(raw, BLANK);
    if HasPrefix(line, "- ") then out + [TrimSpace(line[2..])]
    else if out != [] && HasPrefix(raw, "  ")
    then out[|out| - 1 := out[|out| - 1] + " " + TrimSpace(raw)]
    else out
  }

  function BulletLines(out: seq<string>, lines: seq<string>): seq<string>
    decreases |lines|
  {
    if lines == [] then out else BulletLines(BulletLine(out, lines[0]), lines[1..])
  }

  function BulletsOf(section: string): seq<string> {
    BulletLines([], Split(section, "\n"))
  }

  method Bullets(section: string) returns (out: seq<string>)
    ensures out == BulletsOf(section)
  {
    out := [];
    var lines := Split(section, "\n");
    for i := 0 to |lines|
      invariant BulletLines(out, lines[i..]) == BulletLines([], lines)
    {
      assert lines[i..][1..] == lines[i + 1..];
      var raw := lines[i];
      var line := TrimRight(raw, BLANK);
      if HasPrefix(line, "- ") {
        out := out + [TrimSpace(line[2..])];
      } else if |out| > 0 && HasPrefix(raw, "  ") {
        out := out[|out| - 1 := out[|out| - 1] + " " + TrimSpace(raw)];
      }
    }
  }

  // ----- steps -----

  datatype StepState = StepState(steps: seq<Step>, cur: Option<string>, buf: string)

  const NO_STEPS := StepState([], None, "")

  function FlushStep(st: StepState): seq<Step> {
    match st.cur
    case None => st.steps
    case Some(title) => st.steps + [Step(title, Trim(st.buf, NEWLINE))]
  }

  /** A heading without its leading ordinal. */
  function StepTitle(h: string): string {
    var title := TrimSpace(h);
    match Cut(title, ". ")
    case None => title
    case Some((_, after)) => after
  }

  function StepLine(st: StepState, line: string): StepState {
    if HasPrefix(line, "### ") then StepState(FlushStep(st), Some(StepTitle(line[4..])), "")
    else if st.cur.Some? then st.(buf := st.buf + line + "\n")
    else st
  }

  function StepLines(st: StepState, lines: seq<string>): StepState
    decreases |lines|
  {
    if lines == [] then st else StepLines(StepLine(st, lines[0]), lines[1..])
  }

  function StepsOf(section: string): seq<Step> {
    FlushStep(StepLines(NO_STEPS, ScanLines(section)))
  }

  method ParseSteps(section: string) returns (steps: seq<Step>)
    ensures steps == StepsOf(section)
  {
    steps := [];
    var cur: Option<string> := None;
    var buf := "";
    var lines := ScanLines(section);
    for i := 0 to |lines|
      invariant StepLines(StepState(steps, cur, buf), lines[i..]) == StepLines(NO_STEPS, lines)
    {
      var line := lines[i];
      assert lines[i..][1..] == lines[i + 1..];
      if HasPrefix(line, "### ") {
        if cur.Some? {
          steps := steps + [Step(cur.value, Trim(buf, NEWLINE))];
        }
        buf := "";
        cur := Some(StepTitle(line[4..]));
      } else if cur.Some? {
        buf := buf + line + "\n";
      }
    }
    if cur.Some? {
      steps := steps + [Step(cur.value, Trim(buf, NEWLINE))];
    }
  }

  // ----- the whole document -----

  function Field(fm: map<string, string>, key: string, otherwise: string): string {
    if key in fm then fm[key] else otherwise
  }

  function Parsed(src: string): Result<Canonical> {
    var (body, fm) := FrontmatterOf(src);
    var sections := Sections(body);
    var c := Canonical(
      Field(fm, "name", "jentic"),
      Field(fm, "description", ""),
      Field(fm, "version", "1"),
      BulletsOf(Field(sections, "When to Use", "")),
      BulletsOf(Field(sections, "Prerequisites", "")),
      StepsOf(Field(sections, "Procedure", "")),
      BulletsOf(Field(sections, "Quick Reference", "")),
      BulletsOf(Field(sections, "Pitfalls", "")),
      BulletsOf(Field(sections, "Verification", "")),
      "",
      "");
    if c.description == "" then Err("missing description in frontmatter")
    else if c.steps == [] then Err("no procedure steps found")
    else Ok(c)
  }

  method ParseCanonical(src: string) returns (r: Result<Canonical>)
    ensures r == Parsed(src)
  {
    var body, fm := SplitFrontmatter(src);
    var name := Field(fm, "name", "jentic");
    var description := Field(fm, "description", "");
    var version := Field(fm, "version", "1");
    var sections := SplitSections(body);
    var whenToUse := Bullets(Field(sections, "When to Use", ""));
    var prereqs := Bullets(Field(sections, "Prerequisites", ""));
    var quickRef := Bullets(Field(sections, "Quick Reference", ""));
    var pitfalls := Bullets(Field(sections, "Pitfalls", ""));
    var verify := Bullets(Field(sections, "Verification", ""));
    var steps := ParseSteps(Field(sections, "Procedure", ""));
    if description == "" {
      return Err("missing description in frontmatter");
    }
    if steps == [] {
      return Err("no procedure steps found");
    }
    return Ok(Canonical(name, description, version, whenToUse, prereqs, steps, quickRef, pitfalls, verify, "", ""));
  }
}
