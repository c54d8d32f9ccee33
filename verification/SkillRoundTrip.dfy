/** Parsing a rendered skill gives back the skill. */
module SkillRoundTrip {
  import opened Text
  import opened TextLines
  import opened SkillRender
  import opened SkillParse

  // ----- bullets -----

  /** A piece of a bullet that fits on one line: not empty, no white space at its ends. */
  predicate Chunk(s: string) {
    s != "" && '\n' !in s && Trimmed(s, SPACES)
  }

  predicate Chunks(pieces: seq<string>) {
    pieces != [] && forall i :: 0 <= i < |pieces| ==> Chunk(pieces[i])
  }

  predicate AllChunks(items: seq<seq<string>>) {
    forall i :: 0 <= i < |items| ==> Chunks(items[i])
  }

  /** The pieces on lines of their own, indented by two spaces. */
  function Wraps(pieces: seq<string>): seq<string> {
    if pieces == [] then [] else ["  " + pieces[0]] + Wraps(pieces[1..])
  }

  function WrappedBullet(pieces: seq<string>): seq<string>
    requires pieces != []
  {
    ["- " + pieces[0]] + Wraps(pieces[1..])
  }

  function WrappedBullets(items: seq<seq<string>>): seq<string>
    requires AllChunks(items)
  {
    if items == [] then [] else WrappedBullet(items[0]) + WrappedBullets(items[1..])
  }

  function Unwrapped(items: seq<seq<string>>): seq<string> {
    if items == [] then [] else [Join(items[0], " ")] + Unwrapped(items[1..])
  }

  lemma {:induction false} BulletLinesConcat(out: seq<string>, a: seq<string>, b: seq<string>)
    ensures BulletLines(out, a + b) == BulletLines(BulletLines(out, a), b)
    decreases |a|
  {
    if a == [] {
      assert a + b == b;
    } else {
      BulletLinesConcat(BulletLine(out, a[0]), a[1..], b);
      ConcatTail(a, b);
    }
  }

  lemma ConcatTail(a: seq<string>, b: seq<string>)
    requires a != []
    ensures (a + b)[0] == a[0] && (a + b)[1..] == a[1..] + b
  {
  }

  lemma ChunkEnds(prefix: string, s: string)
    requires Chunk(s)
    ensures TrimRight(prefix + s, BLANK) == prefix + s
    ensures TrimSpace(s) == s
  {
    var t := prefix + s;
    assert t[|t| - 1] == s[|s| - 1];
    assert IsSpace(' ');
    TrimmedIsFixed(s, SPACES);
  }

  lemma FirstChunkLine(out: seq<string>, s: string)
    requires Chunk(s)
    ensures BulletLine(out, "- " + s) == out + [s]
  {
    ChunkEnds("- ", s);
    assert ("- " + s)[2..] == s;
  }

  lemma WrapLine(out: seq<string>, s: string)
    requires Chunk(s) && out != []
    ensures BulletLine(out, "  " + s) == out[..|out| - 1] + [out[|out| - 1] + " " + s]
  {
    var raw := "  " + s;
    ChunkEnds("  ", s);
    assert raw[0] == ' ';
    assert IsSpace(' ');
    TrimUnique("  ", s, "", SPACES);
    assert "  " + s + "" == raw;
  }

  lemma {:induction false} WrapLines(out: seq<string>, pieces: seq<string>)
    requires out != [] && forall i :: 0 <= i < |pieces| ==> Chunk(pieces[i])
    ensures BulletLines(out, Wraps(pieces))
         == out[..|out| - 1] + [Join([out[|out| - 1]] + pieces, " ")]
    decreases |pieces|
  {
    var last := out[|out| - 1];
    if pieces == [] {
      assert [last] + pieces == [last];
      assert out == out[..|out| - 1] + [last];
    } else {
      var out' := out[..|out| - 1] + [last + " " + pieces[0]];
      WrapLine(out, pieces[0]);
      WrapLines(out', pieces[1..]);
      assert Wraps(pieces)[1..] == Wraps(pieces[1..]);
      JoinHead(last, pieces);
    }
  }

  lemma Regroup(a: string, b: string, c: string, d: string, e: string)
    ensures a + b + (c + d + e) == a + b + c + d + e
  {
  }

  lemma JoinHead(a: string, rest: seq<string>)
    requires rest != []
    ensures Join([a] + rest, " ") == Join([a + " " + rest[0]] + rest[1..], " ")
  {
    var l := [a] + rest;
    var r := [a + " " + rest[0]] + rest[1..];
    assert l[1..] == rest && r[1..] == rest[1..];
    if |rest| > 1 { Regroup(a, " ", rest[0], " ", Join(rest[1..], " ")); }
  }

  lemma WrappedBulletLines(out: seq<string>, pieces: seq<string>)
    requires Chunks(pieces)
    ensures BulletLines(out, WrappedBullet(pieces)) == out + [Join(pieces, " ")]
  {
    var lines := WrappedBullet(pieces);
    FirstChunkLine(out, pieces[0]);
    assert lines[1..] == Wraps(pieces[1..]);
    var out' := out + [pieces[0]];
    WrapLines(out', pieces[1..]);
    assert out'[..|out'| - 1] == out;
    assert [pieces[0]] + pieces[1..] == pieces;
  }

  lemma AssocItem<T>(out: seq<T>, item: T, rest: seq<T>)
    ensures out + [item] + rest == out + ([item] + rest)
  {
  }

  lemma {:induction false} WrappedBulletsLines(out: seq<string>, items: seq<seq<string>>)
    requires AllChunks(items)
    ensures BulletLines(out, WrappedBullets(items)) == out + Unwrapped(items)
    decreases |items|
  {
    if items == [] {
      assert out + [] == out;
    } else {
      BulletLinesConcat(out, WrappedBullet(items[0]), WrappedBullets(items[1..]));
      WrappedBulletLines(out, items[0]);
      WrappedBulletsLines(out + [Join(items[0], " ")], items[1..]);
      AssocItem(out, Join(items[0], " "), Unwrapped(items[1..]));
    }
  }

  lemma {:induction false} WrapsPlain(pieces: seq<string>)
    requires forall i :: 0 <= i < |pieces| ==> Chunk(pieces[i])
    ensures NewlineFree(Wraps(pieces))
    decreases |pieces|
  {
    if pieces != [] { WrapsPlain(pieces[1..]); }
  }

  lemma {:induction false} WrappedPlain(items: seq<seq<string>>)
    requires AllChunks(items)
    ensures NewlineFree(WrappedBullets(items))
    ensures items != [] ==> WrappedBullets(items) != []
    decreases |items|
  {
    if items != [] {
      WrapsPlain(items[0][1..]);
      WrappedPlain(items[1..]);
    }
  }

  /** Bullets wrapped over indented lines, at any of their spaces, read like the bullets themselves. */
  lemma BulletsUnwrap(items: seq<seq<string>>)
    requires AllChunks(items)
    ensures BulletsOf(Join(WrappedBullets(items), "\n")) == Unwrapped(items)
  {
    if items == [] {
      SplitLast("", '\n');
      assert BulletLines([], [""]) == BulletLines([], []);
    } else {
      WrappedPlain(items);
      var lines := WrappedBullets(items);
      forall p | p in lines ensures '\n' !in p { }
      SplitJoin(lines, '\n');
      WrappedBulletsLines([], items);
    }
  }

  // ----- bullet sections as printed -----

  /** Every item as a single piece. */
  function Singles(items: seq<string>): seq<seq<string>> {
    seq(|items|, i requires 0 <= i < |items| => [items[i]])
  }

  /** The lines under a printed bullet heading, up to the blank line at the end. */
  function ItemLines(items: seq<string>): seq<string> {
    if items == [] then [] else ["- " + items[0]] + ItemLines(items[1..])
  }

  lemma {:induction false} SinglesAreItems(items: seq<string>)
    requires forall i :: 0 <= i < |items| ==> Chunk(items[i])
    ensures AllChunks(Singles(items))
    ensures WrappedBullets(Singles(items)) == ItemLines(items) && Unwrapped(Singles(items)) == items
    decreases |items|
  {
    if items != [] {
      SinglesAreItems(items[1..]);
      var l := Singles(items);
      assert l[1..] == Singles(items[1..]);
      assert WrappedBullet(l[0]) == ["- " + items[0]];
      assert items == [items[0]] + items[1..];
    }
  }

  lemma {:induction false} ItemText(items: seq<string>)
    ensures Unlines(ItemLines(items)) == BulletText(items)
    decreases |items|
  {
    if items != [] {
      ItemText(items[1..]);
      assert ItemLines(items)[1..] == ItemLines(items[1..]);
    }
  }

  lemma {:induction false} ItemLinesNonEmpty(items: seq<string>)
    ensures |ItemLines(items)| == |items|
    ensures forall i :: 0 <= i < |items| ==> ItemLines(items)[i] == "- " + items[i]
    decreases |items|
  {
    if items != [] { ItemLinesNonEmpty(items[1..]); }
  }

  /** What `bullets` reads from the text under a printed bullet heading. */
  lemma BulletSectionRead(items: seq<string>)
    requires items != [] && forall i :: 0 <= i < |items| ==> Chunk(items[i])
    ensures BulletsOf(Trim(Unlines([""] + ItemLines(items) + [""]), NEWLINE)) == items
  {
    ItemsRead(items);
    ItemLinesNonEmpty(items);
    TrimUnlines([""], ItemLines(items), [""]);
  }

  lemma ItemsRead(items: seq<string>)
    requires forall i :: 0 <= i < |items| ==> Chunk(items[i])
    ensures NewlineFree(ItemLines(items))
    ensures BulletsOf(Join(ItemLines(items), "\n")) == items
  {
    SinglesAreItems(items);
    WrappedPlain(Singles(items));
    BulletsUnwrap(Singles(items));
  }

  // ----- sections -----

  lemma {:induction false} SectionLinesConcat(st: SectionState, a: seq<string>, b: seq<string>)
    ensures SectionLines(st, a + b) == SectionLines(SectionLines(st, a), b)
    decreases |a|
  {
    if a == [] {
      assert a + b == b;
    } else {
      SectionLinesConcat(SectionLine(st, a[0]), a[1..], b);
      assert (a + b)[1..] == a[1..] + b;
    }
  }

  predicate NoHeading(lines: seq<string>, mark: string) {
    forall i :: 0 <= i < |lines| ==> !HasPrefix(lines[i], mark)
  }

  lemma {:induction false} SectionBody(st: SectionState, lines: seq<string>)
    requires NoHeading(lines, "## ")
    ensures SectionLines(st, lines)
         == if st.cur == "" then st else st.(buf := st.buf + Unlines(lines))
    decreases |lines|
  {
    if lines == [] {
      assert st.buf + "" == st.buf;
    } else {
      SectionBody(SectionLine(st, lines[0]), lines[1..]);
      AssocLine(st.buf, lines[0], Unlines(lines[1..]));
    }
  }

  lemma AssocLine(buf: string, line: string, rest: string)
    ensures buf + line + "\n" + rest == buf + (line + "\n" + rest)
  {
  }

  /** A printed section: its heading and the lines under it; nothing when it is absent. */
  function Section(heading: string, lines: seq<string>, present: bool): seq<string> {
    if present then ["## " + heading] + lines else []
  }

  function WithSection(m: map<string, string>, heading: string, lines: seq<string>, present: bool):
    map<string, string>
  {
    if present then m[heading := Trim(Unlines(lines), NEWLINE)] else m
  }

  predicate IsHeading(h: string) {
    h != "" && Trimmed(h, SPACES)
  }

  /** Reading one more section adds it to the map and touches nothing else. */
  lemma SectionRead(st: SectionState, heading: string, lines: seq<string>, present: bool)
    requires IsHeading(heading) && NoHeading(lines, "## ")
    ensures FlushSection(SectionLines(st, Section(heading, lines, present)))
         == WithSection(FlushSection(st), heading, lines, present)
  {
    if present {
      var all := Section(heading, lines, present);
      var first := "## " + heading;
      assert first[3..] == heading;
      TrimmedIsFixed(heading, SPACES);
      assert all[1..] == lines;
      SectionBody(SectionState(FlushSection(st), heading, ""), lines);
      assert "" + Unlines(lines) == Unlines(lines);
    }
  }

  /** White space around a heading does not count. */
  lemma HeadingIsTrimmed(st: SectionState, h: string)
    ensures SectionLine(st, "## " + h) == SectionLine(st, "## " + TrimSpace(h))
  {
    var head, tail := TrimParts(h, SPACES);
    assert ("## " + h)[3..] == h && ("## " + TrimSpace(h))[3..] == TrimSpace(h);
    TrimmedIsFixed(TrimSpace(h), SPACES);
  }

  /** Blank lines at the end of a document do not matter. */
  lemma TrailingBlanks(st: SectionState, blanks: seq<string>)
    requires Blank(blanks)
    ensures FlushSection(SectionLines(st, blanks)) == FlushSection(st)
  {
    SectionBody(st, blanks);
    UnlinesBlank(blanks);
    TrimIgnoresPadding("", st.buf, Unlines(blanks), NEWLINE);
    assert "" + st.buf + Unlines(blanks) == st.buf + Unlines(blanks);
  }

  // ----- steps -----

  lemma {:induction false} StepLinesConcat(st: StepState, a: seq<string>, b: seq<string>)
    ensures StepLines(st, a + b) == StepLines(StepLines(st, a), b)
    decreases |a|
  {
    if a == [] {
      assert a + b == b;
    } else {
      StepLinesConcat(StepLine(st, a[0]), a[1..], b);
      assert (a + b)[1..] == a[1..] + b;
    }
  }

  lemma {:induction false} StepBody(st: StepState, lines: seq<string>)
    requires NoHeading(lines, "### ")
    ensures StepLines(st, lines) == if st.cur.None? then st else st.(buf := st.buf + Unlines(lines))
    decreases |lines|
  {
    if lines == [] {
      assert st.buf + "" == st.buf;
    } else {
      StepBody(StepLine(st, lines[0]), lines[1..]);
      AssocLine(st.buf, lines[0], Unlines(lines[1..]));
    }
  }

  /** A title that can be told from the ordinal in front of it: not empty, no white space at its end. */
  predicate Titled(title: string) {
    title != "" && '\n' !in title && !IsSpace(title[|title| - 1])
  }

  /** An ordinal in front of a title is taken off. */
  lemma OrdinalIsCut(ordinal: string, title: string)
    requires Titled(title) && ordinal != "" && !IsSpace(ordinal[0]) && '.' !in ordinal
    ensures StepTitle(ordinal + ". " + title) == title
  {
    var h := ordinal + ". " + title;
    assert h[0] == ordinal[0] && h[|h| - 1] == title[|title| - 1];
    TrimmedIsFixed(h, SPACES);
    assert h[|ordinal|..|ordinal| + 2] == ". ";
    IndexLeast(h, ". ", |ordinal|);
    var i := Index(h, ". ");
    assert h[i] == h[i..i + 2][0];
    assert h[|ordinal| + 2..] == title;
  }

  /** The ordinal in front of a printed title is taken off again. */
  lemma StepTitleRead(n: nat, title: string)
    requires Titled(title)
    ensures StepTitle(Decimal(n) + ". " + title) == title
  {
    OrdinalIsCut(Decimal(n), title);
  }

  function LinesOfStep(n: nat, s: Step): seq<string> {
    ["### " + (Decimal(n) + ". " + s.title)] + ([""] + Split(s.body, "\n") + [""])
  }

  /** A step that is told apart from its neighbours when it is printed. */
  predicate PlainStep(s: Step) {
    && Titled(s.title) && Trimmed(s.body, NEWLINE)
    && NoHeading(Split(s.body, "\n"), "## ") && NoHeading(Split(s.body, "\n"), "### ")
  }

  lemma BodyText(body: string)
    ensures Unlines([""] + Split(body, "\n") + [""]) == "\n" + (body + "\n") + "\n"
  {
    UnlinesConcat([""] + Split(body, "\n"), [""]);
    UnlinesConcat([""], Split(body, "\n"));
    UnlinesSplit(body);
  }

  /** No newline at the end of a step's body. */
  predicate EndsClean(s: Step) {
    s.body != "" ==> s.body[|s.body| - 1] != '\n'
  }

  predicate AllEndClean(steps: seq<Step>) {
    forall i :: 0 <= i < |steps| ==> EndsClean(steps[i])
  }

  lemma LinesOfStepText(n: nat, s: Step)
    requires EndsClean(s)
    ensures Unlines(LinesOfStep(n, s)) == StepText(n, s)
  {
    var head := "### " + (Decimal(n) + ". " + s.title);
    var rest := [""] + Split(s.body, "\n") + [""];
    assert LinesOfStep(n, s)[1..] == rest;
    BodyText(s.body);
    TrimRightUnique(s.body, "", NEWLINE);
    assert s.body + "" == s.body;
    StepTextShape("### ", Decimal(n), ". ", s.title, s.body);
  }

  lemma StepTextShape(a: string, d: string, b: string, title: string, body: string)
    ensures (a + (d + b + title)) + "\n" + ("\n" + (body + "\n") + "\n")
         == a + d + b + title + "\n\n" + body + "\n\n"
  {
  }

  lemma StepReadLines(st: StepState, h: string, title: string, rest: seq<string>, body: string)
    requires StepTitle(h) == title && NoHeading(rest, "### ")
    requires Unlines(rest) == "\n" + (body + "\n") + "\n" && Trimmed(body, NEWLINE)
    ensures FlushStep(StepLines(st, ["### " + h] + rest)) == FlushStep(st) + [Step(title, body)]
  {
    var lines := ["### " + h] + rest;
    assert lines[0][4..] == h && lines[1..] == rest;
    StepBody(StepState(FlushStep(st), Some(title), ""), rest);
    assert "" + Unlines(rest) == Unlines(rest);
    TrimPadded("\n", body, "\n");
  }

  /** Reading the lines adds exactly this step, whatever was read before. */
  ghost predicate Reads(lines: seq<string>, s: Step) {
    forall st :: FlushStep(StepLines(st, lines)) == FlushStep(st) + [s]
  }

  /** The step with the title that is read from its printed heading. */
  function Reread(n: nat, s: Step): Step {
    Step(StepTitle(Decimal(n) + ". " + s.title), s.body)
  }

  lemma StepRead(n: nat, s: Step)
    requires Trimmed(s.body, NEWLINE) && NoHeading(Split(s.body, "\n"), "### ")
    ensures Reads(LinesOfStep(n, s), Reread(n, s))
  {
    var h := Decimal(n) + ". " + s.title;
    var rest := [""] + Split(s.body, "\n") + [""];
    BodyText(s.body);
    forall st ensures FlushStep(StepLines(st, LinesOfStep(n, s))) == FlushStep(st) + [Reread(n, s)] {
      StepReadLines(st, h, StepTitle(h), rest, s.body);
    }
  }

  lemma {:induction false} BlocksRead(st: StepState, blocks: seq<seq<string>>, steps: seq<Step>)
    requires |blocks| == |steps| && forall i :: 0 <= i < |steps| ==> Reads(blocks[i], steps[i])
    ensures FlushStep(StepLines(st, Flatten(blocks))) == FlushStep(st) + steps
    decreases |steps|
  {
    if blocks != [] {
      StepLinesConcat(st, blocks[0], Flatten(blocks[1..]));
      BlocksRead(StepLines(st, blocks[0]), blocks[1..], steps[1..]);
      AssocItem(FlushStep(st), steps[0], steps[1..]);
      assert [steps[0]] + steps[1..] == steps;
    }
  }

  function StepBlocks(steps: seq<Step>, from: nat): (blocks: seq<seq<string>>)
    requires from <= |steps|
    ensures |blocks| == |steps| - from
    ensures forall i :: 0 <= i < |blocks| ==> blocks[i] == LinesOfStep(from + i + 1, steps[from + i])
    decreases |steps| - from
  {
    if from == |steps| then [] else [LinesOfStep(from + 1, steps[from])] + StepBlocks(steps, from + 1)
  }

  function LinesOfSteps(steps: seq<Step>): seq<string> {
    Flatten(StepBlocks(steps, 0))
  }

  predicate PlainSteps(steps: seq<Step>) {
    forall i :: 0 <= i < |steps| ==> PlainStep(steps[i])
  }

  /** The steps stay inside their section when they are printed. */
  predicate Sectioned(steps: seq<Step>) {
    AllEndClean(steps) && forall i :: 0 <= i < |steps| ==> NoHeading(Split(steps[i].body, "\n"), "## ")
  }

  lemma PlainIsSectioned(steps: seq<Step>)
    requires PlainSteps(steps)
    ensures Sectioned(steps)
  {
  }

  lemma {:induction false} StepBlocksText(steps: seq<Step>, from: nat)
    requires from <= |steps| && AllEndClean(steps)
    ensures Unlines(Flatten(StepBlocks(steps, from))) == StepsText(steps, from)
    decreases |steps| - from
  {
    if from < |steps| {
      var blocks := StepBlocks(steps, from);
      assert blocks[1..] == StepBlocks(steps, from + 1);
      LinesOfStepText(from + 1, steps[from]);
      StepBlocksText(steps, from + 1);
      UnlinesConcat(blocks[0], Flatten(blocks[1..]));
    }
  }

  /** No step's body ends the step. */
  predicate Separate(steps: seq<Step>) {
    forall i :: 0 <= i < |steps| ==>
      Trimmed(steps[i].body, NEWLINE) && NoHeading(Split(steps[i].body, "\n"), "### ")
  }

  function RereadSteps(steps: seq<Step>): seq<Step> {
    seq(|steps|, i requires 0 <= i < |steps| => Reread(i + 1, steps[i]))
  }

  lemma StepsRead(st: StepState, steps: seq<Step>)
    requires Separate(steps)
    ensures FlushStep(StepLines(st, LinesOfSteps(steps))) == FlushStep(st) + RereadSteps(steps)
  {
    var blocks, reread := StepBlocks(steps, 0), RereadSteps(steps);
    forall i | 0 <= i < |reread| ensures Reads(blocks[i], reread[i]) {
      BlockReads(steps, i);
    }
    BlocksRead(st, blocks, reread);
  }

  lemma BlockReads(steps: seq<Step>, i: nat)
    requires i < |steps| && Separate(steps)
    ensures Reads(StepBlocks(steps, 0)[i], RereadSteps(steps)[i])
  {
    BlockAt(steps, i);
    RereadAt(steps, i);
    StepRead(i + 1, steps[i]);
  }

  lemma BlockAt(steps: seq<Step>, i: nat)
    requires i < |steps|
    ensures StepBlocks(steps, 0)[i] == LinesOfStep(i + 1, steps[i])
  {
    var blocks := StepBlocks(steps, 0);
    assert blocks[i] == LinesOfStep(0 + i + 1, steps[0 + i]);
  }

  lemma RereadAt(steps: seq<Step>, i: nat)
    requires i < |steps|
    ensures RereadSteps(steps)[i] == Reread(i + 1, steps[i])
  {
  }

  lemma PlainReread(steps: seq<Step>)
    requires PlainSteps(steps)
    ensures Separate(steps) && RereadSteps(steps) == steps
  {
    forall i | 0 <= i < |steps| ensures RereadSteps(steps)[i] == steps[i] {
      RereadPlain(i + 1, steps[i]);
    }
  }

  lemma RereadPlain(n: nat, s: Step)
    requires PlainStep(s)
    ensures Reread(n, s) == s
  {
    StepTitleRead(n, s.title);
  }

  lemma TrailingStepBlanks(st: StepState, blanks: seq<string>)
    requires Blank(blanks)
    ensures FlushStep(StepLines(st, blanks)) == FlushStep(st)
  {
    StepBody(st, blanks);
    UnlinesBlank(blanks);
    TrimIgnoresPadding("", st.buf, Unlines(blanks), NEWLINE);
    assert "" + st.buf + Unlines(blanks) == st.buf + Unlines(blanks);
  }

  /** `parseSteps` on the trimmed text of scannable lines is the fold over those lines. */
  lemma StepsOfTrimmed(lines: seq<string>)
    requires AllScannable(lines)
    ensures StepsOf(Trim(Unlines(lines), NEWLINE)) == FlushStep(StepLines(NO_STEPS, lines))
  {
    var a, core, b := Core(lines);
    assert forall i :: 0 <= i < |core| ==> core[i] == lines[|a| + i];
    TrimUnlines(a, core, b);
    ScanJoin(core);
    StepLinesConcat(NO_STEPS, a + core, b);
    StepLinesConcat(NO_STEPS, a, core);
    StepBody(NO_STEPS, a);
    TrailingStepBlanks(StepLines(NO_STEPS, core), b);
  }

  /** What `parseSteps` reads from the text under the printed procedure heading. */
  lemma ProcedureRead(steps: seq<Step>)
    requires Separate(steps) && AllScannable([""] + LinesOfSteps(steps))
    ensures StepsOf(Trim(Unlines([""] + LinesOfSteps(steps)), NEWLINE)) == RereadSteps(steps)
  {
    var lines := [""] + LinesOfSteps(steps);
    StepsOfTrimmed(lines);
    assert lines[1..] == LinesOfSteps(steps);
    StepsRead(NO_STEPS, steps);
  }

  // ----- the document -----

  datatype Part = Part(heading: string, lines: seq<string>, present: bool)

  function PartLines(parts: seq<Part>): seq<string> {
    if parts == [] then []
    else Section(parts[0].heading, parts[0].lines, parts[0].present) + PartLines(parts[1..])
  }

  function AddParts(m: map<string, string>, parts: seq<Part>): map<string, string>
    decreases |parts|
  {
    if parts == [] then m
    else AddParts(WithSection(m, parts[0].heading, parts[0].lines, parts[0].present), parts[1..])
  }

  predicate ReadableParts(parts: seq<Part>) {
    forall i :: 0 <= i < |parts| ==> IsHeading(parts[i].heading) && NoHeading(parts[i].lines, "## ")
  }

  lemma {:induction false} PartsRead(st: SectionState, parts: seq<Part>)
    requires ReadableParts(parts)
    ensures FlushSection(SectionLines(st, PartLines(parts))) == AddParts(FlushSection(st), parts)
    decreases |parts|
  {
    if parts != [] {
      var p := parts[0];
      var first := Section(p.heading, p.lines, p.present);
      SectionLinesConcat(st, first, PartLines(parts[1..]));
      SectionRead(st, p.heading, p.lines, p.present);
      PartsRead(SectionLines(st, first), parts[1..]);
    }
  }

  lemma {:induction false} LookupUntouched(m: map<string, string>, parts: seq<Part>, heading: string)
    requires forall i :: 0 <= i < |parts| ==> parts[i].heading != heading
    ensures Field(AddParts(m, parts), heading, "") == Field(m, heading, "")
    decreases |parts|
  {
    if parts != [] {
      LookupUntouched(WithSection(m, parts[0].heading, parts[0].lines, parts[0].present), parts[1..], heading);
    }
  }

  predicate DistinctParts(parts: seq<Part>) {
    forall i, j :: 0 <= i < j < |parts| ==> parts[i].heading != parts[j].heading
  }

  /** Under each heading the map holds the text printed there, or nothing when it was left out. */
  lemma {:induction false} Lookup(m: map<string, string>, parts: seq<Part>, i: nat)
    requires DistinctParts(parts) && i < |parts| && parts[i].heading !in m
    ensures Field(AddParts(m, parts), parts[i].heading, "")
         == if parts[i].present then Trim(Unlines(parts[i].lines), NEWLINE) else ""
    decreases |parts|
  {
    var m' := WithSection(m, parts[0].heading, parts[0].lines, parts[0].present);
    if i == 0 {
      LookupUntouched(m', parts[1..], parts[0].heading);
    } else {
      Lookup(m', parts[1..], i - 1);
    }
  }

  function BulletPart(heading: string, items: seq<string>): Part {
    Part(heading, [""] + ItemLines(items) + [""], items != [])
  }

  function Parts(c: Canonical): seq<Part> {
    [ BulletPart("When to Use", c.whenToUse),
      BulletPart("Prerequisites", c.prereqs),
      Part("Procedure", [""] + LinesOfSteps(c.steps), c.steps != []),
      BulletPart("Quick Reference", c.quickRef),
      BulletPart("Pitfalls", c.pitfalls),
      BulletPart("Verification", c.verify) ]
  }

  function HeadingLines(c: Canonical): seq<string> {
    ["# " + TitleFor(c), ""]
    + (if c.baseURL == "" then [] else ["Jentic control plane: `" + c.baseURL + "`", ""])
  }

  /** The lines that are rendered for a skill. */
  function DocLines(c: Canonical): seq<string> {
    HeadingLines(c) + PartLines(Parts(c))
  }

  predicate PlainBullets(items: seq<string>) {
    forall i :: 0 <= i < |items| ==> Chunk(items[i])
  }

  /** Content that the Markdown format can carry: bullets are single trimmed lines, titles single lines without white
      space at the end, and step bodies hold no heading. */
  predicate Readable(c: Canonical) {
    && '\n' !in c.name && Trimmed(c.name, SPACES)
    && '\n' !in c.description && Trimmed(c.description, SPACES) && c.description != ""
    && c.version == "1"
    && PlainBullets(c.whenToUse) && PlainBullets(c.prereqs) && PlainBullets(c.quickRef)
    && PlainBullets(c.pitfalls) && PlainBullets(c.verify)
    && PlainSteps(c.steps) && c.steps != []
  }

  /** And no rendered line is too long for the scanner or ends in a carriage return. */
  predicate WellFormed(c: Canonical) {
    Readable(c) && AllScannable(DocLines(c))
  }

  lemma SectionText(first: string, lines: seq<string>)
    ensures Unlines([first] + ([""] + lines)) == first + "\n\n" + Unlines(lines)
    ensures Unlines([first] + ([""] + lines + [""])) == first + "\n\n" + Unlines(lines) + "\n"
  {
    var all := [first] + ([""] + lines);
    assert all[1..] == [""] + lines && ([""] + lines)[1..] == lines;
    SectionShape(first, Unlines(lines));
    UnlinesConcat(all, [""]);
    assert [first] + ([""] + lines + [""]) == all + [""];
  }

  lemma SectionShape(first: string, text: string)
    ensures first + "\n" + ("" + "\n" + text) == first + "\n\n" + text
  {
  }

  lemma BulletPartText(heading: string, items: seq<string>)
    ensures var p := BulletPart(heading, items);
            Unlines(Section(p.heading, p.lines, p.present)) == BulletSection(heading, items)
  {
    SectionText("## " + heading, ItemLines(items));
    ItemText(items);
  }

  lemma ProcedureShape(lines: seq<string>, text: string)
    requires Unlines(lines) == text
    ensures Unlines(["## " + "Procedure"] + ([""] + lines)) == "## Procedure\n\n" + text
  {
    SectionText("## Procedure", lines);
    assert "## " + "Procedure" == "## Procedure";
    assert "## Procedure" + "\n\n" == "## Procedure\n\n";
  }

  lemma ProcedureText(steps: seq<Step>)
    requires AllEndClean(steps)
    ensures Unlines(Section("Procedure", [""] + LinesOfSteps(steps), steps != [])) == Procedure(steps)
  {
    if steps != [] {
      StepBlocksText(steps, 0);
      ProcedureShape(LinesOfSteps(steps), StepsText(steps, 0));
    }
  }

  lemma HeadingText(c: Canonical)
    ensures Unlines(HeadingLines(c)) == Heading(c)
  {
    var title := "# " + TitleFor(c);
    var url := "Jentic control plane: `" + c.baseURL + "`";
    SectionText(title, []);
    SectionText(url, []);
    assert [title, ""] == [title] + ([""] + []) && [url, ""] == [url] + ([""] + []);
    UnlinesConcat([title, ""], [url, ""]);
    assert [title, ""] + [] == [title, ""];
    assert title + "\n\n" + "" == title + "\n\n";
  }

  lemma {:induction false} PartLinesText(parts: seq<Part>)
    ensures Unlines(PartLines(parts)) == PartTexts(parts)
    decreases |parts|
  {
    if parts != [] {
      UnlinesConcat(Section(parts[0].heading, parts[0].lines, parts[0].present), PartLines(parts[1..]));
      PartLinesText(parts[1..]);
    }
  }

  function PartTexts(parts: seq<Part>): string {
    if parts == [] then ""
    else Unlines(Section(parts[0].heading, parts[0].lines, parts[0].present)) + PartTexts(parts[1..])
  }

  lemma SixTexts(p: seq<Part>, h: string, a: string, b: string, c: string, d: string, e: string, f: string)
    requires |p| == 6
    requires a == Unlines(Section(p[0].heading, p[0].lines, p[0].present))
    requires b == Unlines(Section(p[1].heading, p[1].lines, p[1].present))
    requires c == Unlines(Section(p[2].heading, p[2].lines, p[2].present))
    requires d == Unlines(Section(p[3].heading, p[3].lines, p[3].present))
    requires e == Unlines(Section(p[4].heading, p[4].lines, p[4].present))
    requires f == Unlines(Section(p[5].heading, p[5].lines, p[5].present))
    ensures h + PartTexts(p) == h + a + b + c + d + e + f
  {
    var p1 := p[1..];
    var p2 := p1[1..];
    var p3 := p2[1..];
    var p4 := p3[1..];
    var p5 := p4[1..];
    assert PartTexts(p5) == f + "" == f;
    assert PartTexts(p4) == e + f;
    assert PartTexts(p3) == d + (e + f);
    assert PartTexts(p2) == c + (d + (e + f));
    assert PartTexts(p1) == b + (c + (d + (e + f)));
    Regroup6(h, a, b, c, d, e, f);
  }

  lemma Regroup6(h: string, a: string, b: string, c: string, d: string, e: string, f: string)
    ensures h + (a + (b + (c + (d + (e + f))))) == h + a + b + c + d + e + f
  {
  }

  /** The rendered body before its end is trimmed is these lines. */
  lemma DocText(c: Canonical)
    requires AllEndClean(c.steps)
    ensures Unlines(DocLines(c)) == FullBody(c)
  {
    UnlinesConcat(HeadingLines(c), PartLines(Parts(c)));
    HeadingText(c);
    PartLinesText(Parts(c));
    BulletPartText("When to Use", c.whenToUse);
    BulletPartText("Prerequisites", c.prereqs);
    ProcedureText(c.steps);
    BulletPartText("Quick Reference", c.quickRef);
    BulletPartText("Pitfalls", c.pitfalls);
    BulletPartText("Verification", c.verify);
    SixTexts(Parts(c), Heading(c), BulletSection("When to Use", c.whenToUse),
             BulletSection("Prerequisites", c.prereqs), Procedure(c.steps),
             BulletSection("Quick Reference", c.quickRef), BulletSection("Pitfalls", c.pitfalls),
             BulletSection("Verification", c.verify));
  }

  lemma {:induction false} StepLinesHaveNoHeading(steps: seq<Step>, from: nat)
    requires from <= |steps| && Sectioned(steps)
    ensures NoHeading(Flatten(StepBlocks(steps, from)), "## ")
    decreases |steps| - from
  {
    if from < |steps| {
      var blocks := StepBlocks(steps, from);
      assert blocks[1..] == StepBlocks(steps, from + 1);
      StepLinesHaveNoHeading(steps, from + 1);
      var first := "### " + (Decimal(from + 1) + ". " + steps[from].title);
      assert first[2] == '#';
      assert NoHeading(blocks[0], "## ");
    }
  }

  lemma ItemsHaveNoHeading(items: seq<string>)
    ensures NoHeading([""] + ItemLines(items) + [""], "## ")
  {
    ItemLinesNonEmpty(items);
    forall i | 0 <= i < |items| ensures !HasPrefix(ItemLines(items)[i], "## ") {
      assert ("- " + items[i])[0] == '-';
    }
  }

  lemma ProcedureReadable(steps: seq<Step>)
    requires Sectioned(steps)
    ensures NoHeading([""] + LinesOfSteps(steps), "## ")
  {
    StepLinesHaveNoHeading(steps, 0);
  }

  lemma HeadingsReadable(c: Canonical)
    ensures forall i :: 0 <= i < 6 ==> IsHeading(Parts(c)[i].heading)
  {
  }

  lemma HeadingsDiffer(c: Canonical)
    ensures DistinctParts(Parts(c))
  {
  }

  lemma BulletPartReadable(heading: string, items: seq<string>)
    ensures NoHeading(BulletPart(heading, items).lines, "## ")
  {
    ItemsHaveNoHeading(items);
  }

  lemma PartsAreReadable(c: Canonical)
    requires Sectioned(c.steps)
    ensures ReadableParts(Parts(c)) && DistinctParts(Parts(c))
  {
    HeadingsReadable(c);
    HeadingsDiffer(c);
    BulletPartReadable("When to Use", c.whenToUse);
    BulletPartReadable("Prerequisites", c.prereqs);
    ProcedureReadable(c.steps);
    BulletPartReadable("Quick Reference", c.quickRef);
    BulletPartReadable("Pitfalls", c.pitfalls);
    BulletPartReadable("Verification", c.verify);
  }

  /** The lines in front of the first section are not part of any. */
  lemma HeadingIgnored(c: Canonical)
    ensures SectionLines(NO_SECTIONS, HeadingLines(c)) == NO_SECTIONS
  {
    assert ("# " + TitleFor(c))[1] == ' ';
    assert ("Jentic control plane: `" + c.baseURL + "`")[0] == 'J';
    assert NoHeading(HeadingLines(c), "## ");
    SectionBody(NO_SECTIONS, HeadingLines(c));
  }

  /** Scanning a rendered body gives the rendered lines, up to blank ones at the end. */
  lemma ScanBody(c: Canonical) returns (blanks: seq<string>)
    requires Sectioned(c.steps) && AllScannable(DocLines(c))
    ensures ScanLines(RenderBody(c)) + blanks == DocLines(c) && Blank(blanks)
  {
    var lines := DocLines(c);
    assert lines[0] == "# " + TitleFor(c);
    var a, core, b := Tail(lines);
    blanks := b;
    DocText(c);
    assert forall i :: 0 <= i < |core| ==> core[i] == lines[i];
    TrimRightUnlines(core, b);
    ScanUnlines(core);
  }

  /** The sections read from a rendered body. */
  lemma SectionsOfBody(c: Canonical)
    requires Sectioned(c.steps) && AllScannable(DocLines(c))
    ensures Sections(RenderBody(c)) == AddParts(map[], Parts(c))
  {
    var blanks := ScanBody(c);
    var scanned := ScanLines(RenderBody(c));
    SectionLinesConcat(NO_SECTIONS, scanned, blanks);
    TrailingBlanks(SectionLines(NO_SECTIONS, scanned), blanks);
    SectionLinesConcat(NO_SECTIONS, HeadingLines(c), PartLines(Parts(c)));
    HeadingIgnored(c);
    PartsAreReadable(c);
    PartsRead(NO_SECTIONS, Parts(c));
  }

  lemma NoBullets()
    ensures BulletsOf("") == [] && StepsOf("") == []
  {
    SplitLast("", '\n');
    assert [""][1..] == [];
  }

  /** The bullets read back from the section printed as part `i`. */
  lemma BulletsReadBack(c: Canonical, i: nat, heading: string, items: seq<string>)
    requires Sectioned(c.steps) && PlainBullets(items)
    requires i < 6 && Parts(c)[i] == BulletPart(heading, items)
    ensures BulletsOf(Field(AddParts(map[], Parts(c)), heading, "")) == items
  {
    PartsAreReadable(c);
    Lookup(map[], Parts(c), i);
    if items == [] {
      NoBullets();
    } else {
      BulletSectionRead(items);
    }
  }

  lemma ScannableParts(a: seq<string>, b: seq<string>)
    requires AllScannable(a + b)
    ensures AllScannable(a) && AllScannable(b)
  {
    assert forall i :: 0 <= i < |a| ==> a[i] == (a + b)[i];
    assert forall i :: 0 <= i < |b| ==> b[i] == (a + b)[|a| + i];
  }

  lemma {:induction false} ScannablePart(parts: seq<Part>, i: nat)
    requires AllScannable(PartLines(parts)) && i < |parts| && parts[i].present
    ensures AllScannable(parts[i].lines)
    decreases i
  {
    ScannableParts(Section(parts[0].heading, parts[0].lines, parts[0].present), PartLines(parts[1..]));
    if i == 0 {
      ScannableParts(["## " + parts[0].heading], parts[0].lines);
    } else {
      ScannablePart(parts[1..], i - 1);
    }
  }

  /** The steps read back from a rendered body, with the titles that are read from their headings. */
  lemma ProcedureReadBack(c: Canonical)
    requires Sectioned(c.steps) && Separate(c.steps) && c.steps != [] && AllScannable(DocLines(c))
    ensures StepsOf(Field(AddParts(map[], Parts(c)), "Procedure", "")) == RereadSteps(c.steps)
  {
    PartsAreReadable(c);
    Lookup(map[], Parts(c), 2);
    ScannableParts(HeadingLines(c), PartLines(Parts(c)));
    ScannablePart(Parts(c), 2);
    ProcedureRead(c.steps);
  }

  lemma StepsReadBack(c: Canonical)
    requires PlainSteps(c.steps) && c.steps != [] && AllScannable(DocLines(c))
    ensures StepsOf(Field(AddParts(map[], Parts(c)), "Procedure", "")) == c.steps
  {
    PlainIsSectioned(c.steps);
    PlainReread(c.steps);
    ProcedureReadBack(c);
  }

  // ----- frontmatter -----

  lemma LineTrimmed(line: string)
    requires '\n' !in line
    ensures TrimRight(line + "\n", NEWLINE) == line && |line + "\n"| == |line| + 1
  {
    assert line == "" || line[|line| - 1] in line;
    TrimRightUnique(line, "\n", NEWLINE);
  }

  lemma FirstPiece(line: string, more: string)
    requires '\n' !in line
    ensures SplitAfter(line + "\n" + more) == [line + "\n"] + SplitAfter(more)
  {
    SplitCons(line, '\n', more);
    var parts := [line] + Split(more, "\n");
    assert parts[1..] == Split(more, "\n");
  }

  lemma FenceStep(piece: string, pieces: seq<string>, offset: nat)
    ensures FenceIn([piece] + pieces, offset)
         == if TrimRight(piece, NEWLINE) == "---" then Some((offset, offset + |piece|))
            else FenceIn(pieces, offset + |piece|)
  {
    assert ([piece] + pieces)[1..] == pieces;
  }

  /** Lines that the closing fence cannot be mistaken for. */
  predicate Fenceless(lines: seq<string>) {
    forall i :: 0 <= i < |lines| ==> '\n' !in lines[i] && lines[i] != "---"
  }

  lemma UnlinesCons(lines: seq<string>, more: string)
    requires lines != []
    ensures Unlines(lines) + more == lines[0] + "\n" + (Unlines(lines[1..]) + more)
  {
  }

  lemma FenceHere(body: string, offset: nat)
    ensures FenceIn(SplitAfter("---" + "\n" + body), offset) == Some((offset, offset + 4))
  {
    FirstPiece("---", body);
    LineTrimmed("---");
    FenceStep("---" + "\n", SplitAfter(body), offset);
  }

  function WithLineEnds(lines: seq<string>): (pieces: seq<string>) {
    if lines == [] then [] else [lines[0] + "\n"] + WithLineEnds(lines[1..])
  }

  lemma {:induction false} ClosedPieces(lines: seq<string>, more: string)
    requires Fenceless(lines)
    ensures SplitAfter(Unlines(lines) + more) == WithLineEnds(lines) + SplitAfter(more)
    decreases |lines|
  {
    if lines == [] {
      assert Unlines(lines) + more == more;
    } else {
      UnlinesCons(lines, more);
      FirstPiece(lines[0], Unlines(lines[1..]) + more);
      ClosedPieces(lines[1..], more);
      ClosedCons(lines, SplitAfter(more));
    }
  }

  lemma ClosedCons(lines: seq<string>, pieces: seq<string>)
    requires lines != []
    ensures WithLineEnds(lines) + pieces == [lines[0] + "\n"] + (WithLineEnds(lines[1..]) + pieces)
  {
  }

  /** None of the pieces is a fence. */
  predicate NoFence(pieces: seq<string>) {
    forall i :: 0 <= i < |pieces| ==> TrimRight(pieces[i], NEWLINE) != "---"
  }

  lemma {:induction false} ClosedAreNoFence(lines: seq<string>)
    requires Fenceless(lines)
    ensures NoFence(WithLineEnds(lines)) && TotalLength(WithLineEnds(lines)) == |Unlines(lines)|
    decreases |lines|
  {
    if lines != [] {
      LineTrimmed(lines[0]);
      ClosedAreNoFence(lines[1..]);
    }
  }

  /** Pieces that are no fence do not hide the one behind them. */
  lemma {:induction false} FenceSkips(a: seq<string>, pieces: seq<string>, offset: nat)
    requires NoFence(a)
    ensures FenceIn(a + pieces, offset) == FenceIn(pieces, offset + TotalLength(a))
    decreases |a|
  {
    if a == [] {
      assert a + pieces == pieces;
    } else {
      assert a + pieces == [a[0]] + (a[1..] + pieces);
      FenceStep(a[0], a[1..] + pieces, offset);
      FenceSkips(a[1..], pieces, offset + |a[0]|);
    }
  }

  lemma {:induction false} LinesSplit(lines: seq<string>)
    requires Fenceless(lines)
    ensures Split(Unlines(lines), "\n") == lines + [""]
    decreases |lines|
  {
    if lines == [] {
      SplitLast("", '\n');
    } else {
      var rest := Unlines(lines[1..]);
      SplitCons(lines[0], '\n', rest);
      LinesSplit(lines[1..]);
      FirstBack(lines, [""]);
    }
  }

  lemma FirstBack(lines: seq<string>, more: seq<string>)
    requires lines != []
    ensures lines + more == [lines[0]] + (lines[1..] + more)
  {
  }

  lemma FenceParts(x: string, body: string)
    ensures var s := x + ("---" + "\n" + body);
            |x| + 4 <= |s| && s[..|x|] == x && s[|x| + 4..] == body
  {
  }

  lemma FenceFound(lines: seq<string>, body: string)
    requires Fenceless(lines)
    ensures Fence(Unlines(lines) + ("---" + "\n" + body)) == Some((|Unlines(lines)|, |Unlines(lines)| + 4))
  {
    ClosedPieces(lines, "---" + "\n" + body);
    ClosedAreNoFence(lines);
    FenceHere(body, |Unlines(lines)|);
    FenceFrom(Unlines(lines) + ("---" + "\n" + body), WithLineEnds(lines), SplitAfter("---" + "\n" + body));
  }

  lemma FenceFrom(text: string, a: seq<string>, pieces: seq<string>)
    requires SplitAfter(text) == a + pieces && NoFence(a)
    ensures Fence(text) == FenceIn(pieces, TotalLength(a))
  {
    FenceSkips(a, pieces, 0);
  }

  lemma FrontParts(lines: seq<string>, body: string, rest: string)
    requires Fenceless(lines) && rest == Unlines(lines) + ("---" + "\n" + body)
    ensures Fence(rest) == Some((|Unlines(lines)|, |Unlines(lines)| + 4)) && |Unlines(lines)| + 4 <= |rest|
    ensures rest[|Unlines(lines)| + 4..] == body && Split(rest[..|Unlines(lines)|], "\n") == lines + [""]
  {
    FenceFound(lines, body);
    FenceParts(Unlines(lines), body);
    LinesSplit(lines);
  }

  /** Frontmatter of any lines is read line by line, and what stands behind it is the body. */
  lemma LinesRead(lines: seq<string>, body: string, rest: string)
    requires Fenceless(lines) && (body != [] ==> body[0] != '\n')
    requires rest == Unlines(lines) + ("---" + "\n" + body)
    ensures FrontmatterOf("---\n" + rest) == (body, AddFields(map[], lines + [""]))
  {
    TrimLeftUnique("", body, NEWLINE);
    assert "" + body == body && "" + ("---\n" + rest) == "---\n" + rest;
    PaddedLinesRead("", lines, body, rest);
  }

  /** Newlines in front of the document and behind the fence do not count. */
  lemma PaddedLinesRead(pad: string, lines: seq<string>, body: string, rest: string)
    requires AllIn(pad, NEWLINE) && Fenceless(lines)
    requires rest == Unlines(lines) + ("---" + "\n" + body)
    ensures FrontmatterOf(pad + ("---\n" + rest)) == (TrimLeft(body, NEWLINE), AddFields(map[], lines + [""]))
  {
    FrontParts(lines, body, rest);
    TrimLeftUnique(pad, "---\n" + rest, NEWLINE);
    FrontmatterIs(pad + ("---\n" + rest), rest, |Unlines(lines)|, |Unlines(lines)| + 4, body, lines + [""]);
  }

  lemma FieldRead(fm: map<string, string>, key: string, value: string)
    requires ':' !in key && Trimmed(key, SPACES) && Trimmed(value, SPACES)
    ensures AddField(fm, key + ": " + value) == fm[key := value]
  {
    CutAtChar(key, ':', " " + value);
    assert key + ":" + (" " + value) == key + ": " + value;
    TrimmedIsFixed(key, SPACES);
    LeadingBlank(value);
  }

  lemma LeadingBlank(s: string)
    requires Trimmed(s, SPACES)
    ensures TrimSpace(" " + s) == s
  {
    assert IsSpace(' ');
    TrimUnique(" ", s, "", SPACES);
    assert " " + s + "" == " " + s;
  }

  lemma FieldsRead(name: string, description: string)
    requires Trimmed(name, SPACES) && Trimmed(description, SPACES)
    ensures AddFields(map[], ["name: " + name, "description: " + description, ""])
         == map["name" := name, "description" := description]
  {
    var l1, l2 := "name" + ": " + name, "description" + ": " + description;
    assert "name: " + name == l1 && "description: " + description == l2;
    FieldRead(map[], "name", name);
    FieldRead(map["name" := name], "description", description);
    IndexAbsent("", ':');
    var lines := [l1, l2, ""];
    assert lines[1..] == [l2, ""] && [l2, ""][1..] == [""] && [""][1..] == [];
    var m := map["name" := name]["description" := description];
    assert AddFields(m, [""]) == AddFields(AddField(m, ""), []) == m;
    assert AddFields(map["name" := name], [l2, ""]) == AddFields(m, [""]);
  }

  lemma FrontmatterIs(src: string, rest: string, start: nat, end: nat, body: string, lines: seq<string>)
    requires TrimLeft(src, NEWLINE) == "---\n" + rest && Fence(rest) == Some((start, end))
    requires start <= end <= |rest| && rest[end..] == body && Split(rest[..start], "\n") == lines
    ensures FrontmatterOf(src) == (TrimLeft(body, NEWLINE), AddFields(map[], lines))
  {
    assert TrimLeft(src, NEWLINE)[4..] == rest;
  }

  lemma FrontmatterShape(l1: string, l2: string, body: string)
    ensures "---\n" + l1 + "\n" + l2 + "\n---\n" + body
         == "---\n" + (l1 + "\n" + (l2 + "\n" + "") + ("---" + "\n" + body))
  {
  }

  lemma TwoUnlines(l1: string, l2: string)
    ensures Unlines([l1, l2]) == l1 + "\n" + (l2 + "\n" + "")
  {
    assert [l1, l2][1..] == [l2] && [l2][1..] == [];
    assert Unlines([l2]) == l2 + "\n" + "";
  }

  /** The frontmatter printed for the claude and cursor runtimes is read back, and the rest is the body. */
  lemma FrontmatterRead(c: Canonical, body: string)
    requires '\n' !in c.name && Trimmed(c.name, SPACES)
    requires '\n' !in c.description && Trimmed(c.description, SPACES)
    requires body != [] && body[0] != '\n'
    ensures FrontmatterOf(DirSkillFrontmatter(c) + body)
         == (body, map["name" := c.name, "description" := c.description])
  {
    var l1, l2 := "name: " + c.name, "description: " + c.description;
    assert l1[0] == 'n' && l2[0] == 'd';
    FrontmatterText(c.name, c.description);
    FrontmatterShape(l1, l2, body);
    TwoUnlines(l1, l2);
    LinesRead([l1, l2], body, l1 + "\n" + (l2 + "\n" + "") + ("---" + "\n" + body));
    assert [l1, l2] + [""] == [l1, l2, ""];
    FieldsRead(c.name, c.description);
  }

  lemma FrontmatterText(name: string, description: string)
    ensures "---\nname: " + name + "\ndescription: " + description + "\n---\n"
         == "---\n" + ("name: " + name) + "\n" + ("description: " + description) + "\n---\n"
  {
  }

  // ----- the whole document -----

  lemma RenderedStart(c: Canonical)
    ensures RenderBody(c)[0] == '#'
  {
    assert Heading(c)[0] == '#';
    assert FullBody(c)[0] == Heading(c)[0];
    TrimRightKeepsFirst(FullBody(c), NEWLINE);
  }

  /** The bullets read from these sections are the content's. */
  predicate BulletsFrom(c: Canonical, m: map<string, string>) {
    && BulletsOf(Field(m, "When to Use", "")) == c.whenToUse
    && BulletsOf(Field(m, "Prerequisites", "")) == c.prereqs
    && BulletsOf(Field(m, "Quick Reference", "")) == c.quickRef
    && BulletsOf(Field(m, "Pitfalls", "")) == c.pitfalls
    && BulletsOf(Field(m, "Verification", "")) == c.verify
  }

  lemma BulletsReturn(c: Canonical)
    requires Readable(c)
    ensures BulletsFrom(c, AddParts(map[], Parts(c)))
  {
    PlainIsSectioned(c.steps);
    BulletsReadBack(c, 0, "When to Use", c.whenToUse);
    BulletsReadBack(c, 1, "Prerequisites", c.prereqs);
    BulletsReadBack(c, 3, "Quick Reference", c.quickRef);
    BulletsReadBack(c, 4, "Pitfalls", c.pitfalls);
    BulletsReadBack(c, 5, "Verification", c.verify);
  }

  lemma ParsedFrom(c: Canonical, src: string, fm: map<string, string>)
    requires FrontmatterOf(src) == (RenderBody(c), fm) && Field(fm, "name", "jentic") == c.name
    requires Field(fm, "description", "") == c.description != "" && Field(fm, "version", "1") == c.version
    requires StepsOf(Field(Sections(RenderBody(c)), "Procedure", "")) == c.steps && c.steps != []
    requires BulletsFrom(c, Sections(RenderBody(c)))
    ensures Parsed(src) == Ok(c.(baseURL := "", origin := ""))
  {
  }

  lemma ParsedFromTwo(c: Canonical, src: string)
    requires FrontmatterOf(src) == (RenderBody(c), map["name" := c.name, "description" := c.description])
    requires StepsOf(Field(Sections(RenderBody(c)), "Procedure", "")) == c.steps && c.steps != []
    requires BulletsFrom(c, Sections(RenderBody(c))) && c.version == "1" && c.description != ""
    ensures Parsed(src) == Ok(c.(baseURL := "", origin := ""))
  {
    TwoFieldsSay(c.name, c.description);
    ParsedFrom(c, src, map["name" := c.name, "description" := c.description]);
  }

  lemma TwoFieldsSay(name: string, description: string)
    ensures var fm := map["name" := name, "description" := description];
            Field(fm, "name", "jentic") == name && Field(fm, "description", "") == description
            && Field(fm, "version", "1") == "1"
  {
  }

  /** Parsing undoes printing: the frontmatter and body rendered for well-formed content parse back to it,
      apart from the two fields that are stamped on afterwards. */
  lemma ParseRendered(c: Canonical)
    requires WellFormed(c)
    ensures Parsed(DirSkillFrontmatter(c) + RenderBody(c)) == Ok(c.(baseURL := "", origin := ""))
  {
    RenderedStart(c);
    PlainIsSectioned(c.steps);
    FrontmatterRead(c, RenderBody(c));
    SectionsOfBody(c);
    BulletsReturn(c);
    StepsReadBack(c);
    ParsedFromTwo(c, DirSkillFrontmatter(c) + RenderBody(c));
  }

  /** Rendering what was parsed from a rendering gives the same text again. */
  lemma RenderIsFixedPoint(c: Canonical)
    requires WellFormed(c)
    ensures var p := Parsed(DirSkillFrontmatter(c) + RenderBody(c));
            && p.Ok?
            && RenderBody(p.value.(baseURL := c.baseURL)) == RenderBody(c)
            && DirSkillFrontmatter(p.value) == DirSkillFrontmatter(c)
  {
    ParseRendered(c);
    assert RenderBody(c.(origin := "")) == RenderBody(c);
  }
}
