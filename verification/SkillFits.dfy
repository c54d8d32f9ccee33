/** Which skills can be kept in a managed region: the rendered body of `cli/internal/skillgen/adapters.go` and the
    END marker of `cli/internal/skillgen/skillgen.go`. */
module SkillFits {
  import opened Text
  import opened TextLines
  import opened AnchoredText
  import opened ManagedBlock
  import opened EndLines
  import opened SkillRender
  import opened SkillRoundTrip
  import opened SkillRuns
  import opened SkillDedicated

  // ----- lines of a text -----

  /** A marker starts a line of a text exactly when one of its lines begins with the marker. */
  lemma {:induction false} HasLineExactly(lines: seq<string>, m: string)
    requires m != [] && '\n' !in m
    requires forall i :: 0 <= i < |lines| ==> '\n' !in lines[i]
    ensures HasLine(Unlines(lines), m) <==> !NoHeading(lines, m)
  {
    if NoHeading(lines, m) {
      NoLineInUnlines(lines, m);
    } else {
      var first, rest := lines[0] + "\n", Unlines(lines[1..]);
      if m <= lines[0] {
        assert m <= first + rest;
        StartsAnchored(first + rest, m);
      } else {
        assert !NoHeading(lines[1..], m);
        HasLineExactly(lines[1..], m);
        if HasLine(first, m) { AnchoredInPrefix(first, rest, m); } else { AnchoredBeyond(first, rest, m); }
      }
    }
  }

  /** Trimming the end to a single newline neither adds nor removes such a line. */
  lemma TrimmedEnd(s: string, m: string)
    requires m != [] && '\n' !in m
    ensures HasLine(TrimRight(s, NEWLINE) + "\n", m) <==> HasLine(s, m)
  {
    var t := TrimRight(s, NEWLINE);
    var tail := TrimRightParts(s, NEWLINE);
    if HasLine(s, m) {
      TrimKeepsLine(s, m);
      if !HasLine(t + "\n", m) { HasLinePrefix(t, "\n", m); }
    } else {
      HasLinePrefix(t, tail, m);
      HasLineNewline(t, m);
    }
  }

  // ----- lines of a rendered skill -----

  lemma NoHeadingConcat(a: seq<string>, b: seq<string>, m: string)
    ensures NoHeading(a + b, m) <==> NoHeading(a, m) && NoHeading(b, m)
  {
    if NoHeading(a + b, m) {
      assert forall i :: 0 <= i < |a| ==> (a + b)[i] == a[i];
      assert forall i :: 0 <= i < |b| ==> (a + b)[|a| + i] == b[i];
    }
  }

  predicate StepsFree(steps: seq<Step>, from: nat, m: string)
    requires m != []
  {
    forall i :: from <= i < |steps| ==> !HasLine(steps[i].body, m)
  }

  lemma StepsFreeCons(steps: seq<Step>, from: nat, m: string)
    requires m != [] && from < |steps|
    ensures StepsFree(steps, from, m) <==> !HasLine(steps[from].body, m) && StepsFree(steps, from + 1, m)
  {
  }

  lemma BodyFree(body: string, m: string)
    requires m != "" && '\n' !in m && (body != "" ==> body[|body| - 1] != '\n')
    ensures NoHeading(Split(body, "\n"), m) <==> !HasLine(body, m)
  {
    JoinSplit(body, '\n');
    UnlinesSplit(body);
    var lines := Split(body, "\n");
    assert forall i :: 0 <= i < |lines| ==> lines[i] in lines;
    HasLineExactly(lines, m);
    TrimRightUnique(body, "", NEWLINE);
    assert body + "" == body;
    TrimmedEnd(body, m);
  }

  lemma StepFree(n: nat, s: Step, m: string)
    requires m != "" && '\n' !in m && m[0] == '<' && EndsClean(s)
    ensures NoHeading(LinesOfStep(n, s), m) <==> !HasLine(s.body, m)
  {
    BodyFree(s.body, m);
    var head := "### " + (Decimal(n) + ". " + s.title);
    assert head[0] == '#';
    NoHeadingConcat([head], [""] + Split(s.body, "\n") + [""], m);
    NoHeadingConcat([""] + Split(s.body, "\n"), [""], m);
    NoHeadingConcat([""], Split(s.body, "\n"), m);
  }

  lemma {:induction false} StepBlocksFree(steps: seq<Step>, from: nat, m: string)
    requires m != "" && '\n' !in m && m[0] == '<' && from <= |steps| && AllEndClean(steps)
    ensures NoHeading(Flatten(StepBlocks(steps, from)), m) <==> StepsFree(steps, from, m)
    decreases |steps| - from
  {
    if from < |steps| {
      var blocks := StepBlocks(steps, from);
      assert blocks[1..] == StepBlocks(steps, from + 1);
      StepFree(from + 1, steps[from], m);
      StepBlocksFree(steps, from + 1, m);
      StepsFreeCons(steps, from, m);
      NoHeadingConcat(blocks[0], Flatten(blocks[1..]), m);
    }
  }

  lemma ItemsFree(items: seq<string>, m: string)
    requires m != "" && m[0] == '<'
    ensures NoHeading([""] + ItemLines(items) + [""], m)
  {
    ItemLinesNonEmpty(items);
    forall i | 0 <= i < |items| ensures !HasPrefix(ItemLines(items)[i], m) {
      assert ("- " + items[i])[0] == '-';
    }
  }

  lemma {:induction false} PartsFree(parts: seq<Part>, m: string)
    requires m != "" && m[0] == '<'
    ensures NoHeading(PartLines(parts), m)
            <==> forall i :: 0 <= i < |parts| && parts[i].present ==> NoHeading(parts[i].lines, m)
    decreases |parts|
  {
    if parts != [] {
      var p := parts[0];
      PartsFree(parts[1..], m);
      NoHeadingConcat(Section(p.heading, p.lines, p.present), PartLines(parts[1..]), m);
      assert ("## " + p.heading)[0] == '#';
      NoHeadingConcat(["## " + p.heading], p.lines, m);
    }
  }

  lemma HeadingFree(c: Canonical, m: string)
    requires m != "" && m[0] == '<'
    ensures NoHeading(HeadingLines(c), m)
  {
    assert ("# " + TitleFor(c))[0] == '#';
    assert ("Jentic control plane: `" + c.baseURL + "`")[0] == 'J';
  }

  lemma BulletPartsFree(c: Canonical, m: string)
    requires m != "" && m[0] == '<'
    ensures forall i :: 0 <= i < 6 && i != 2 ==> NoHeading(Parts(c)[i].lines, m)
  {
    ItemsFree(c.whenToUse, m);
    ItemsFree(c.prereqs, m);
    ItemsFree(c.quickRef, m);
    ItemsFree(c.pitfalls, m);
    ItemsFree(c.verify, m);
  }

  lemma DocFree(c: Canonical, m: string)
    requires m != "" && '\n' !in m && m[0] == '<' && AllEndClean(c.steps)
    ensures NoHeading(DocLines(c), m) <==> StepsFree(c.steps, 0, m)
  {
    NoHeadingConcat(HeadingLines(c), PartLines(Parts(c)), m);
    HeadingFree(c, m);
    PartsFree(Parts(c), m);
    BulletPartsFree(c, m);
    StepBlocksFree(c.steps, 0, m);
    NoHeadingConcat([""], LinesOfSteps(c.steps), m);
    assert Parts(c)[2].present <==> c.steps != [];
    assert Parts(c)[2].lines == [""] + LinesOfSteps(c.steps);
  }

  // ----- any skill -----

  /** The newlines at the end of each step's body are not rendered. */
  function Cleaned(steps: seq<Step>): (r: seq<Step>)
    ensures |r| == |steps| && AllEndClean(r)
    ensures forall i :: 0 <= i < |steps| ==> r[i] == Step(steps[i].title, TrimRight(steps[i].body, NEWLINE))
  {
    if steps == [] then []
    else [Step(steps[0].title, TrimRight(steps[0].body, NEWLINE))] + Cleaned(steps[1..])
  }

  /** The lines rendered for a skill. */
  function RenderedLines(c: Canonical): seq<string> {
    DocLines(c.(steps := Cleaned(c.steps)))
  }

  lemma {:induction false} CleanedText(steps: seq<Step>, from: nat)
    requires from <= |steps|
    ensures StepsText(Cleaned(steps), from) == StepsText(steps, from)
    decreases |steps| - from
  {
    if from < |steps| {
      var body := steps[from].body;
      TrimRightUnique(TrimRight(body, NEWLINE), "", NEWLINE);
      assert TrimRight(body, NEWLINE) + "" == TrimRight(body, NEWLINE);
      CleanedText(steps, from + 1);
    }
  }

  lemma CleanedBody(c: Canonical)
    ensures FullBody(c.(steps := Cleaned(c.steps))) == FullBody(c)
  {
    CleanedText(c.steps, 0);
  }

  lemma CleanedFree(steps: seq<Step>, m: string)
    requires m != "" && '\n' !in m
    ensures StepsFree(Cleaned(steps), 0, m) <==> StepsFree(steps, 0, m)
  {
    forall i | 0 <= i < |steps| ensures HasLine(Cleaned(steps)[i].body, m) <==> HasLine(steps[i].body, m) {
      TrimmedBodyLine(steps[i].body, m);
    }
    if StepsFree(Cleaned(steps), 0, m) {
      forall i | 0 <= i < |steps| ensures !HasLine(steps[i].body, m) {
        assert !HasLine(Cleaned(steps)[i].body, m);
      }
    }
  }

  lemma TrimmedBodyLine(body: string, m: string)
    requires m != "" && '\n' !in m
    ensures HasLine(TrimRight(body, NEWLINE), m) <==> HasLine(body, m)
  {
    var tail := TrimRightParts(body, NEWLINE);
    if HasLine(body, m) { TrimKeepsLine(body, m); } else { HasLinePrefix(TrimRight(body, NEWLINE), tail, m); }
  }

  predicate Without(lines: seq<string>, c: char) {
    forall i :: 0 <= i < |lines| ==> c !in lines[i]
  }

  lemma {:induction false} UnlinesWithout(lines: seq<string>, c: char)
    requires c != '\n'
    ensures c !in Unlines(lines) <==> Without(lines, c)
  {
    if lines != [] {
      UnlinesWithout(lines[1..], c);
      InParts(lines[0], "\n", Unlines(lines[1..]), c);
      assert Without(lines, c) <==> c !in lines[0] && Without(lines[1..], c);
    }
  }

  lemma InParts(x: string, y: string, z: string, c: char)
    ensures c in x + y + z <==> c in x || c in y || c in z
  {
  }

  lemma TrimmedWithout(s: string, c: char)
    requires c != '\n'
    ensures c in TrimRight(s, NEWLINE) + "\n" <==> c in s
  {
    var tail := TrimRightParts(s, NEWLINE);
    InParts(TrimRight(s, NEWLINE), tail, "", c);
    assert TrimRight(s, NEWLINE) + tail + "" == s;
  }

  /** A skill whose rendered lines are lines can be kept in a managed region exactly when it has no carriage return,
      its source no white space, and no line of a step's body begins with the END marker. */
  lemma FitsExactly(g: Generator, c: Canonical)
    requires Without(RenderedLines(c), '\n') && g.mk.close[0] == '<'
    ensures Fits(g, c)
            <==> && SpaceFree(SourceOf(c)) && Without(RenderedLines(c), '\r') && StepsFree(c.steps, 0, g.mk.close)
  {
    var d := c.(steps := Cleaned(c.steps));
    CleanedBody(c);
    DocText(d);
    DocFree(d, g.mk.close);
    CleanedFree(c.steps, g.mk.close);
    HasLineExactly(DocLines(d), g.mk.close);
    TrimmedEnd(FullBody(c), g.mk.close);
    UnlinesWithout(DocLines(d), '\r');
    TrimmedWithout(FullBody(c), '\r');
  }
}
