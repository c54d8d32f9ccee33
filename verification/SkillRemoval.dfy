/** What a removal keeps of a SKILL.md, `Remove` and `isOnlyFrontmatter` in `cli/internal/skillgen/apply.go`. */
module SkillRemoval {
  import opened Text
  import opened Newlines
  import opened ManagedBlock
  import opened Splicing
  import opened SkillRender
  import opened SkillApply
  import opened SkillRuns
  import opened SkillDedicated

  // ----- nothing but frontmatter -----

  lemma FenceFirstBehind(lines: seq<string>, more: string)
    requires FieldLines(lines)
    ensures Index(Join(lines, "\n") + "\n---" + more, "\n---") == |Join(lines, "\n")|
  {
    FenceFirst(lines);
    FirstInPrefix(Join(lines, "\n") + "\n---", "\n---", more, |Join(lines, "\n")|);
  }

  /** A first occurrence that ends a text is the first one with more behind it, too. */
  lemma FirstInPrefix(a: string, m: string, more: string, i: nat)
    requires Index(a, m) == i && i + |m| == |a|
    ensures Index(a + more, m) == i
  {
    assert (a + more)[i..i + |m|] == a[i..i + |m|];
    IndexLeast(a + more, m, i);
    var j := Index(a + more, m);
    assert a[j..j + |m|] == (a + more)[j..j + |m|];
    IndexLeast(a, m, j);
  }

  /** Behind a printed frontmatter, anything that is not blank is more than frontmatter. */
  lemma OnlyFrontmatterExactly(lines: seq<string>, tail: string)
    requires FieldLines(lines)
    ensures IsOnlyFrontmatter(Fenced(lines) + "\n" + tail) <==> TrimSpace(tail) == ""
  {
    var head, t, pad := SpacedParts(tail);
    if t == "" {
      BlankTail(Fenced(lines), tail);
      FencedTrimmed(lines);
      FencedIsOnlyFrontmatter(lines);
      SameWhenTrimmed(Fenced(lines) + "\n" + tail, Fenced(lines));
    } else {
      MoreBehind(lines, head, t, pad);
      TailParts(Fenced(lines), head, t, pad);
    }
  }

  lemma TailParts(s: string, head: string, t: string, pad: string)
    ensures s + "\n" + (head + t + pad) == s + ("\n" + head) + t + pad
  {
  }

  lemma BlankTail(s: string, tail: string)
    requires AllIn(tail, SPACES)
    ensures TrimSpace(s + "\n" + tail) == TrimSpace(s)
  {
    assert IsSpace('\n');
    TrimIgnoresPadding("", s, "\n" + tail, SPACES);
    assert "" + s + ("\n" + tail) == s + "\n" + tail;
  }

  /** Only what is between the white space at the ends counts. */
  lemma SameWhenTrimmed(x: string, y: string)
    requires TrimSpace(x) == TrimSpace(y)
    ensures IsOnlyFrontmatter(x) <==> IsOnlyFrontmatter(y)
  {
  }

  lemma MoreBehind(lines: seq<string>, head: string, t: string, pad: string)
    requires FieldLines(lines) && AllIn(head, SPACES) && AllIn(pad, SPACES) && t != "" && Trimmed(t, SPACES)
    ensures !IsOnlyFrontmatter(Fenced(lines) + ("\n" + head) + t + pad)
  {
    assert IsSpace('\n');
    FencedBehind(lines, "\n" + head, t, pad);
    FencedBehind(lines, "\n" + head, t, "");
    assert Fenced(lines) + ("\n" + head) + t + "" == Fenced(lines) + ("\n" + head) + t;
    SameWhenTrimmed(Fenced(lines) + ("\n" + head) + t + pad, Fenced(lines) + ("\n" + head) + t);
    MoreThanFrontmatter(lines, "\n" + head, t);
  }

  lemma SpacedParts(tail: string) returns (head: string, t: string, pad: string)
    ensures t == TrimSpace(tail) && tail == head + t + pad && AllIn(head, SPACES) && AllIn(pad, SPACES)
    ensures Trimmed(t, SPACES)
    ensures t == "" ==> AllIn(tail, SPACES)
  {
    t := TrimSpace(tail);
    head, pad := TrimParts(tail, SPACES);
  }

  lemma FencedBehind(lines: seq<string>, head: string, t: string, pad: string)
    requires t != "" && Trimmed(t, SPACES) && AllIn(pad, SPACES)
    ensures TrimSpace(Fenced(lines) + head + t + pad) == Fenced(lines) + head + t
  {
    var s := Fenced(lines) + head + t;
    assert s[0] == '-' && s[|s| - 1] == t[|t| - 1];
    TrimUnique("", s, pad, SPACES);
    assert "" + s + pad == Fenced(lines) + head + t + pad;
  }

  lemma MoreThanFrontmatter(lines: seq<string>, head: string, t: string)
    requires FieldLines(lines) && AllIn(head, SPACES) && t != "" && Trimmed(t, SPACES)
    ensures !IsOnlyFrontmatter(Fenced(lines) + head + t)
  {
    var s, j := Fenced(lines) + head + t, Join(lines, "\n");
    FencedBehind(lines, head, t, "");
    assert s + "" == s;
    assert s == "---\n" + (j + "\n---" + (head + t));
    assert s[4..] == j + "\n---" + (head + t);
    FenceFirstBehind(lines, head + t);
    assert (j + "\n---" + (head + t))[|j| + 4..] == head + t;
    TrimIgnoresPadding(head, t, "", SPACES);
    TrimmedIsFixed(t, SPACES);
    assert head + t + "" == head + t;
  }

  /** Nor is a text that does not start with a fence, unless it is blank. */
  lemma NoFenceNoFrontmatter(text: string)
    requires TrimSpace(text) != "" && !HasPrefix(TrimSpace(text), "---\n")
    ensures !IsOnlyFrontmatter(text)
  {
  }

  // ----- a text behind the region -----

  lemma RemovedAround(frontmatter: string, s: string)
    requires TrimSpace(s) != ""
    requires frontmatter != "" && frontmatter[0] == '-'
    ensures Trim(Prelude(frontmatter) + ("\n" + s), NEWLINE)
         == TrimRight(frontmatter, NEWLINE) + "\n" + ("\n\n" + TrimRight(s, NEWLINE))
  {
    var t, rest := TrimRight(frontmatter, NEWLINE), TrimRight(s, NEWLINE);
    var tail := TrimRightParts(s, NEWLINE);
    TrimRightKeepsFirst(frontmatter, NEWLINE);
    NotBlankAtAll(s);
    TrimRightEnd(s, NEWLINE);
    KeptAround(t, rest, tail);
  }

  lemma KeptAround(t: string, rest: string, tail: string)
    requires t != "" && t[0] != '\n' && rest != "" && rest[|rest| - 1] != '\n' && AllIn(tail, NEWLINE)
    ensures Trim(t + "\n\n" + ("\n" + (rest + tail)), NEWLINE) == t + "\n" + ("\n\n" + rest)
  {
    var kept := t + "\n" + ("\n\n" + rest);
    KeptEnds(t, rest);
    TrimUnique("", kept, tail, NEWLINE);
    KeptParts(t, rest, tail);
  }

  lemma KeptEnds(t: string, rest: string)
    requires t != "" && rest != ""
    ensures var kept := t + "\n" + ("\n\n" + rest);
            kept != "" && kept[0] == t[0] && kept[|kept| - 1] == rest[|rest| - 1]
  {
  }

  lemma KeptParts(t: string, rest: string, tail: string)
    ensures "" + (t + "\n" + ("\n\n" + rest)) + tail == t + "\n\n" + ("\n" + (rest + tail))
  {
  }

  lemma NotBlankAtAll(s: string)
    requires TrimSpace(s) != ""
    ensures TrimRight(s, NEWLINE) != ""
  {
    var tail := TrimRightParts(s, NEWLINE);
    assert IsSpace('\n');
    TrimIgnoresPadding("", TrimRight(s, NEWLINE), tail, SPACES);
    TrimmedIsFixed("", SPACES);
    assert "" + TrimRight(s, NEWLINE) + tail == s;
  }

  /** Removing the skill from a SKILL.md keeps the text that the user has put behind the region, and the frontmatter
      with it; a file without such a text is deleted. */
  lemma RemovalKeepsText(g: Generator, a: Adapter, c: Canonical, s: string, force: bool)
    requires OwnsWholeFile(a) && Fits(g, c) && PlainFront(c) && g.mk.open[0] == '<'
    ensures var fm, t := Frontmatter(a, c), Normalize(s);
            RemoveFrom(g, "SKILL.md", Some(Dedicated(g, fm, c) + s), force, false)
            == (RemoveOutcome(true, false, false),
                if TrimSpace(t) == "" then None
                else Some(TrimRight(fm, NEWLINE) + "\n" + ("\n\n" + TrimRight(t, NEWLINE)) + "\n"))
  {
    var fm, t := Frontmatter(a, c), Normalize(s);
    PlainFrontFits(g, a, c);
    FollowedState(g, fm, c, s);
    RemoveSettled(g, "SKILL.md", Dedicated(g, fm, c) + s, Prelude(fm), "\n" + t, HashContent(g, RenderBody(c)), force);
    FrontShape(a, c);
    FrontLinesPlain(a, c);
    RemainderIs(FrontLines(a, c), t);
  }

  lemma RemainderIs(lines: seq<string>, t: string)
    requires FieldLines(lines)
    ensures var fm := Fenced(lines) + "\n";
            var rest := Trim(Prelude(fm) + ("\n" + t), NEWLINE);
            && TrimRight(fm, NEWLINE) == Fenced(lines)
            && (rest == "" || IsOnlyFrontmatter(rest) <==> TrimSpace(t) == "")
            && (TrimSpace(t) != "" ==> rest == Fenced(lines) + "\n" + ("\n\n" + TrimRight(t, NEWLINE)))
  {
    var fm := Fenced(lines) + "\n";
    FencedEnds(lines);
    if TrimSpace(t) == "" {
      BlankBehind(lines, t);
    } else {
      RemovedAround(fm, t);
      BlankStill(t);
      OnlyFrontmatterExactly(lines, "\n\n" + TrimRight(t, NEWLINE));
    }
  }

  lemma FencedEnds(lines: seq<string>)
    ensures TrimRight(Fenced(lines) + "\n", NEWLINE) == Fenced(lines) && Fenced(lines)[0] == '-'
  {
    var s := Fenced(lines);
    assert s[|s| - 1] == '-';
    TrimRightUnique(s, "\n", NEWLINE);
  }

  lemma BlankBehind(lines: seq<string>, t: string)
    requires FieldLines(lines) && TrimSpace(t) == ""
    ensures IsOnlyFrontmatter(Trim(Prelude(Fenced(lines) + "\n") + ("\n" + t), NEWLINE))
  {
    var s := Prelude(Fenced(lines) + "\n") + ("\n" + t);
    var head, core, pad := SpacedParts(t);
    FencedEnds(lines);
    assert IsSpace('\n');
    BlankTail(Fenced(lines), "\n\n" + t);
    PaddedEnd(Fenced(lines), t);
    TrimTwice(s);
    FencedIsOnlyFrontmatter(lines);
    SameWhenTrimmed(Trim(s, NEWLINE), Fenced(lines));
  }

  lemma PaddedEnd(s: string, t: string)
    ensures s + "\n\n" + ("\n" + t) == s + "\n" + ("\n\n" + t)
  {
  }

  /** Trimming newlines first makes no difference. */
  lemma TrimTwice(s: string)
    ensures TrimSpace(Trim(s, NEWLINE)) == TrimSpace(s)
  {
    var head, tail := TrimParts(s, NEWLINE);
    assert IsSpace('\n');
    TrimIgnoresPadding(head, Trim(s, NEWLINE), tail, SPACES);
  }

  lemma BlankStill(t: string)
    ensures TrimSpace("\n\n" + TrimRight(t, NEWLINE)) == TrimSpace(t)
  {
    var tail := TrimRightParts(t, NEWLINE);
    assert IsSpace('\n');
    TrimIgnoresPadding("\n\n", TrimRight(t, NEWLINE), "", SPACES);
    TrimIgnoresPadding("", TrimRight(t, NEWLINE), tail, SPACES);
    assert "\n\n" + TrimRight(t, NEWLINE) + "" == "\n\n" + TrimRight(t, NEWLINE);
    assert "" + TrimRight(t, NEWLINE) + tail == t;
  }

  lemma FollowedState(g: Generator, frontmatter: string, c: Canonical, s: string)
    requires FrontFits(g, frontmatter) && Fits(g, c)
    ensures Settled(g, Dedicated(g, frontmatter, c) + s, Prelude(frontmatter), "\n" + Normalize(s),
                    HashContent(g, RenderBody(c)))
  {
    var p, block := Prelude(frontmatter), Block(g, RenderBody(c), SourceOf(c));
    PreludeIsOpen(g, frontmatter);
    PlainSource(SourceOf(c));
    PrintedIsPlain(g, RenderBody(c), SourceOf(c));
    NormalizedBehind(p, block, s);
    ManagedState(g, p + block + ("\n" + Normalize(s)), p, RenderBody(c), SourceOf(c), "\n" + Normalize(s));
  }

  lemma NormalizedBehind(p: string, block: string, s: string)
    requires '\r' !in p && '\r' !in block
    ensures Normalize(p + block + "\n" + s) == p + block + ("\n" + Normalize(s))
  {
    NormalizeConcat(p + block + "\n", s);
    Grouped(p + block, "\n", Normalize(s));
  }
}
