/** Greedy word wrapping, `wrapLines` and `truncate` in `cli/internal/cmd/catalog_browser.go`. */
module WordWrap {
  import opened Text

  // ----- lines as groups of words -----

  /** What the loop makes of the line begun and the words left. */
  function Fill(cur: seq<string>, words: seq<string>, width: int): (groups: seq<seq<string>>)
    ensures groups != []
    decreases words
  {
    if words == [] then [cur]
    else if |Join(cur, " ")| + 1 + |words[0]| <= width then Fill(cur + [words[0]], words[1..], width)
    else [cur] + Fill([words[0]], words[1..], width)
  }

  function Greedy(words: seq<string>, width: int): seq<seq<string>> {
    if words == [] then [] else Fill([words[0]], words[1..], width)
  }

  function Texts(groups: seq<seq<string>>): (lines: seq<string>)
    ensures |lines| == |groups|
  {
    if groups == [] then [] else [Join(groups[0], " ")] + Texts(groups[1..])
  }

  /** All the lines, before there is a cap on them. */
  function Lines(s: string, width: int): seq<string> {
    Texts(Greedy(Fields(s), width))
  }

  function Truncate(s: string, n: int): string {
    if n <= 1 || |s| <= n then s else s[..n - 1] + "\U{2026}"
  }

  const ELLIPSIS := " \U{2026}"

  function Wrapped(s: string, width: int, maxLines: int): seq<string> {
    if width < 1 || maxLines < 1 then []
    else
      var lines := Lines(s, width);
      if |lines| <= maxLines then lines
      else lines[..maxLines - 1] + [Truncate(lines[maxLines - 1] + ELLIPSIS, width)]
  }

  method WrapLines(s: string, width: int, maxLines: int) returns (lines: seq<string>)
    ensures lines == Wrapped(s, width, maxLines)
    ensures width < 1 || maxLines < 1 ==> lines == []
  {
    if width < 1 || maxLines < 1 {
      return [];
    }
    lines := [];
    var cur := "";
    var words := Fields(s);
    ghost var done: seq<seq<string>>, group: seq<string> := [], [];
    for i := 0 to |words|
      invariant lines == Texts(done)
      invariant cur == Join(group, " ")
      invariant cur == "" <==> i == 0
      invariant i == 0 ==> done == [] && group == []
      invariant i > 0 ==> Greedy(words, width) == done + Fill(group, words[i..], width)
    {
      var w := words[i];
      assert words[i..][0] == w && words[i..][1..] == words[i + 1..];
      if cur == "" {
        cur := w;
        group := [w];
      } else if |cur| + 1 + |w| <= width {
        JoinConcat(group, [w], " ");
        cur := cur + " " + w;
        group := group + [w];
      } else {
        lines := lines + [cur];
        TextsConcat(done, [group]);
        assert done + ([group] + Fill([w], words[i + 1..], width))
            == (done + [group]) + Fill([w], words[i + 1..], width);
        done := done + [group];
        cur := w;
        group := [w];
      }
    }
    assert words[|words|..] == [];
    if cur != "" {
      lines := lines + [cur];
      TextsConcat(done, [group]);
    }
    if |lines| > maxLines {
      lines := lines[..maxLines];
      lines := lines[maxLines - 1 := Truncate(lines[maxLines - 1] + ELLIPSIS, width)];
    }
  }

  lemma {:induction false} TextsConcat(a: seq<seq<string>>, b: seq<seq<string>>)
    ensures Texts(a + b) == Texts(a) + Texts(b)
  {
    if a == [] {
      assert a + b == b;
    } else {
      TextsConcat(a[1..], b);
      assert (a + b)[0] == a[0] && (a + b)[1..] == a[1..] + b;
      assert Texts(a) == [Join(a[0], " ")] + Texts(a[1..]);
    }
  }

  // ----- splits of a text -----

  /** A line that fits the width, or a single word. */
  predicate Fits(group: seq<string>, width: int) {
    |group| == 1 || (group != [] && |Join(group, " ")| <= width)
  }

  /** A division of the words into consecutive lines. */
  predicate IsSplit(groups: seq<seq<string>>, words: seq<string>, width: int) {
    Flatten(groups) == words && forall k :: 0 <= k < |groups| ==> Fits(groups[k], width)
  }

  lemma {:induction false} FillIsSplit(cur: seq<string>, words: seq<string>, width: int)
    requires Fits(cur, width)
    ensures IsSplit(Fill(cur, words, width), cur + words, width)
    decreases words
  {
    if words == [] {
      assert [cur][1..] == [];
      assert cur + [] == cur;
    } else if |Join(cur, " ")| + 1 + |words[0]| <= width {
      JoinConcat(cur, [words[0]], " ");
      FillIsSplit(cur + [words[0]], words[1..], width);
      assert (cur + [words[0]]) + words[1..] == cur + words;
    } else {
      var rest := Fill([words[0]], words[1..], width);
      FillIsSplit([words[0]], words[1..], width);
      assert [words[0]] + words[1..] == words;
      assert ([cur] + rest)[1..] == rest;
    }
  }

  lemma InfixShorter(x: seq<string>, y: seq<string>, z: seq<string>)
    requires y != []
    ensures |Join(y, " ")| <= |Join(x + y + z, " ")|
  {
    if z != [] { JoinConcat(x + y, z, " "); } else { assert x + y + z == x + y; }
    if x != [] { JoinConcat(x, y, " "); } else { assert x + y == y; }
  }

  /** Greedy stays ahead: no split whose current line began no later needs fewer lines. */
  lemma {:induction false} FillIsShortest(x: seq<string>, cur: seq<string>, words: seq<string>, width: int,
                                          g: seq<seq<string>>)
    requires cur != [] && IsSplit(g, x + cur + words, width)
    ensures |Fill(cur, words, width)| <= |g|
    decreases words
  {
    if words == [] {
    } else if |Join(cur, " ")| + 1 + |words[0]| <= width {
      assert x + cur + words == x + (cur + [words[0]]) + words[1..];
      FillIsShortest(x, cur + [words[0]], words[1..], width, g);
    } else {
      BreakComesNoLater(x, cur, words, width, g);
      var y := (x + cur)[|g[0]|..];
      assert Flatten(g[1..]) == (x + cur + words)[|g[0]|..];
      assert (x + cur + words)[|g[0]|..] == y + [words[0]] + words[1..];
      FillIsShortest(y, [words[0]], words[1..], width, g[1..]);
    }
  }

  lemma BreakComesNoLater(x: seq<string>, cur: seq<string>, words: seq<string>, width: int, g: seq<seq<string>>)
    requires cur != [] && words != [] && IsSplit(g, x + cur + words, width)
    requires |Join(cur, " ")| + 1 + |words[0]| > width
    ensures g != [] && |g[0]| <= |x + cur|
  {
    assert g != [];
    if |g[0]| > |x + cur| {
      var z := g[0][|x + cur| + 1..];
      assert g[0] == (x + cur + words)[..|g[0]|];
      assert g[0] == x + (cur + [words[0]]) + z;
      InfixShorter(x, cur + [words[0]], z);
      JoinConcat(cur, [words[0]], " ");
    }
  }

  /** Wrapping gives a division of the words into lines that fit, with the fewest lines of any. */
  lemma WrapIsShortest(words: seq<string>, width: int)
    ensures IsSplit(Greedy(words, width), words, width)
    ensures forall g :: IsSplit(g, words, width) ==> |Greedy(words, width)| <= |g|
  {
    if words != [] {
      FillIsSplit([words[0]], words[1..], width);
      assert [words[0]] + words[1..] == words;
      forall g | IsSplit(g, words, width) ensures |Greedy(words, width)| <= |g| {
        assert [] + [words[0]] + words[1..] == words;
        FillIsShortest([], [words[0]], words[1..], width, g);
      }
    }
  }

  /** No line has room for the first word of the next. */
  predicate Full(groups: seq<seq<string>>, width: int) {
    forall k :: 0 < k < |groups| ==>
      groups[k] != [] && |Join(groups[k - 1], " ")| + 1 + |groups[k][0]| > width
  }

  lemma FullCons(first: seq<string>, rest: seq<seq<string>>, width: int)
    requires rest != [] ==> rest[0] != [] && |Join(first, " ")| + 1 + |rest[0][0]| > width
    requires Full(rest, width)
    ensures Full([first] + rest, width)
  {
  }

  lemma {:induction false} FillIsFull(cur: seq<string>, words: seq<string>, width: int)
    requires cur != []
    ensures Full(Fill(cur, words, width), width) && cur <= Fill(cur, words, width)[0]
    decreases words
  {
    if words != [] {
      if |Join(cur, " ")| + 1 + |words[0]| <= width {
        FillIsFull(cur + [words[0]], words[1..], width);
      } else {
        FillIsFull([words[0]], words[1..], width);
        FullCons(cur, Fill([words[0]], words[1..], width), width);
      }
    }
  }

  lemma FlattenTail(g: seq<seq<string>>, cur: seq<string>, words: seq<string>)
    requires g != [] && Flatten(g) == cur + words && cur <= g[0]
    ensures g[0][|cur|..] + Flatten(g[1..]) == words
  {
    assert g[0] == cur + g[0][|cur|..];
    assert (cur + words)[|cur|..] == words;
    assert (cur + (g[0][|cur|..] + Flatten(g[1..])))[|cur|..] == g[0][|cur|..] + Flatten(g[1..]);
    assert g[0] + Flatten(g[1..]) == cur + (g[0][|cur|..] + Flatten(g[1..]));
  }

  lemma {:induction false} FillUnique(cur: seq<string>, words: seq<string>, width: int, g: seq<seq<string>>)
    requires cur != [] && IsSplit(g, cur + words, width) && Full(g, width) && g != [] && cur <= g[0]
    ensures g == Fill(cur, words, width)
    decreases words
  {
    FlattenTail(g, cur, words);
    if words == [] {
      EndsHere(cur, width, g);
    } else if |Join(cur, " ")| + 1 + |words[0]| <= width {
      GoesOn(cur, words, width, g);
      assert (cur + [words[0]]) + words[1..] == cur + words;
      FillUnique(cur + [words[0]], words[1..], width, g);
    } else {
      BreaksHere(cur, words, width, g);
      NextLine(g, words, width);
      assert [words[0]] + words[1..] == words;
      FillUnique([words[0]], words[1..], width, g[1..]);
      assert g == [cur] + g[1..];
    }
  }

  lemma EndsHere(cur: seq<string>, width: int, g: seq<seq<string>>)
    requires g != [] && cur <= g[0] && Full(g, width) && g[0][|cur|..] + Flatten(g[1..]) == []
    ensures g == [cur]
  {
    assert g[0] == cur;
  }

  lemma BreaksHere(cur: seq<string>, words: seq<string>, width: int, g: seq<seq<string>>)
    requires cur != [] && words != [] && IsSplit(g, cur + words, width) && g != [] && cur <= g[0]
    requires |Join(cur, " ")| + 1 + |words[0]| > width
    ensures g[0] == cur && Flatten(g[1..]) == words
  {
    assert [] + cur + words == cur + words && [] + cur == cur;
    BreakComesNoLater([], cur, words, width, g);
    FlattenTail(g, cur, words);
    assert g[0][|cur|..] == [];
  }

  /** A full division puts a word on the line that has room for it. */
  lemma GoesOn(cur: seq<string>, words: seq<string>, width: int, g: seq<seq<string>>)
    requires g != [] && cur <= g[0] && words != [] && Full(g, width)
    requires g[0][|cur|..] + Flatten(g[1..]) == words && |Join(cur, " ")| + 1 + |words[0]| <= width
    ensures cur + [words[0]] <= g[0]
  {
    if |g| > 1 { assert Flatten(g[1..]) == g[1] + Flatten(g[1..][1..]); }
    if g[0] != cur { assert words[0] == g[0][|cur|]; }
  }

  lemma NextLine(g: seq<seq<string>>, words: seq<string>, width: int)
    requires g != [] && Full(g, width) && Flatten(g[1..]) == words && words != []
    requires forall k :: 0 <= k < |g| ==> Fits(g[k], width)
    ensures |g| > 1 && [words[0]] <= g[1..][0] && Full(g[1..], width) && IsSplit(g[1..], words, width)
  {
    assert |g| > 1;
    assert forall k :: 0 < k < |g[1..]| ==> g[1..][k] == g[k + 1] && g[1..][k - 1] == g[k];
    assert Flatten(g[1..]) == g[1] + Flatten(g[1..][1..]);
  }

  /** The lines are the greedy ones: of all divisions into lines that fit, the one whose lines have no room for the next
      word. */
  lemma GreedyExactly(words: seq<string>, width: int, g: seq<seq<string>>)
    ensures IsSplit(g, words, width) && Full(g, width) <==> g == Greedy(words, width)
  {
    WrapIsShortest(words, width);
    if words == [] {
      if g != [] { assert Flatten(g) == g[0] + Flatten(g[1..]); }
    } else {
      FillIsFull([words[0]], words[1..], width);
      if IsSplit(g, words, width) && Full(g, width) {
        assert [words[0]] + words[1..] == words;
        assert Flatten(g) == g[0] + Flatten(g[1..]);
        FillUnique([words[0]], words[1..], width, g);
      }
    }
  }

  // ----- the text -----

  lemma {:induction false} TextsJoin(groups: seq<seq<string>>)
    requires forall k :: 0 <= k < |groups| ==> groups[k] != []
    ensures Join(Texts(groups), " ") == Join(Flatten(groups), " ")
  {
    if |groups| > 1 {
      var rest := groups[1..];
      TextsJoin(rest);
      assert rest[0] != [];
      assert Flatten(rest) == rest[0] + Flatten(rest[1..]);
      JoinConcat(groups[0], Flatten(rest), " ");
      assert Texts(groups)[1..] == Texts(rest);
    } else if |groups| == 1 {
      assert groups[1..] == [];
      assert groups[0] + [] == groups[0];
    }
  }

  /** Before the cap, the lines joined by spaces give back the words. */
  lemma WrapKeepsWords(s: string, width: int)
    ensures Join(Lines(s, width), " ") == Join(Fields(s), " ")
  {
    WrapIsShortest(Fields(s), width);
    TextsJoin(Greedy(Fields(s), width));
  }

  // ----- the cap -----

  /** The text has no division into that few lines. */
  ghost predicate Overflows(s: string, width: int, maxLines: int) {
    forall g :: IsSplit(g, Fields(s), width) ==> |g| > maxLines
  }

  /** The marked line is the start of the line it stands for, with the mark behind it: the longest that fits, when the
      width leaves room for more than the mark, and otherwise it does not fit. */
  lemma MarkedLine(line: string, width: int)
    requires 1 <= width
    ensures var marked := Truncate(line + ELLIPSIS, width);
            && marked != [] && marked[|marked| - 1] == '\U{2026}' && marked[..|marked| - 1] <= line + " "
            && (|marked| <= width <==> 2 <= width)
            && (2 <= width ==> |marked| == if |line| + 2 <= width then |line| + 2 else width)
  {
    var full := line + ELLIPSIS;
    assert full == line + " " + "\U{2026}";
    if 1 < width < |full| {
      assert full[..width - 1] == (line + " ")[..width - 1];
    } else {
      assert full[..|full| - 1] == line + " ";
    }
  }

  /** At most `maxLines` lines, the same as without the cap except that the last one is marked, which happens
      exactly when the text has no division into that few lines. */
  lemma CapIsExact(s: string, width: int, maxLines: int)
    requires 1 <= width && 1 <= maxLines
    ensures var lines, wrapped := Lines(s, width), Wrapped(s, width, maxLines);
            && |wrapped| <= maxLines
            && (!Overflows(s, width, maxLines) ==> wrapped == lines)
            && (Overflows(s, width, maxLines) ==>
                  && |wrapped| == maxLines < |lines|
                  && wrapped[..maxLines - 1] == lines[..maxLines - 1]
                  && wrapped[maxLines - 1] == Truncate(lines[maxLines - 1] + ELLIPSIS, width))
  {
    WrapIsShortest(Fields(s), width);
    assert Overflows(s, width, maxLines) <==> |Lines(s, width)| > maxLines;
  }
}
