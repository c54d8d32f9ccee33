/** Texts as lists of lines, and the line scanner of Go's `bufio` package. */
module TextLines {
  import opened Text

  /** Largest token of the scanners in `cli/internal/skillgen/bundled.go`, in bytes. */
  const MAX_TOKEN: nat := 1048576

  function Unlines(lines: seq<string>): string {
    if lines == [] then "" else lines[0] + "\n" + Unlines(lines[1..])
  }

  /** One trailing carriage return is not part of a scanned line. */
  function DropCR(line: string): string {
    if line != [] && line[|line| - 1] == '\r' then line[..|line| - 1] else line
  }

  /** `bufio.Scanner` over lines: it stops for good at a line that does not fit its buffer. */
  function ScanLines(s: string): seq<string>
    decreases |s|
  {
    if s == [] then []
    else
      var nl := Index(s, "\n");
      var line := if nl < 0 then s else s[..nl];
      if ByteLength(line) >= MAX_TOKEN then []
      else [DropCR(line)] + (if nl < 0 then [] else ScanLines(s[nl + 1..]))
  }

  /** Not too long for the scanner, and not ending in a carriage return. */
  predicate Fitting(line: string) {
    DropCR(line) == line && ByteLength(line) < MAX_TOKEN
  }

  /** A line that the scanner hands on unchanged. */
  predicate Scannable(line: string) {
    '\n' !in line && Fitting(line)
  }

  predicate AllScannable(lines: seq<string>) {
    forall i :: 0 <= i < |lines| ==> Scannable(lines[i])
  }

  lemma ScanCons(line: string, rest: string)
    requires Scannable(line)
    ensures ScanLines(line + "\n" + rest) == [line] + ScanLines(rest)
  {
    IndexOfChar(line, '\n', rest);
    var s := line + "\n" + rest;
    assert s[..|line|] == line && s[|line| + 1..] == rest;
  }

  /** Scanning undoes printing line by line. */
  lemma {:induction false} ScanUnlines(lines: seq<string>)
    requires AllScannable(lines)
    ensures ScanLines(Unlines(lines)) == lines
  {
    if lines != [] {
      ScanCons(lines[0], Unlines(lines[1..]));
      ScanUnlines(lines[1..]);
      assert lines == [lines[0]] + lines[1..];
    }
  }

  /** Lines that end in a carriage return and a newline are scanned without either. */
  function UnlinesCRLF(lines: seq<string>): string {
    if lines == [] then "" else lines[0] + "\r" + "\n" + UnlinesCRLF(lines[1..])
  }

  lemma {:induction false} ScanCRLF(lines: seq<string>)
    requires forall i :: 0 <= i < |lines| ==> '\n' !in lines[i] && ByteLength(lines[i] + "\r") < MAX_TOKEN
    ensures ScanLines(UnlinesCRLF(lines)) == lines
  {
    if lines != [] {
      ScanConsCRLF(lines[0], UnlinesCRLF(lines[1..]));
      ScanCRLF(lines[1..]);
      assert lines == [lines[0]] + lines[1..];
    }
  }

  lemma ScanConsCRLF(line: string, rest: string)
    requires '\n' !in line && ByteLength(line + "\r") < MAX_TOKEN
    ensures ScanLines(line + "\r" + "\n" + rest) == [line] + ScanLines(rest)
  {
    var l := line + "\r";
    IndexOfChar(l, '\n', rest);
    var s := l + "\n" + rest;
    assert s[..|l|] == l && s[|l| + 1..] == rest;
    assert l[..|l| - 1] == line;
  }

  /** Without a final newline the last line must not be empty. */
  lemma {:induction false} ScanJoin(lines: seq<string>)
    requires AllScannable(lines) && (lines != [] ==> lines[|lines| - 1] != "")
    ensures ScanLines(Join(lines, "\n")) == lines
  {
    if |lines| == 1 {
      IndexAbsent(lines[0], '\n');
    } else if |lines| > 1 {
      ScanCons(lines[0], Join(lines[1..], "\n"));
      ScanJoin(lines[1..]);
      assert lines == [lines[0]] + lines[1..];
    }
  }

  lemma {:induction false} UnlinesConcat(a: seq<string>, b: seq<string>)
    ensures Unlines(a + b) == Unlines(a) + Unlines(b)
  {
    if a == [] {
      assert a + b == b;
    } else {
      UnlinesConcat(a[1..], b);
      assert (a + b)[1..] == a[1..] + b;
    }
  }

  lemma {:induction false} UnlinesJoin(lines: seq<string>)
    requires lines != []
    ensures Unlines(lines) == Join(lines, "\n") + "\n"
  {
    if |lines| == 1 {
      assert Unlines(lines[1..]) == "";
    } else {
      UnlinesJoin(lines[1..]);
    }
  }

  lemma UnlinesSplit(s: string)
    ensures Unlines(Split(s, "\n")) == s + "\n"
  {
    JoinSplit(s, '\n');
    UnlinesJoin(Split(s, "\n"));
  }

  // ----- blank lines at the ends -----

  predicate Blank(lines: seq<string>) {
    forall i :: 0 <= i < |lines| ==> lines[i] == ""
  }

  lemma {:induction false} UnlinesBlank(lines: seq<string>)
    requires Blank(lines)
    ensures AllIn(Unlines(lines), NEWLINE)
  {
    if lines != [] { UnlinesBlank(lines[1..]); }
  }

  /** `lines` without its blank first and last lines. */
  lemma {:induction false} Core(lines: seq<string>) returns (a: seq<string>, core: seq<string>, b: seq<string>)
    ensures lines == a + core + b && Blank(a) && Blank(b)
    ensures core != [] ==> core[0] != "" && core[|core| - 1] != ""
    decreases |lines|
  {
    if lines == [] {
      a, core, b := [], [], [];
    } else if lines[0] == "" {
      a, core, b := Core(lines[1..]);
      a := [""] + a;
    } else {
      a, core, b := Tail(lines);
    }
  }

  lemma {:induction false} Tail(lines: seq<string>) returns (a: seq<string>, core: seq<string>, b: seq<string>)
    requires lines != [] && lines[0] != ""
    ensures a == [] && lines == core + b && Blank(b)
    ensures core != [] && core[0] != "" && core[|core| - 1] != ""
    decreases |lines|
  {
    var last := |lines| - 1;
    a := [];
    if lines[last] == "" {
      var _, c, d := Tail(lines[..last]);
      core, b := c, d + [""];
      assert lines == lines[..last] + [""];
    } else {
      core, b := lines, [];
    }
  }

  predicate NewlineFree(lines: seq<string>) {
    forall i :: 0 <= i < |lines| ==> '\n' !in lines[i]
  }

  lemma {:induction false} JoinEnds(lines: seq<string>)
    requires lines != [] && NewlineFree(lines) && lines[0] != "" && lines[|lines| - 1] != ""
    ensures Join(lines, "\n") != [] && Trimmed(Join(lines, "\n"), NEWLINE)
  {
    JoinLast(lines);
    assert lines[0][0] in lines[0];
    var last := lines[|lines| - 1];
    assert last[|last| - 1] in last;
  }

  lemma {:induction false} JoinLast(lines: seq<string>)
    requires lines != [] && lines[|lines| - 1] != ""
    ensures var s := Join(lines, "\n");
            var last := lines[|lines| - 1];
            s != [] && s[|s| - 1] == last[|last| - 1]
  {
    if |lines| > 1 { JoinLast(lines[1..]); }
  }

  /** Trimming newlines off printed lines removes exactly the blank lines at both ends. */
  lemma TrimUnlines(a: seq<string>, core: seq<string>, b: seq<string>)
    requires Blank(a) && Blank(b) && NewlineFree(core)
    requires core != [] ==> core[0] != "" && core[|core| - 1] != ""
    ensures Trim(Unlines(a + core + b), NEWLINE) == Join(core, "\n")
  {
    UnlinesConcat(a + core, b);
    UnlinesConcat(a, core);
    UnlinesBlank(a);
    UnlinesBlank(b);
    if core == [] {
      TrimUnique(Unlines(a), "", Unlines(b), NEWLINE);
    } else {
      UnlinesJoin(core);
      JoinEnds(core);
      TrimPadded(Unlines(a), Join(core, "\n"), Unlines(b));
    }
  }

  lemma TrimPadded(a: string, s: string, b: string)
    requires AllIn(a, NEWLINE) && AllIn(b, NEWLINE) && Trimmed(s, NEWLINE)
    ensures Trim(a + (s + "\n") + b, NEWLINE) == s
    ensures TrimRight(s + "\n" + b, NEWLINE) == s
  {
    TrimUnique(a, s, "\n" + b, NEWLINE);
    assert a + (s + "\n") + b == a + s + ("\n" + b);
    TrimRightUnique(s, "\n" + b, NEWLINE);
    assert s + "\n" + b == s + ("\n" + b);
  }

  /** Trimming newlines off the end of printed lines and closing the last one again removes exactly the
      blank lines at the end. */
  lemma TrimRightUnlines(core: seq<string>, b: seq<string>)
    requires core != [] && core[0] != "" && core[|core| - 1] != "" && NewlineFree(core) && Blank(b)
    ensures TrimRight(Unlines(core + b), NEWLINE) + "\n" == Unlines(core)
  {
    UnlinesConcat(core, b);
    UnlinesBlank(b);
    UnlinesJoin(core);
    JoinEnds(core);
    TrimPadded("", Join(core, "\n"), Unlines(b));
  }
}
