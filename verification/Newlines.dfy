/** Line-ending normalisation, `normalizeNewlines` in `cli/internal/skillgen/skillgen.go`. */
module Newlines {
  import opened Text

  /** Every `\r\n` becomes `\n`. */
  function CollapseCRLF(s: string): string {
    if |s| >= 2 && s[0] == '\r' && s[1] == '\n' then "\n" + CollapseCRLF(s[2..])
    else if s == [] then []
    else [s[0]] + CollapseCRLF(s[1..])
  }

  /** Every `\r` becomes `\n`. */
  function CollapseCR(s: string): (r: string)
    ensures '\r' !in r && |r| == |s|
  {
    if s == [] then [] else [if s[0] == '\r' then '\n' else s[0]] + CollapseCR(s[1..])
  }

  function Normalize(s: string): (r: string)
    ensures '\r' !in r
  {
    if '\r' !in s then s else CollapseCR(CollapseCRLF(s))
  }

  /** A text saved with Windows line endings. */
  function WithCRLF(s: string): string {
    if s == [] then []
    else (if s[0] == '\n' then "\r\n" else [s[0]]) + WithCRLF(s[1..])
  }

  lemma {:induction false} CollapseWithCRLF(s: string)
    requires '\r' !in s
    ensures CollapseCRLF(WithCRLF(s)) == s
  {
    if s != [] {
      CollapseWithCRLF(s[1..]);
      var w := WithCRLF(s);
      if s[0] == '\n' {
        assert w[2..] == WithCRLF(s[1..]);
      } else {
        assert w[1..] == WithCRLF(s[1..]);
      }
      assert s == [s[0]] + s[1..];
    }
  }

  lemma {:induction false} CollapseCRFixed(s: string)
    requires '\r' !in s
    ensures CollapseCR(s) == s
  {
    if s != [] { CollapseCRFixed(s[1..]); }
  }

  /** Saving a file with CRLF endings does not change what the generator reads back. */
  lemma NormalizeWithCRLF(s: string)
    requires '\r' !in s
    ensures Normalize(WithCRLF(s)) == s
  {
    CollapseWithCRLF(s);
    CollapseCRFixed(s);
    if '\r' !in WithCRLF(s) {
      CollapseCRLFPlain(WithCRLF(s));
    }
  }

  lemma {:induction false} CollapseCRLFPlain(s: string)
    requires '\r' !in s
    ensures CollapseCRLF(s) == s
  {
    if s != [] { CollapseCRLFPlain(s[1..]); }
  }

  // ----- newlines at the end -----

  lemma NormalizeIsBoth(s: string)
    ensures Normalize(s) == CollapseCR(CollapseCRLF(s))
  {
    if '\r' !in s {
      CollapseCRLFPlain(s);
      CollapseCRFixed(s);
    }
  }

  predicate EndsInCR(s: string) {
    s != "" && s[|s| - 1] == '\r'
  }

  lemma PairStep(rest: string)
    ensures Normalize("\r\n" + rest) == "\n" + Normalize(rest)
  {
    NormalizeIsBoth("\r\n" + rest);
    NormalizeIsBoth(rest);
    assert ("\r\n" + rest)[2..] == rest;
    CollapseCRCons('\n', CollapseCRLF(rest));
  }

  lemma OtherStep(c: char, rest: string)
    requires !(c == '\r' && rest != "" && rest[0] == '\n')
    ensures Normalize([c] + rest) == [if c == '\r' then '\n' else c] + Normalize(rest)
  {
    NormalizeIsBoth([c] + rest);
    NormalizeIsBoth(rest);
    assert ([c] + rest)[1..] == rest;
    CollapseCRCons(c, CollapseCRLF(rest));
  }

  lemma CollapseCRCons(c: char, s: string)
    ensures CollapseCR([c] + s) == [if c == '\r' then '\n' else c] + CollapseCR(s)
  {
    assert ([c] + s)[1..] == s;
  }

  lemma Grouped(a: string, b: string, c: string)
    ensures a + b + c == a + (b + c)
  {
  }

  /** Two texts are normalised apart, unless the cut goes through a line ending. */
  lemma {:induction false} NormalizeConcat(x: string, s: string)
    requires EndsInCR(x) ==> s == "" || s[0] != '\n'
    ensures Normalize(x + s) == Normalize(x) + Normalize(s)
    decreases |x|, 0
  {
    if x == "" {
      assert x + s == s;
    } else if |x| >= 2 && x[0] == '\r' && x[1] == '\n' {
      PairConcat(x[2..], s);
      assert x == "\r\n" + x[2..];
    } else {
      OtherConcat(x[0], x[1..], s);
      assert x == [x[0]] + x[1..];
    }
  }

  lemma PairConcat(rest: string, s: string)
    requires EndsInCR(rest) ==> s == "" || s[0] != '\n'
    ensures Normalize("\r\n" + rest + s) == Normalize("\r\n" + rest) + Normalize(s)
    decreases |rest|, 1
  {
    NormalizeConcat(rest, s);
    PairStep(rest);
    PairStep(rest + s);
    Grouped("\r\n", rest, s);
    Grouped("\n", Normalize(rest), Normalize(s));
  }

  lemma OtherConcat(c: char, rest: string, s: string)
    requires EndsInCR(rest) || (c == '\r' && rest == "") ==> s == "" || s[0] != '\n'
    requires c == '\r' && rest != "" ==> rest[0] != '\n'
    ensures Normalize([c] + rest + s) == Normalize([c] + rest) + Normalize(s)
    decreases |rest|, 1
  {
    NormalizeConcat(rest, s);
    OtherStep(c, rest);
    StartOf(rest, s);
    OtherStep(c, rest + s);
    Grouped([c], rest, s);
    Grouped([if c == '\r' then '\n' else c], Normalize(rest), Normalize(s));
  }

  lemma StartOf(a: string, b: string)
    ensures a != "" ==> a + b != "" && (a + b)[0] == a[0]
    ensures a == "" ==> a + b == b
  {
  }

  /** A newline behind a carriage return disappears into it; behind anything else it stays. */
  lemma NewlineAtEnd(s: string)
    ensures Normalize(s + "\n") == Normalize(s) + (if EndsInCR(s) then "" else "\n")
    ensures EndsInCR(s) ==> Normalize(s) != "" && Normalize(s)[|Normalize(s)| - 1] == '\n'
  {
    if EndsInCR(s) {
      var u := s[..|s| - 1];
      assert s == u + "\r" && s + "\n" == u + "\r\n";
      NormalizeConcat(u, "\r");
      NormalizeConcat(u, "\r\n");
      LineEndings();
    } else {
      NormalizeConcat(s, "\n");
    }
  }

  lemma LineEndings()
    ensures Normalize("\r") == "\n" && Normalize("\r\n") == "\n"
  {
    OtherStep('\r', "");
    PairStep("");
    assert "\r" + "" == "\r" && "\r\n" + "" == "\r\n";
  }

  /** Newlines at the end make no difference once both the line endings and the end are cleaned. */
  lemma {:induction false} TrimBeforeNormalizing(s: string)
    ensures TrimRight(Normalize(TrimRight(s, NEWLINE)), NEWLINE) == TrimRight(Normalize(s), NEWLINE)
    decreases |s|
  {
    if s != "" && s[|s| - 1] == '\n' {
      var t := s[..|s| - 1];
      TrimBeforeNormalizing(t);
      assert s == t + "\n";
      NewlineAtEnd(t);
      DropsNewline(Normalize(t));
    }
  }

  lemma DropsNewline(s: string)
    ensures TrimRight(s + "\n", NEWLINE) == TrimRight(s, NEWLINE) && s + "" == s
  {
    assert (s + "\n")[..|s|] == s;
  }

  /** Between plain texts, a text is normalised by itself. */
  lemma NormalizeBetween(p: string, x: string, s: string)
    requires '\r' !in p && '\r' !in s && !EndsInCR(x)
    ensures Normalize(p + (x + s)) == p + (Normalize(x) + s)
  {
    NormalizeConcat(p, x + s);
    NormalizeConcat(x, s);
  }

  /** A line that is closed stays closed, and keeps its text up to newlines at the end. */
  lemma NormalizeClosed(t: string) returns (z: string)
    ensures '\r' !in z && Normalize(t + "\n") == z + "\n"
    ensures TrimRight(z, NEWLINE) == TrimRight(Normalize(t), NEWLINE)
  {
    NewlineAtEnd(t);
    var n := Normalize(t);
    z := n;
    if EndsInCR(t) {
      z := n[..|n| - 1];
      assert n == z + "\n";
      DropsNewline(z);
    }
  }
}
