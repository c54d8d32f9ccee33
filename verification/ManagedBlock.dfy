/** The managed region that `cli/internal/skillgen/skillgen.go` keeps inside a text file:
    printing it with its hash and provenance, finding it again, and reading its body back. */
module ManagedBlock {
  import opened Text
  import opened Newlines
  import opened AnchoredText

  predicate IsHexDigit(c: char) {
    '0' <= c <= '9' || 'a' <= c <= 'f'
  }

  type HexDigit = c: char | IsHexDigit(c) witness '0'

  /** The pattern a recorded hash must match to count as written by this generator. */
  predicate IsShortHash(s: string) {
    |s| == 12 && forall i :: 0 <= i < 12 ==> IsHexDigit(s[i])
  }

  /** What the generator is configured with: its sentinels, and its content hash given as
      "the i-th hexadecimal digit of the SHA-256 sum of a text", about which nothing is assumed. */
  datatype GeneratorData = GeneratorData(mk: Markers, sha: (string, nat) -> HexDigit)

  type Generator = g: GeneratorData | g.mk.Valid() witness SampleGenerator()

  function SampleGenerator(): (g: GeneratorData)
    ensures g.mk.Valid()
  {
    assert "("[0] != ")"[0];
    GeneratorData(Markers("(", ")"), (s: string, i: nat) => '0')
  }

  function FirstDigits(g: Generator, content: string, n: nat): (h: string)
    ensures |h| == n && forall i :: 0 <= i < n ==> IsHexDigit(h[i])
  {
    if n == 0 then [] else FirstDigits(g, content, n - 1) + [g.sha(content, n - 1)]
  }

  function HashContent(g: Generator, body: string): (h: string)
    ensures IsShortHash(h)
  {
    FirstDigits(g, TrimRight(Normalize(body), NEWLINE), 12)
  }

  /** The digests of two texts differ in their first twelve digits, if the texts do. */
  predicate Apart(g: Generator, x: string, y: string) {
    x != y ==> exists i :: 0 <= i < 12 && g.sha(x, i) != g.sha(y, i)
  }

  lemma {:induction false} FirstDigitsAre(g: Generator, content: string, n: nat, i: nat)
    requires i < n
    ensures FirstDigits(g, content, n)[i] == g.sha(content, i)
  {
    if i < n - 1 { FirstDigitsAre(g, content, n - 1, i); }
  }

  /** Short of a collision of these two, two bodies have the same hash exactly when they are the same but for their line
      endings and the newlines at their ends. */
  lemma SameHashExactly(g: Generator, a: string, b: string)
    requires Apart(g, TrimRight(Normalize(a), NEWLINE), TrimRight(Normalize(b), NEWLINE))
    ensures HashContent(g, a) == HashContent(g, b)
            <==> TrimRight(Normalize(a), NEWLINE) == TrimRight(Normalize(b), NEWLINE)
  {
    var x, y := TrimRight(Normalize(a), NEWLINE), TrimRight(Normalize(b), NEWLINE);
    if x != y {
      var i :| 0 <= i < 12 && g.sha(x, i) != g.sha(y, i);
      FirstDigitsAre(g, x, 12, i);
      FirstDigitsAre(g, y, 12, i);
    }
  }

  /** What the BEGIN line says about the region. */
  function Note(hash: string, source: string): string {
    " hash=" + hash + " source=" + source
  }

  function Block(g: Generator, body: string, source: string): string {
    Printed(g.mk, Note(HashContent(g, body), source), TrimRight(body, NEWLINE))
  }

  // ----- metadata -----

  datatype Meta = Meta(hash: string, source: string)

  function MetaToken(meta: Meta, token: string): Meta {
    match Cut(token, "=")
    case None => meta
    case Some((k, v)) =>
      if k == "hash" then meta.(hash := v)
      else if k == "source" then meta.(source := v)
      else meta
  }

  /** What the first `n` tokens say: the last `hash=` and the last `source=` win. */
  function MetaTokens(tokens: seq<string>, n: nat): Meta
    requires n <= |tokens|
  {
    if n == 0 then Meta("", "") else MetaToken(MetaTokens(tokens, n - 1), tokens[n - 1])
  }

  function ParseMeta(s: string): Meta {
    var tokens := Fields(s);
    MetaTokens(tokens, |tokens|)
  }

  lemma TokenKey(key: string, value: string, token: string)
    requires '=' !in key && token == key + "=" + value
    ensures Cut(token, "=") == Some((key, value))
  {
    CutAtChar(key, '=', value);
  }

  lemma NoteTokens(w1: string, w2: string)
    requires w1 != [] && SpaceFree(w1) && w2 != [] && SpaceFree(w2)
    ensures Fields(" " + w1 + (" " + w2 + "")) == [w1, w2]
  {
    FieldsCons(" ", w1, " " + w2 + "");
    FieldsCons(" ", w2, "");
    FieldsBlank("");
  }

  lemma TwoTokens(w1: string, w2: string)
    ensures MetaTokens([w1, w2], 2) == MetaToken(MetaToken(Meta("", ""), w1), w2)
  {
    assert MetaTokens([w1, w2], 1) == MetaToken(MetaTokens([w1, w2], 0), w1);
  }

  /** Parsing the metadata undoes printing it. */
  lemma ParsePrintedMeta(hash: string, source: string)
    requires SpaceFree(hash) && SpaceFree(source)
    ensures ParseMeta(Note(hash, source)) == Meta(hash, source)
  {
    var w1, w2 := "hash" + "=" + hash, "source" + "=" + source;
    NoteShape(hash, source);
    NoteTokens(w1, w2);
    TwoTokens(w1, w2);
    TokenKey("hash", hash, w1);
    TokenKey("source", source, w2);
  }

  lemma NoteShape(hash: string, source: string)
    ensures Note(hash, source) == " " + ("hash" + "=" + hash) + (" " + ("source" + "=" + source) + "")
  {
  }

  lemma {:induction false} FirstTokens(tokens: seq<string>, w: string, n: nat)
    requires n <= |tokens|
    ensures MetaTokens(tokens + [w], n) == MetaTokens(tokens, n)
  {
    if n > 0 { FirstTokens(tokens, w, n - 1); }
  }

  lemma LastToken(s: string, w: string)
    requires w != [] && SpaceFree(w)
    ensures ParseMeta(s + " " + w) == MetaToken(ParseMeta(s), w)
  {
    FieldsSnoc(s, w);
    FirstTokens(Fields(s), w, |Fields(s)|);
  }

  /** Of several hashes or sources on a line the last one counts, and nothing else on it does. */
  lemma LastOneWins(s: string, w: string)
    requires SpaceFree(w)
    ensures ParseMeta(s + " " + ("hash" + "=" + w)) == ParseMeta(s).(hash := w)
    ensures ParseMeta(s + " " + ("source" + "=" + w)) == ParseMeta(s).(source := w)
    ensures w != "" && !("hash" + "=" <= w) && !("source" + "=" <= w) ==> ParseMeta(s + " " + w) == ParseMeta(s)
  {
    TokenKey("hash", w, "hash" + "=" + w);
    TokenKey("source", w, "source" + "=" + w);
    LastToken(s, "hash" + "=" + w);
    LastToken(s, "source" + "=" + w);
    if w != "" && !("hash" + "=" <= w) && !("source" + "=" <= w) {
      LastToken(s, w);
      OtherKey(w, "hash");
      OtherKey(w, "source");
    }
  }

  lemma OtherKey(w: string, key: string)
    requires !(key + "=" <= w)
    ensures Cut(w, "=") == None || Cut(w, "=").value.0 != key
  {
    IndexChar(w, '=');
    var i := Index(w, "=");
    if i >= 0 { assert w[..i + 1] == w[..i] + "="; }
  }

  // ----- finding the region -----

  /** What is known about a region found in a file; offsets are into the normalised text. */
  datatype Found = NoBlock | Region(hash: string, source: string, start: nat, end: nat)

  function BlockIn(g: Generator, data: string): (blk: Found)
    ensures blk.Region? ==> blk.start < blk.end <= |Normalize(data)|
  {
    var s := Normalize(data);
    match FindSpan(g.mk, s)
    case NoSpan => NoBlock
    case Span(start, note, end) =>
      var meta := ParseMeta(note);
      Region(meta.hash, meta.source, start, end)
  }

  method FindBlock(g: Generator, data: string) returns (blk: Found)
    ensures blk == BlockIn(g, data)
  {
    var s := Normalize(data);
    var bi := LineAnchoredIndex(s, g.mk.open);
    if bi < 0 {
      return NoBlock;
    }
    var relEnd := LineAnchoredIndex(s[bi..], g.mk.close);
    if relEnd < 0 {
      return NoBlock;
    }
    FoundSpan(g.mk, s, bi, relEnd);
    var note := s[bi + |g.mk.open|..LineEnd(s, bi)];
    var meta := ReadMeta(note);
    assert FindSpan(g.mk, s) == Span(bi, note, bi + relEnd + |g.mk.close|);
    blk := Region(meta.hash, meta.source, bi, bi + relEnd + |g.mk.close|);
  }

  method ReadMeta(rest: string) returns (meta: Meta)
    ensures meta == ParseMeta(rest)
  {
    var tokens := Fields(rest);
    var hash, source := "", "";
    for i := 0 to |tokens|
      invariant Meta(hash, source) == MetaTokens(tokens, i)
    {
      match Cut(tokens[i], "=")
      case None =>
      case Some((k, v)) =>
        if k == "hash" {
          hash := v;
        } else if k == "source" {
          source := v;
        }
    }
    meta := Meta(hash, source);
  }

  function TrimSuffix(s: string, suffix: string): string {
    if |suffix| <= |s| && s[|s| - |suffix|..] == suffix then s[..|s| - |suffix|] else s
  }

  /** The text between the first line of a region and its closing marker. */
  function RegionBody(region: string, close: string): string {
    var nl := Index(region, "\n");
    var inner := if nl >= 0 then region[nl + 1..] else region;
    TrimRight(TrimSuffix(inner, close), NEWLINE)
  }

  function CurrentBlockBody(g: Generator, data: string, blk: Found): string
    requires blk.Region? && blk.start <= blk.end <= |data|
  {
    RegionBody(data[blk.start..blk.end], g.mk.close)
  }

  // ----- finding what was printed -----

  /** Text a region may follow: it ends a line and no line of it begins with the BEGIN marker. */
  predicate OpenPrefix(g: Generator, p: string) {
    LineStart(p, |p|) && '\r' !in p && !HasLine(p, g.mk.open)
  }

  /** A body that cannot be mistaken for the end of its own region. */
  predicate BodyOk(g: Generator, body: string) {
    '\r' !in body && !HasLine(body, g.mk.close)
  }

  lemma HashIsPlain(hash: string)
    requires IsShortHash(hash)
    ensures SpaceFree(hash) && '\n' !in hash && '\r' !in hash
  {
  }

  lemma NoteIsPlain(hash: string, source: string)
    requires IsShortHash(hash) && '\n' !in source && '\r' !in source
    ensures '\n' !in Note(hash, source) && '\r' !in Note(hash, source)
  {
    HashIsPlain(hash);
  }

  /** The BEGIN line of a region for `body` is one line and is read as recording its hash, whatever else the
      source puts there. */
  predicate NoteTells(g: Generator, body: string, source: string) {
    && '\n' !in source && '\r' !in source
    && ParseMeta(Note(HashContent(g, body), source)).hash == HashContent(g, body)
  }

  lemma SpaceFreeTells(g: Generator, body: string, source: string)
    requires SpaceFree(source)
    ensures NoteTells(g, body, source)
    ensures ParseMeta(Note(HashContent(g, body), source)) == Meta(HashContent(g, body), source)
  {
    HashIsPlain(HashContent(g, body));
    ParsePrintedMeta(HashContent(g, body), source);
    PlainSource(source);
  }

  lemma PlainSource(source: string)
    requires SpaceFree(source)
    ensures '\n' !in source && '\r' !in source
  {
  }

  lemma AfterFirstLine(head: string, tail: string)
    ensures (head + "\n" + tail)[|head| + 1..] == tail
  {
  }

  lemma DropsSuffix(s: string, suffix: string)
    ensures TrimSuffix(s + suffix, suffix) == s
  {
    assert (s + suffix)[|s|..] == suffix && (s + suffix)[..|s|] == s;
  }

  /** The body of a printed region is read back, up to newlines at its end. */
  lemma PrintedBody(mk: Markers, note: string, body: string)
    requires mk.Valid() && '\n' !in note
    ensures RegionBody(Printed(mk, note, body), mk.close) == TrimRight(body, NEWLINE)
  {
    var inner := body + "\n" + mk.close;
    PrintedLine(mk, note, body);
    IndexOfChar(mk.open + note, '\n', inner);
    AfterFirstLine(mk.open + note, inner);
    DropsSuffix(body + "\n", mk.close);
    DropsNewline(body);
  }

  lemma PrintedLine(mk: Markers, note: string, body: string)
    ensures Printed(mk, note, body) == (mk.open + note) + "\n" + (body + "\n" + mk.close)
  {
  }

  lemma TrimmedBody(g: Generator, body: string)
    requires BodyOk(g, body)
    ensures var t := TrimRight(body, NEWLINE);
            && BodyOk(g, t) && (t != [] ==> t[|t| - 1] != '\n')
  {
    var tail := TrimRightParts(body, NEWLINE);
    HasLinePrefix(TrimRight(body, NEWLINE), tail, g.mk.close);
    TrimRightEnd(body, NEWLINE);
  }

  /** A printed region holds no carriage return. */
  lemma PrintedIsPlain(g: Generator, body: string, source: string)
    requires '\r' !in body && '\n' !in source && '\r' !in source
    ensures '\r' !in Block(g, body, source)
  {
    NoteIsPlain(HashContent(g, body), source);
    var tail := TrimRightParts(body, NEWLINE);
  }

  lemma BlockInIs(g: Generator, text: string, span: Span, meta: Meta)
    requires '\r' !in text && span.Span? && FindSpan(g.mk, text) == span && ParseMeta(span.note) == meta
    ensures BlockIn(g, text) == Region(meta.hash, meta.source, span.start, span.end)
  {
  }

  /** A region printed with any one-line note is the region found, with whatever the note is read to say. */
  lemma FindPrintedNote(g: Generator, p: string, note: string, body: string, suffix: string)
    requires OpenPrefix(g, p) && BodyOk(g, body) && '\n' !in note && '\r' !in note && '\r' !in suffix
    ensures var text := p + Printed(g.mk, note, body) + suffix;
            var meta := ParseMeta(note);
            var blk := Region(meta.hash, meta.source, |p|, |p| + |Printed(g.mk, note, body)|);
            && '\r' !in text
            && BlockIn(g, text) == blk
            && CurrentBlockBody(g, text, blk) == TrimRight(body, NEWLINE)
  {
    var text := p + Printed(g.mk, note, body) + suffix;
    FindPrinted(g.mk, p, note, body, suffix);
    BlockInIs(g, text, Span(|p|, note, |p| + |Printed(g.mk, note, body)|), ParseMeta(note));
    MiddleOf(p, Printed(g.mk, note, body), suffix);
    PrintedBody(g.mk, note, body);
  }

  /** The region printed is the region found, with whatever its BEGIN line is read to say. */
  lemma FindPrintedLine(g: Generator, p: string, body: string, source: string, suffix: string)
    requires OpenPrefix(g, p) && BodyOk(g, body) && '\n' !in source && '\r' !in source && '\r' !in suffix
    ensures var text := p + Block(g, body, source) + suffix;
            var meta := ParseMeta(Note(HashContent(g, body), source));
            var blk := Region(meta.hash, meta.source, |p|, |p| + |Block(g, body, source)|);
            && '\r' !in text
            && BlockIn(g, text) == blk
            && CurrentBlockBody(g, text, blk) == TrimRight(body, NEWLINE)
  {
    var trimmed := TrimRight(body, NEWLINE);
    NoteIsPlain(HashContent(g, body), source);
    TrimmedBody(g, body);
    FindPrintedNote(g, p, Note(HashContent(g, body), source), trimmed, suffix);
    assert TrimRight(trimmed, NEWLINE) == trimmed;
  }

  /** Finding undoes printing, whatever surrounds the region: the offsets, the metadata and the body. */
  lemma FindPrintedBlock(g: Generator, p: string, body: string, source: string, suffix: string)
    requires OpenPrefix(g, p) && BodyOk(g, body) && SpaceFree(source) && '\r' !in suffix
    ensures var text := p + Block(g, body, source) + suffix;
            var blk := Region(HashContent(g, body), source, |p|, |p| + |Block(g, body, source)|);
            && '\r' !in text
            && BlockIn(g, text) == blk
            && CurrentBlockBody(g, text, blk) == TrimRight(body, NEWLINE)
  {
    SpaceFreeTells(g, body, source);
    FindPrintedLine(g, p, body, source, suffix);
  }
}
