/** Files that belong to the generator as a whole: the exact edit guard, and removal. */
module SkillDedicated {
  import opened Text
  import opened Newlines
  import opened TextLines
  import opened AnchoredText
  import opened ManagedBlock
  import opened Splicing
  import opened SkillRender
  import opened SkillApply
  import opened SkillRuns

  // ----- the file after an apply -----

  predicate FrontFits(g: Generator, frontmatter: string) {
    '\r' !in frontmatter && !HasLine(frontmatter, g.mk.open)
  }

  function Prelude(frontmatter: string): string {
    TrimRight(frontmatter, NEWLINE) + "\n\n"
  }

  lemma DedicatedManages(g: Generator, frontmatter: string, c: Canonical)
    requires FrontFits(g, frontmatter) && Fits(g, c)
    ensures Manages(g, Dedicated(g, frontmatter, c), Prelude(frontmatter), RenderBody(c), SourceOf(c), "\n")
  {
    PreludeIsOpen(g, frontmatter);
  }

  lemma PreludeIsOpen(g: Generator, frontmatter: string)
    requires FrontFits(g, frontmatter)
    ensures OpenPrefix(g, Prelude(frontmatter))
  {
    var t := TrimRight(frontmatter, NEWLINE);
    var tail := TrimRightParts(frontmatter, NEWLINE);
    HasLinePrefix(t, tail, g.mk.open);
    HasLineNewline(t, g.mk.open);
    HasLineNewline(t + "\n", g.mk.open);
    assert t + "\n" + "\n" == t + "\n\n";
  }

  /** An accepted apply leaves exactly the rendered file, whether it had to write it or not. */
  lemma AppliedDedicated(g: Generator, a: Adapter, c: Canonical, file: Option<string>, force: bool)
    requires OwnsWholeFile(a) && !ApplyTo(g, a, c, file, force, false).0.userEdits
    ensures ApplyTo(g, a, c, file, force, false).1 == Some(Dedicated(g, Frontmatter(a, c), c))
  {
    var want := Dedicated(g, Frontmatter(a, c), c);
    assert want[|want| - 1] == '\n';
  }

  lemma PreludeTrimmed(frontmatter: string)
    ensures TrimSpace(Prelude(frontmatter)) == TrimSpace(frontmatter)
    ensures Trim(Prelude(frontmatter) + "\n", NEWLINE) == Trim(frontmatter, NEWLINE)
  {
    var t := TrimRight(frontmatter, NEWLINE);
    var tail := TrimRightParts(frontmatter, NEWLINE);
    assert IsSpace('\n');
    SameTrimmed(t, tail, "\n\n", SPACES);
    SameTrimmed(t, tail, "\n\n\n", NEWLINE);
    assert t + "\n\n\n" == t + "\n\n" + "\n";
  }

  lemma SameTrimmed(t: string, x: string, y: string, cut: set<char>)
    requires AllIn(x, cut) && AllIn(y, cut)
    ensures Trim(t + x, cut) == Trim(t + y, cut)
  {
    TrimIgnoresPadding("", t, x, cut);
    TrimIgnoresPadding("", t, y, cut);
    assert "" + t + x == t + x && "" + t + y == t + y;
  }

  /** What surrounds the region in a rendered file. */
  lemma DedicatedState(g: Generator, frontmatter: string, c: Canonical)
    requires FrontFits(g, frontmatter) && Fits(g, c)
    ensures var text := Dedicated(g, frontmatter, c);
            Settled(g, text, Prelude(frontmatter), "\n", HashContent(g, RenderBody(c)))
  {
    DedicatedManages(g, frontmatter, c);
    ManagedState(g, Dedicated(g, frontmatter, c), Prelude(frontmatter), RenderBody(c), SourceOf(c), "\n");
  }

  /** The guard on a file just rendered from `c1`, when `c2` comes next. */
  lemma GuardOnDedicated(g: Generator, a: Adapter, c1: Canonical, c2: Canonical)
    requires OwnsWholeFile(a) && Fits(g, c1) && Fits(g, c2)
    requires FrontFits(g, Frontmatter(a, c1)) && FrontFits(g, Frontmatter(a, c2))
    ensures Edited(g, a, c2, Dedicated(g, Frontmatter(a, c1), c1))
            <==> TrimSpace(Frontmatter(a, c1)) != TrimSpace(Frontmatter(a, c2))
  {
    DedicatedState(g, Frontmatter(a, c1), c1);
    DedicatedState(g, Frontmatter(a, c2), c2);
    DedicatedManages(g, Frontmatter(a, c2), c2);
    ManagedState(g, Dedicated(g, Frontmatter(a, c2), c2), Prelude(Frontmatter(a, c2)), RenderBody(c2), SourceOf(c2),
                 "\n");
    PreludeTrimmed(Frontmatter(a, c1));
    PreludeTrimmed(Frontmatter(a, c2));
  }

  /** The exact edit guard: an unforced apply of `c2` right after an accepted apply of `c1` is refused on a
      file of ours exactly when the two frontmatters differ up to surrounding white space. */
  lemma GuardIsExact(g: Generator, a: Adapter, c1: Canonical, c2: Canonical, file: Option<string>, force: bool,
                     dryRun: bool)
    requires OwnsWholeFile(a) && Fits(g, c1) && Fits(g, c2)
    requires FrontFits(g, Frontmatter(a, c1)) && FrontFits(g, Frontmatter(a, c2))
    requires !ApplyTo(g, a, c1, file, force, false).0.userEdits
    ensures ApplyTo(g, a, c2, ApplyTo(g, a, c1, file, force, false).1, false, dryRun).0.userEdits
            <==> TrimSpace(Frontmatter(a, c1)) != TrimSpace(Frontmatter(a, c2))
  {
    AppliedDedicated(g, a, c1, file, force);
    GuardOnDedicated(g, a, c1, c2);
  }

  /** On a shared file an unforced apply right after an accepted one is never refused. */
  lemma SharedNeverRefused(g: Generator, c1: Canonical, c2: Canonical, file: Option<string>, force: bool, dryRun: bool)
    requires Fits(g, c1) && Spliceable(g, TextOf(file))
    requires !ApplyTo(g, Agents, c1, file, force, false).0.userEdits
    ensures !ApplyTo(g, Agents, c2, ApplyTo(g, Agents, c1, file, force, false).1, false, dryRun).0.userEdits
  {
    ApplySettles(g, c1, file, force);
  }

  // ----- the frontmatter line by line -----

  /** The lines that are the same for every skill on the hermes file. */
  const HERMES_LINES: seq<string> :=
    ["metadata:", "  hermes:", "    category: api", "    tags: [jentic, api, broker, cli]"]

  function FrontLines(a: Adapter, c: Canonical): seq<string>
    requires OwnsWholeFile(a)
  {
    if a.DirSkill? then ["name: " + c.name, "description: " + c.description]
    else ["name: " + c.name, "description: " + HermesDescription(c.description), "version: " + c.version] + HERMES_LINES
  }

  function Fenced(lines: seq<string>): string {
    "---\n" + Join(lines, "\n") + "\n---"
  }

  lemma TwoJoined(a: string, b: string)
    ensures Join([a, b], "\n") == a + "\n" + b
  {
    assert [a, b][1..] == [b];
  }

  lemma ThreeJoined(a: string, b: string, c: string)
    ensures Join([a, b, c], "\n") == a + "\n" + b + "\n" + c
  {
    TwoJoined(a, b);
    JoinConcat([a, b], [c], "\n");
    assert [a, b] + [c] == [a, b, c];
  }

  lemma FourJoined(a: string, b: string, c: string, d: string)
    ensures Join([a, b, c, d], "\n") == a + "\n" + b + "\n" + c + "\n" + d
  {
    ThreeJoined(a, b, c);
    JoinConcat([a, b, c], [d], "\n");
    assert [a, b, c] + [d] == [a, b, c, d];
  }

  lemma FrontShape(a: Adapter, c: Canonical)
    requires OwnsWholeFile(a)
    ensures Frontmatter(a, c) == Fenced(FrontLines(a, c)) + "\n"
  {
    if a.DirSkill? {
      TwoJoined("name: " + c.name, "description: " + c.description);
      DirShape(c.name, c.description);
    } else {
      var d := HermesDescription(c.description);
      var first := ["name: " + c.name, "description: " + d, "version: " + c.version];
      ThreeJoined("name: " + c.name, "description: " + d, "version: " + c.version);
      JoinConcat(first, HERMES_LINES, "\n");
      HermesShape(c.name, d, c.version);
    }
  }

  lemma DirShape(name: string, description: string)
    ensures "---\nname: " + name + "\ndescription: " + description + "\n---\n"
         == "---\n" + (("name: " + name) + "\n" + ("description: " + description)) + "\n---" + "\n"
  {
  }

  lemma HermesShape(name: string, description: string, version: string)
    ensures "---\n" + "name: " + name + "\n" + "description: " + description + "\n"
            + "version: " + version + "\n" + "metadata:\n  hermes:\n    category: api\n"
            + "    tags: [jentic, api, broker, cli]\n" + "---\n"
         == "---\n" + (("name: " + name) + "\n" + ("description: " + description) + "\n" + ("version: " + version)
                       + "\n" + Join(HERMES_LINES, "\n")) + "\n---" + "\n"
  {
    HermesTail();
    FrontAround("name: ", name, "description: ", description, "version: ", version,
                "metadata:\n  hermes:\n    category: api\n", "    tags: [jentic, api, broker, cli]\n",
                Join(HERMES_LINES, "\n"));
  }

  /** Three keyed lines and the fixed ones behind them, between two fences. */
  lemma FrontAround(k1: string, v1: string, k2: string, v2: string, k3: string, v3: string, a: string, b: string,
                    tail: string)
    requires tail + "\n" == a + b
    ensures "---\n" + k1 + v1 + "\n" + k2 + v2 + "\n" + k3 + v3 + "\n" + a + b + "---\n"
         == "---\n" + ((k1 + v1) + "\n" + (k2 + v2) + "\n" + (k3 + v3) + "\n" + tail) + "\n---" + "\n"
  {
    Keyed("---\n", k1, v1, k2, v2, k3, v3);
    FenceAround("---\n", (k1 + v1) + "\n" + (k2 + v2) + "\n" + (k3 + v3), a, b, tail, "---");
    assert "---" + "\n" == "---\n" && "\n" + "---" == "\n---";
  }

  lemma HermesTail()
    ensures Join(HERMES_LINES, "\n") + "\n"
         == "metadata:\n  hermes:\n    category: api\n" + "    tags: [jentic, api, broker, cli]\n"
  {
    FourJoined("metadata:", "  hermes:", "    category: api", "    tags: [jentic, api, broker, cli]");
    HermesHead();
    HermesTags();
    Closed("metadata:" + "\n" + "  hermes:" + "\n" + "    category: api", "    tags: [jentic, api, broker, cli]");
  }

  lemma HermesHead()
    ensures "metadata:" + "\n" + "  hermes:" + "\n" + "    category: api" + "\n"
         == "metadata:\n  hermes:\n    category: api\n"
  {
  }

  lemma HermesTags()
    ensures "    tags: [jentic, api, broker, cli]" + "\n" == "    tags: [jentic, api, broker, cli]\n"
  {
  }

  lemma Closed(x: string, y: string)
    ensures x + "\n" + y + "\n" == (x + "\n") + (y + "\n")
  {
  }

  lemma Keyed(p: string, a: string, x: string, b: string, y: string, c: string, z: string)
    ensures p + a + x + "\n" + b + y + "\n" + c + z + "\n"
         == p + ((a + x) + "\n" + (b + y) + "\n" + (c + z)) + "\n"
  {
  }

  lemma FenceAround(p: string, front: string, a: string, b: string, tail: string, fence: string)
    requires tail + "\n" == a + b
    ensures p + front + "\n" + a + b + (fence + "\n") == p + (front + "\n" + tail) + ("\n" + fence) + "\n"
  {
    Reassociated(p + front + "\n", a, b);
  }

  /** The frontmatter values are single lines. */
  predicate PlainFront(c: Canonical) {
    && '\n' !in c.name && '\r' !in c.name
    && '\n' !in c.description && '\r' !in c.description
    && '\n' !in c.version && '\r' !in c.version
  }

  /** A field line: one line that starts like a word. */
  predicate FieldLine(l: string) {
    l != "" && l[0] != '-' && l[0] != '<' && '\n' !in l && '\r' !in l
  }

  predicate FieldLines(lines: seq<string>) {
    lines != [] && forall i :: 0 <= i < |lines| ==> FieldLine(lines[i])
  }

  lemma HermesDescriptionPlain(full: string, c: char)
    requires c !in full && (c == '\n' || c == '\r')
    ensures c !in HermesDescription(full)
  {
    TrimAddsNothing(full, SPACES, c);
    var sentence := FirstSentence(TrimSpace(full));
    assert forall i :: 0 <= i < |sentence| ==> sentence[i] == TrimSpace(full)[i];
    TrimAddsNothing(sentence, SPACES, c);
    FallbackPlain();
  }

  lemma FallbackPlain()
    ensures '\n' !in "Find and run third-party APIs via" + " the Jentic CLI."
    ensures '\r' !in "Find and run third-party APIs via" + " the Jentic CLI."
  {
    var a, b := "Find and run third-party APIs via", " the Jentic CLI.";
    assert '\n' !in a && '\r' !in a && '\n' !in b && '\r' !in b;
  }

  lemma KeyLine(key: string, value: string)
    requires FieldLine(key) && '\n' !in value && '\r' !in value
    ensures FieldLine(key + value)
  {
    assert (key + value)[0] == key[0];
  }

  lemma FrontLinesPlain(a: Adapter, c: Canonical)
    requires OwnsWholeFile(a) && PlainFront(c)
    ensures FieldLines(FrontLines(a, c))
  {
    KeyLine("name: ", c.name);
    KeyLine("description: ", c.description);
    if a.Hermes? {
      HermesDescriptionPlain(c.description, '\n');
      HermesDescriptionPlain(c.description, '\r');
      HermesFrontPlain(c.name, HermesDescription(c.description), c.version);
    }
  }

  lemma HermesFrontPlain(name: string, description: string, version: string)
    requires '\n' !in name && '\n' !in description && '\n' !in version
    requires '\r' !in name && '\r' !in description && '\r' !in version
    ensures FieldLines(["name: " + name, "description: " + description, "version: " + version] + HERMES_LINES)
  {
    KeyLine("name: ", name);
    KeyLine("description: ", description);
    KeyLine("version: ", version);
    HermesLinesPlain();
  }

  lemma HermesLinesPlain()
    ensures FieldLines(HERMES_LINES)
  {
    TagsPlain();
  }

  lemma TagsPlain()
    ensures FieldLine("    tags: [jentic, api, broker, cli]")
  {
  }

  lemma {:induction false} NoLineInUnlines(lines: seq<string>, m: string)
    requires m != [] && '\n' !in m
    requires forall i :: 0 <= i < |lines| ==> '\n' !in lines[i] && !(m <= lines[i])
    ensures !HasLine(Unlines(lines), m) && LineStart(Unlines(lines), |Unlines(lines)|)
  {
    if lines != [] {
      NoLineInUnlines(lines[1..], m);
      HasLineSingle(lines[0], m);
      HasLineNewline(lines[0], m);
      NoLineIn(lines[0] + "\n", Unlines(lines[1..]), m);
    }
  }

  lemma FencedUnlines(lines: seq<string>)
    requires lines != []
    ensures Fenced(lines) + "\n" == Unlines(["---"] + lines + ["---"])
  {
    UnlinesConcat(["---"] + lines, ["---"]);
    UnlinesConcat(["---"], lines);
    UnlinesJoin(lines);
    assert ["---"][1..] == [];
    FencedShape(Join(lines, "\n"));
  }

  lemma FencedShape(j: string)
    ensures "---\n" + j + "\n---" + "\n" == "---" + "\n" + "" + (j + "\n") + ("---" + "\n" + "")
  {
  }

  lemma {:induction false} UnlinesPlain(lines: seq<string>)
    requires forall i :: 0 <= i < |lines| ==> '\r' !in lines[i]
    ensures '\r' !in Unlines(lines)
  {
    if lines != [] { UnlinesPlain(lines[1..]); }
  }

  /** Single-line values give a frontmatter that the region can follow. */
  lemma PlainFrontFits(g: Generator, a: Adapter, c: Canonical)
    requires OwnsWholeFile(a) && PlainFront(c) && g.mk.open[0] == '<'
    ensures FrontFits(g, Frontmatter(a, c))
  {
    var lines := FrontLines(a, c);
    FrontLinesPlain(a, c);
    FrontShape(a, c);
    FencedUnlines(lines);
    FencedPlain(lines, g.mk.open);
    NoLineInUnlines(["---"] + lines + ["---"], g.mk.open);
    UnlinesPlain(["---"] + lines + ["---"]);
  }

  lemma FencedPlain(lines: seq<string>, m: string)
    requires FieldLines(lines) && m != [] && m[0] == '<'
    ensures var all := ["---"] + lines + ["---"];
            forall i :: 0 <= i < |all| ==> '\n' !in all[i] && '\r' !in all[i] && !(m <= all[i])
  {
    var all := ["---"] + lines + ["---"];
    forall i | 0 <= i < |all| ensures '\n' !in all[i] && '\r' !in all[i] && !(m <= all[i]) {
      assert all[i] == "---" || FieldLine(all[i]);
    }
  }

  // ----- when the guard of the claude and cursor files refuses -----

  lemma FencedTrimmed(lines: seq<string>)
    ensures TrimSpace(Fenced(lines) + "\n") == Fenced(lines) && TrimSpace(Fenced(lines)) == Fenced(lines)
    ensures Trim(Fenced(lines) + "\n", NEWLINE) == Fenced(lines)
  {
    var s := Fenced(lines);
    assert s[0] == '-' && s[|s| - 1] == '-';
    assert IsSpace('\n');
    TrimUnique("", s, "\n", SPACES);
    TrimUnique("", s, "\n", NEWLINE);
    assert "" + s + "\n" == s + "\n";
    TrimmedIsFixed(s, SPACES);
  }

  lemma SamePrefix(p: string, a: string, b: string)
    requires p + a == p + b
    ensures a == b
  {
    assert (p + a)[|p|..] == a && (p + b)[|p|..] == b;
  }

  lemma SameSuffix(a: string, b: string, s: string)
    requires a + s == b + s
    ensures a == b
  {
    assert |a| == |b|;
    assert (a + s)[..|a|] == a && (b + s)[..|b|] == b;
  }

  /** The lines can be told from the printed frontmatter. */
  lemma FencedInjective(l1: seq<string>, l2: seq<string>)
    requires FieldLines(l1) && FieldLines(l2) && Fenced(l1) == Fenced(l2)
    ensures l1 == l2
  {
    var j1, j2 := Join(l1, "\n"), Join(l2, "\n");
    SameSuffix("---\n" + j1, "---\n" + j2, "\n---");
    SamePrefix("---\n", j1, j2);
    FieldsSplit(l1);
    FieldsSplit(l2);
  }

  lemma FieldsSplit(lines: seq<string>)
    requires FieldLines(lines)
    ensures Split(Join(lines, "\n"), "\n") == lines
  {
    forall p | p in lines ensures '\n' !in p {
      var i :| 0 <= i < |lines| && lines[i] == p;
    }
    SplitJoin(lines, '\n');
  }

  /** On a file of ours, the update is refused exactly when some frontmatter line has changed. */
  lemma GuardByLines(g: Generator, a: Adapter, c1: Canonical, c2: Canonical, file: Option<string>, force: bool,
                     dryRun: bool)
    requires OwnsWholeFile(a) && Fits(g, c1) && Fits(g, c2) && PlainFront(c1) && PlainFront(c2) && g.mk.open[0] == '<'
    requires !ApplyTo(g, a, c1, file, force, false).0.userEdits
    ensures ApplyTo(g, a, c2, ApplyTo(g, a, c1, file, force, false).1, false, dryRun).0.userEdits
            <==> FrontLines(a, c1) != FrontLines(a, c2)
  {
    PlainFrontFits(g, a, c1);
    PlainFrontFits(g, a, c2);
    GuardIsExact(g, a, c1, c2, file, force, dryRun);
    FrontShape(a, c1);
    FrontShape(a, c2);
    FencedTrimmed(FrontLines(a, c1));
    FencedTrimmed(FrontLines(a, c2));
    FrontLinesPlain(a, c1);
    FrontLinesPlain(a, c2);
    if Fenced(FrontLines(a, c1)) == Fenced(FrontLines(a, c2)) {
      FencedInjective(FrontLines(a, c1), FrontLines(a, c2));
    }
  }

  lemma SameKeyLine(key: string, v1: string, v2: string)
    ensures key + v1 == key + v2 <==> v1 == v2
  {
    if key + v1 == key + v2 { SamePrefix(key, v1, v2); }
  }

  /** On the claude and cursor files: refused exactly when the name or the description has changed. */
  lemma DirSkillGuard(g: Generator, c1: Canonical, c2: Canonical, file: Option<string>, force: bool, dryRun: bool)
    requires Fits(g, c1) && Fits(g, c2) && PlainFront(c1) && PlainFront(c2) && g.mk.open[0] == '<'
    requires !ApplyTo(g, DirSkill, c1, file, force, false).0.userEdits
    ensures ApplyTo(g, DirSkill, c2, ApplyTo(g, DirSkill, c1, file, force, false).1, false, dryRun).0.userEdits
            <==> c1.name != c2.name || c1.description != c2.description
  {
    GuardByLines(g, DirSkill, c1, c2, file, force, dryRun);
    DirLinesDiffer(c1, c2);
  }

  lemma DirLinesDiffer(c1: Canonical, c2: Canonical)
    ensures FrontLines(DirSkill, c1) != FrontLines(DirSkill, c2)
            <==> c1.name != c2.name || c1.description != c2.description
  {
    var l1, l2 := FrontLines(DirSkill, c1), FrontLines(DirSkill, c2);
    assert l1 == l2 <==> l1[0] == l2[0] && l1[1] == l2[1];
    SameKeyLine("name: ", c1.name, c2.name);
    SameKeyLine("description: ", c1.description, c2.description);
  }

  /** On the hermes file: refused exactly when the name, the version or the short description has changed. */
  lemma HermesGuard(g: Generator, c1: Canonical, c2: Canonical, file: Option<string>, force: bool, dryRun: bool)
    requires Fits(g, c1) && Fits(g, c2) && PlainFront(c1) && PlainFront(c2) && g.mk.open[0] == '<'
    requires !ApplyTo(g, Hermes, c1, file, force, false).0.userEdits
    ensures ApplyTo(g, Hermes, c2, ApplyTo(g, Hermes, c1, file, force, false).1, false, dryRun).0.userEdits
            <==> c1.name != c2.name || c1.version != c2.version
                 || HermesDescription(c1.description) != HermesDescription(c2.description)
  {
    GuardByLines(g, Hermes, c1, c2, file, force, dryRun);
    HermesLinesDiffer(c1, c2);
  }

  lemma HermesLinesDiffer(c1: Canonical, c2: Canonical)
    ensures FrontLines(Hermes, c1) != FrontLines(Hermes, c2)
            <==> c1.name != c2.name || c1.version != c2.version
                 || HermesDescription(c1.description) != HermesDescription(c2.description)
  {
    var d1, d2 := HermesDescription(c1.description), HermesDescription(c2.description);
    FirstThree("name: " + c1.name, "description: " + d1, "version: " + c1.version,
               "name: " + c2.name, "description: " + d2, "version: " + c2.version, HERMES_LINES);
    SameKeyLine("name: ", c1.name, c2.name);
    SameKeyLine("description: ", d1, d2);
    SameKeyLine("version: ", c1.version, c2.version);
  }

  lemma FirstThree(a: string, b: string, c: string, x: string, y: string, z: string, rest: seq<string>)
    ensures [a, b, c] + rest == [x, y, z] + rest <==> a == x && b == y && c == z
  {
    var l, r := [a, b, c] + rest, [x, y, z] + rest;
    assert l[0] == a && l[1] == b && l[2] == c && r[0] == x && r[1] == y && r[2] == z;
  }

  // ----- what an unforced apply overwrites -----

  /** On a file of ours, an unforced apply is refused exactly when its region holds an edit that the hash proves, or has
      other text around it than would be printed now. Whatever is not refused is replaced as a whole. */
  lemma RefusedExactly(g: Generator, a: Adapter, c: Canonical, file: Option<string>, dryRun: bool)
    requires OwnsWholeFile(a) && Fits(g, c) && FrontFits(g, Frontmatter(a, c))
    ensures var text := Normalize(TextOf(file));
            var blk := BlockIn(g, text);
            var (outcome, after) := ApplyTo(g, a, c, file, false, dryRun);
            && (outcome.userEdits <==>
                  blk.Region? && (|| BlockUserEdited(g, text, blk)
                                  || TrimSpace(Before(g, text)) != TrimSpace(Frontmatter(a, c))
                                  || TrimSpace(After(g, text)) != ""))
            && (!outcome.userEdits && !dryRun ==> after == Some(Dedicated(g, Frontmatter(a, c), c)))
  {
    var text := Normalize(TextOf(file));
    NormalizeTwice(TextOf(file));
    if BlockIn(g, text).Region? {
      SurroundingsAre(g, text, BlockIn(g, text));
      SurroundEditedIs(g, a, c, text, BlockIn(g, text));
    }
    if !ApplyTo(g, a, c, file, false, false).0.userEdits { AppliedDedicated(g, a, c, file, false); }
  }

  lemma SurroundEditedIs(g: Generator, a: Adapter, c: Canonical, text: string, blk: Found)
    requires OwnsWholeFile(a) && Fits(g, c) && FrontFits(g, Frontmatter(a, c))
    requires blk.Region? && blk.start <= blk.end <= |text|
    ensures SurroundEdited(g, a, c, text, blk)
            <==> TrimSpace(text[..blk.start]) != TrimSpace(Frontmatter(a, c)) || TrimSpace(text[blk.end..]) != ""
  {
    var fm := Frontmatter(a, c);
    DedicatedManages(g, fm, c);
    ManagedState(g, Dedicated(g, fm, c), Prelude(fm), RenderBody(c), SourceOf(c), "\n");
    PreludeTrimmed(fm);
    NewlineIsBlank();
  }

  lemma NewlineIsBlank()
    ensures TrimSpace("\n") == ""
  {
    assert IsSpace('\n');
    TrimUnique("\n", "", "", SPACES);
    assert "\n" + "" + "" == "\n";
  }

  /** So a file of ours without a region, written by hand or with a marker deleted, is replaced as a whole, and never
      refused. */
  lemma HandwrittenIsReplaced(g: Generator, a: Adapter, c: Canonical, file: Option<string>)
    requires OwnsWholeFile(a) && Fits(g, c) && FrontFits(g, Frontmatter(a, c)) && BlockIn(g, TextOf(file)).NoBlock?
    ensures ApplyTo(g, a, c, file, false, false)
         == (Outcome(file.None?, true, false, false), Some(Dedicated(g, Frontmatter(a, c), c)))
  {
    BlockInNormalized(g, TextOf(file));
    RefusedExactly(g, a, c, file, false);
    DedicatedState(g, Frontmatter(a, c), c);
    DedicatedManages(g, Frontmatter(a, c), c);
    ManagedState(g, Dedicated(g, Frontmatter(a, c), c), Prelude(Frontmatter(a, c)), RenderBody(c), SourceOf(c), "\n");
  }

  // ----- removal -----

  /** The closing fence is the first line that starts with dashes. */
  lemma {:induction false} FenceFirst(lines: seq<string>)
    requires FieldLines(lines)
    ensures Index(Join(lines, "\n") + "\n---", "\n---") == |Join(lines, "\n")|
    decreases |lines|
  {
    var j := Join(lines, "\n");
    var s := j + "\n---";
    assert s[|j|..|j| + 4] == "\n---";
    IndexLeast(s, "\n---", |j|);
    var i := Index(s, "\n---");
    assert s[i] == s[i..i + 4][0] == '\n';
    if |lines| == 1 {
      assert forall k :: 0 <= k < |j| ==> s[k] == j[k];
    } else {
      FenceLater(lines, i);
    }
  }

  lemma FenceLater(lines: seq<string>, i: nat)
    requires FieldLines(lines) && |lines| > 1
    requires At(Join(lines, "\n") + "\n---", "\n---", i)
    ensures |Join(lines, "\n")| <= i
    decreases |lines|, 0
  {
    var l, rest := lines[0], lines[1..];
    var t := Join(rest, "\n") + "\n---";
    var s := Join(lines, "\n") + "\n---";
    assert s == l + "\n" + t;
    assert s[i] == s[i..i + 4][0] == '\n' && s[i + 1] == s[i..i + 4][1] == '-';
    assert forall k :: 0 <= k < |l| ==> s[k] == l[k];
    JoinStart(rest);
    assert s[|l| + 1] == t[0];
    assert i > |l|;
    var k := i - |l| - 1;
    assert t[k..k + 4] == s[i..i + 4];
    FenceFirst(rest);
    IndexLeast(t, "\n---", k);
  }

  lemma {:induction false} JoinStart(lines: seq<string>)
    requires FieldLines(lines)
    ensures Join(lines, "\n") != [] && Join(lines, "\n")[0] == lines[0][0]
  {
    assert FieldLine(lines[0]);
  }

  lemma FencedIsOnlyFrontmatter(lines: seq<string>)
    requires FieldLines(lines)
    ensures IsOnlyFrontmatter(Fenced(lines))
  {
    FencedTrimmed(lines);
    FenceFirst(lines);
    var s := Fenced(lines);
    var j := Join(lines, "\n");
    assert s == "---\n" + (j + "\n---");
    assert s[4..] == j + "\n---";
    assert (j + "\n---")[|j| + 4..] == "";
  }

  /** Removing the skill right after an apply deletes a SKILL.md that holds nothing else. */
  lemma AppliedIsDeleted(g: Generator, a: Adapter, c: Canonical, file: Option<string>, force: bool)
    requires OwnsWholeFile(a) && Fits(g, c) && PlainFront(c) && g.mk.open[0] == '<'
    requires !ApplyTo(g, a, c, file, force, false).0.userEdits
    ensures RemoveFrom(g, "SKILL.md", ApplyTo(g, a, c, file, force, false).1, false, false)
         == (RemoveOutcome(true, false, false), None)
  {
    AppliedDedicated(g, a, c, file, force);
    PlainFrontFits(g, a, c);
    var fm := Frontmatter(a, c);
    DedicatedState(g, fm, c);
    RemoveSettled(g, "SKILL.md", Dedicated(g, fm, c), Prelude(fm), "\n", HashContent(g, RenderBody(c)), false);
    PreludeTrimmed(fm);
    FrontShape(a, c);
    FencedTrimmed(FrontLines(a, c));
    FrontLinesPlain(a, c);
    FencedIsOnlyFrontmatter(FrontLines(a, c));
  }
}
