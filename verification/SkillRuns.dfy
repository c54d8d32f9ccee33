/** Whole runs of applying and removing a skill on one file: what the user's text goes through. */
module SkillRuns {
  import opened Text
  import opened Newlines
  import opened AnchoredText
  import opened ManagedBlock
  import opened Splicing
  import opened SpliceLimits
  import opened SkillRender
  import opened SkillApply

  /** Content whose rendering can be found again. */
  predicate Fits(g: Generator, c: Canonical) {
    BodyOk(g, RenderBody(c)) && SpaceFree(SourceOf(c))
  }

  // ----- a shared file -----

  /** The region stands between `p` and `s`, records `hash`, and has not been edited. */
  predicate Settled(g: Generator, text: string, p: string, s: string, hash: string) {
    var existing := Normalize(text);
    var blk := BlockIn(g, existing);
    && blk.Region? && existing[..blk.start] == p && existing[blk.end..] == s
    && blk.hash == hash && !BlockUserEdited(g, existing, blk)
  }

  /** One splice: settled afterwards, in the same surroundings. */
  lemma SpliceSettles(g: Generator, text: string, body: string, source: string)
    requires Spliceable(g, text) && BodyOk(g, body) && SpaceFree(source)
    ensures var r := Splice(g, text, body, source);
            var after := if r.changed then r.out else text;
            && Settled(g, after, Before(g, text), After(g, text), HashContent(g, body))
            && Spliceable(g, after) && Before(g, after) == Before(g, text) && After(g, after) == After(g, text)
  {
    var r := Splice(g, text, body, source);
    if r.changed {
      SpliceManages(g, text, body, source);
      ManagedState(g, r.out, Before(g, text), body, source, After(g, text));
    } else {
      UnchangedIsUpToDate(g, text, body, source);
    }
  }

  /** One apply to a shared file: refused and nothing changes, or settled in the same surroundings, with
      the region printed afresh if anything was written. */
  lemma ApplySettles(g: Generator, c: Canonical, file: Option<string>, force: bool)
    requires Fits(g, c) && Spliceable(g, TextOf(file))
    ensures var (outcome, after) := ApplyTo(g, Agents, c, file, force, false);
            var text := TextOf(file);
            && Spliceable(g, TextOf(after))
            && Before(g, TextOf(after)) == Before(g, text) && After(g, TextOf(after)) == After(g, text)
            && (if outcome.userEdits then after == file
                else && Settled(g, TextOf(after), Before(g, text), After(g, text), HashContent(g, RenderBody(c)))
                     && (after == file
                         || after == Some(Before(g, text) + Block(g, RenderBody(c), SourceOf(c)) + After(g, text))))
  {
    var text := TextOf(file);
    SpliceSettles(g, text, RenderBody(c), SourceOf(c));
    SpliceShape(g, text, RenderBody(c), SourceOf(c));
  }

  datatype Op = Op(content: Canonical, force: bool, dryRun: bool)

  function Next(g: Generator, file: Option<string>, op: Op): Option<string> {
    ApplyTo(g, Agents, op.content, file, op.force, op.dryRun).1
  }

  /** Applies one after the other. */
  function Run(g: Generator, file: Option<string>, ops: seq<Op>): Option<string>
    decreases |ops|
  {
    if ops == [] then file
    else Run(g, Next(g, file, ops[0]), ops[1..])
  }

  /** The apply neither was refused nor was a dry run. */
  predicate Accepted(g: Generator, file: Option<string>, op: Op) {
    !op.dryRun && !ApplyTo(g, Agents, op.content, file, op.force, op.dryRun).0.userEdits
  }

  /** The content of the last accepted apply of a run. */
  function LastAccepted(g: Generator, file: Option<string>, ops: seq<Op>): Option<Canonical>
    decreases |ops|
  {
    if ops == [] then None
    else
      var later := LastAccepted(g, Next(g, file, ops[0]), ops[1..]);
      if later.None? && Accepted(g, file, ops[0]) then Some(ops[0].content) else later
  }

  predicate AllFit(g: Generator, ops: seq<Op>) {
    forall k :: 0 <= k < |ops| ==> Fits(g, ops[k].content)
  }

  predicate WrittenFor(g: Generator, file: Option<string>, c: Canonical, p: string, s: string) {
    file == Some(p + Block(g, RenderBody(c), SourceOf(c)) + s)
  }

  /** The file holds the region of one of the applied contents, printed between `p` and `s`. */
  ghost predicate WrittenByOne(g: Generator, file: Option<string>, ops: seq<Op>, p: string, s: string) {
    exists k :: 0 <= k < |ops| && WrittenFor(g, file, ops[k].content, p, s)
  }

  /** One operation of a run, whose file has the surroundings `p` and `s`. */
  lemma StepKeepsUserText(g: Generator, file: Option<string>, op: Op, p: string, s: string)
    requires Fits(g, op.content) && Spliceable(g, TextOf(file))
    requires Before(g, TextOf(file)) == p && After(g, TextOf(file)) == s
    ensures var next := Next(g, file, op);
            && Spliceable(g, TextOf(next)) && Before(g, TextOf(next)) == p && After(g, TextOf(next)) == s
            && (!Accepted(g, file, op) ==> next == file)
            && (Accepted(g, file, op) ==> Settled(g, TextOf(next), p, s, HashContent(g, RenderBody(op.content))))
            && (next == file || WrittenByOne(g, next, [op], p, s))
  {
    ApplySettles(g, op.content, file, op.force);
    var next := Next(g, file, op);
    if next != file {
      assert [op][0] == op;
      assert WrittenFor(g, next, [op][0].content, p, s);
    }
  }

  /** What a run leaves is the starting file or was written by one of its applies. */
  lemma {:induction false} RunWritesOne(g: Generator, file: Option<string>, ops: seq<Op>, p: string, s: string)
    requires AllFit(g, ops) && Spliceable(g, TextOf(file))
    requires Before(g, TextOf(file)) == p && After(g, TextOf(file)) == s
    ensures Run(g, file, ops) == file || WrittenByOne(g, Run(g, file, ops), ops, p, s)
    decreases |ops|
  {
    if ops != [] {
      assert Fits(g, ops[0].content);
      StepKeepsUserText(g, file, ops[0], p, s);
      RunWritesOne(g, Next(g, file, ops[0]), ops[1..], p, s);
      WrittenByPart(g, Run(g, file, ops), ops, p, s);
    }
  }

  /** What a run leaves is settled with the last accepted content, if there is one, and untouched otherwise. */
  lemma {:induction false} RunSettles(g: Generator, file: Option<string>, ops: seq<Op>, p: string, s: string)
    requires AllFit(g, ops) && Spliceable(g, TextOf(file))
    requires Before(g, TextOf(file)) == p && After(g, TextOf(file)) == s
    ensures var last := LastAccepted(g, file, ops);
            var after := Run(g, file, ops);
            && (last.None? ==> after == file)
            && (last.Some? ==> Settled(g, TextOf(after), p, s, HashContent(g, RenderBody(last.value))))
    decreases |ops|
  {
    if ops != [] {
      assert Fits(g, ops[0].content);
      var next := Next(g, file, ops[0]);
      StepKeepsUserText(g, file, ops[0], p, s);
      RunSettles(g, next, ops[1..], p, s);
      assert Run(g, file, ops) == Run(g, next, ops[1..]);
      var later := LastAccepted(g, next, ops[1..]);
      assert later.Some? ==> LastAccepted(g, file, ops) == later;
    }
  }

  /** Whole runs: with no accepted apply the file is untouched; otherwise the user's text around the region
      is what it was, up to the line endings, the region is unedited, and it records the last accepted content. */
  lemma RunKeepsUserText(g: Generator, file: Option<string>, ops: seq<Op>, p: string, s: string)
    requires AllFit(g, ops) && Spliceable(g, TextOf(file))
    requires Before(g, TextOf(file)) == p && After(g, TextOf(file)) == s
    ensures var last := LastAccepted(g, file, ops);
            var after := Run(g, file, ops);
            && (last.None? ==> after == file)
            && (last.Some? ==> Settled(g, TextOf(after), p, s, HashContent(g, RenderBody(last.value))))
            && (after == file || WrittenByOne(g, after, ops, p, s))
  {
    RunSettles(g, file, ops, p, s);
    RunWritesOne(g, file, ops, p, s);
  }

  lemma WrittenByPart(g: Generator, file: Option<string>, ops: seq<Op>, p: string, s: string)
    requires ops != []
    ensures WrittenByOne(g, file, ops[1..], p, s) || WrittenByOne(g, file, [ops[0]], p, s)
            ==> WrittenByOne(g, file, ops, p, s)
  {
    if WrittenByOne(g, file, ops[1..], p, s) {
      var tail := ops[1..];
      var k :| 0 <= k < |tail| && WrittenFor(g, file, tail[k].content, p, s);
      assert ops[k + 1] == tail[k];
    }
  }

  /** Among the contents of a run, different bodies have different hashes. */
  predicate NoCollision(g: Generator, ops: seq<Op>) {
    forall i, j :: 0 <= i < |ops| && 0 <= j < |ops|
                   && HashContent(g, RenderBody(ops[i].content)) == HashContent(g, RenderBody(ops[j].content))
                   ==> RenderBody(ops[i].content) == RenderBody(ops[j].content)
  }

  lemma LastOrFirst(g: Generator, file: Option<string>, ops: seq<Op>) returns (later: Option<Canonical>)
    requires ops != []
    ensures LastAccepted(g, file, ops) == later || LastAccepted(g, file, ops) == Some(ops[0].content)
    ensures later.Some? ==> ContentOf(ops[1..], later.value)
    decreases |ops|, 0
  {
    later := LastAccepted(g, Next(g, file, ops[0]), ops[1..]);
    if later.Some? { LastIsOne(g, Next(g, file, ops[0]), ops[1..]); }
  }

  predicate ContentOf(ops: seq<Op>, c: Canonical) {
    exists k :: 0 <= k < |ops| && ops[k].content == c
  }

  lemma {:induction false} LastIsOne(g: Generator, file: Option<string>, ops: seq<Op>)
    requires LastAccepted(g, file, ops).Some?
    ensures ContentOf(ops, LastAccepted(g, file, ops).value)
    decreases |ops|, 1
  {
    var later := LastOrFirst(g, file, ops);
    if LastAccepted(g, file, ops) == later {
      var tail := ops[1..];
      var k :| 0 <= k < |tail| && tail[k].content == later.value;
      assert ops[k + 1] == tail[k];
    }
  }

  /** Nor does the body that the file starts with collide with one of them. */
  predicate StartsApart(g: Generator, file: Option<string>, ops: seq<Op>) {
    forall i :: 0 <= i < |ops| ==> NoClash(g, TextOf(file), RenderBody(ops[i].content))
  }

  /** The text holds a region whose body is the rendering of `c`. */
  predicate Shows(g: Generator, text: string, c: Canonical) {
    var existing := Normalize(text);
    var blk := BlockIn(g, existing);
    blk.Region? && blk.end <= |existing| && CurrentBlockBody(g, existing, blk) == TrimRight(RenderBody(c), NEWLINE)
  }

  /** When a run has accepted anything and no bodies collide, the body of the region is the body of the last accepted
      content, also when the run comes back to the file it started from. */
  lemma LastBodyStands(g: Generator, file: Option<string>, ops: seq<Op>)
    requires AllFit(g, ops) && Spliceable(g, TextOf(file)) && NoCollision(g, ops) && StartsApart(g, file, ops)
    requires LastAccepted(g, file, ops).Some?
    ensures Shows(g, TextOf(Run(g, file, ops)), LastAccepted(g, file, ops).value)
  {
    var p, s := Before(g, TextOf(file)), After(g, TextOf(file));
    var after := Run(g, file, ops);
    RunKeepsUserText(g, file, ops, p, s);
    LastIsOne(g, file, ops);
    var j :| 0 <= j < |ops| && ops[j].content == LastAccepted(g, file, ops).value;
    assert Fits(g, ops[j].content);
    if after == file {
      SettledShows(g, TextOf(file), p, s, ops[j].content);
    } else {
      var i :| 0 <= i < |ops| && WrittenFor(g, after, ops[i].content, p, s);
      assert Fits(g, ops[i].content);
      BeforeIsOpen(g, TextOf(file));
      WrittenShows(g, after, p, s, ops[i].content, ops[j].content);
    }
  }

  lemma SettledShows(g: Generator, text: string, p: string, s: string, c: Canonical)
    requires Settled(g, text, p, s, HashContent(g, RenderBody(c))) && NoClash(g, text, RenderBody(c)) && Fits(g, c)
    ensures Shows(g, text, c)
  {
  }

  lemma WrittenShows(g: Generator, file: Option<string>, p: string, s: string, c: Canonical, last: Canonical)
    requires WrittenFor(g, file, c, p, s) && Fits(g, c) && OpenPrefix(g, p) && '\r' !in s
    requires Settled(g, TextOf(file), p, s, HashContent(g, RenderBody(last)))
    requires HashContent(g, RenderBody(c)) == HashContent(g, RenderBody(last)) ==> RenderBody(c) == RenderBody(last)
    ensures Shows(g, TextOf(file), last)
  {
    ManagedState(g, file.value, p, RenderBody(c), SourceOf(c), s);
  }

  // ----- edits under every call -----

  /** A call without force: an apply of any content through any adapter, or a removal. */
  datatype Call = Applying(a: Adapter, content: Canonical, dryRun: bool) | Removing(base: string, dryRun: bool)

  function Called(g: Generator, file: Option<string>, call: Call): Option<string> {
    match call
    case Applying(a, content, dryRun) => ApplyTo(g, a, content, file, false, dryRun).1
    case Removing(base, dryRun) => RemoveFrom(g, base, file, false, dryRun).1
  }

  function CalledAll(g: Generator, file: Option<string>, calls: seq<Call>): Option<string>
    decreases |calls|
  {
    if calls == [] then file else CalledAll(g, Called(g, file, calls[0]), calls[1..])
  }

  /** The recorded hash proves that the user has edited the region. */
  predicate RegionEdited(g: Generator, text: string) {
    var existing := Normalize(text);
    var blk := BlockIn(g, existing);
    blk.Region? && BlockUserEdited(g, existing, blk)
  }

  /** A file whose region the user has edited comes through any calls without force exactly as it is. */
  lemma {:induction false} EditsSurviveCalls(g: Generator, text: string, calls: seq<Call>)
    requires RegionEdited(g, text)
    ensures CalledAll(g, Some(text), calls) == Some(text)
    decreases |calls|
  {
    if calls != [] {
      EditStands(g, text, calls[0]);
      EditsSurviveCalls(g, text, calls[1..]);
    }
  }

  lemma EditStands(g: Generator, text: string, call: Call)
    requires RegionEdited(g, text)
    ensures Called(g, Some(text), call) == Some(text)
  {
    BlockInNormalized(g, text);
    if call.Applying? { EditsAreGuarded(g, call.a, call.content, text, false, call.dryRun); }
  }

  /** A settled shared file is never taken for a user edit, whatever is applied next. */
  lemma SettledIsNotRefused(g: Generator, text: string, p: string, s: string, hash: string, c: Canonical)
    requires Settled(g, text, p, s, hash)
    ensures !Edited(g, Agents, c, text)
  {
  }

  // ----- removing again -----

  /** Removing the region from a settled file leaves the surroundings, without blank lines at the ends. */
  lemma RemoveSettled(g: Generator, base: string, text: string, p: string, s: string, hash: string, force: bool)
    requires Settled(g, text, p, s, hash)
    ensures var (outcome, after) := RemoveFrom(g, base, Some(text), force, false);
            var rest := Trim(p + s, NEWLINE);
            && outcome == RemoveOutcome(true, false, false)
            && after
               == if rest == "" || (base == "SKILL.md" && IsOnlyFrontmatter(rest)) then None else Some(rest + "\n")
  {
  }

  lemma SameCore(t: string, a: string, b: string)
    requires AllIn(a, NEWLINE) && AllIn(b, NEWLINE)
    ensures Trim(t + a, NEWLINE) == Trim(t + b, NEWLINE)
  {
    TrimIgnoresPadding("", t, a, NEWLINE);
    TrimIgnoresPadding("", t, b, NEWLINE);
    assert "" + t + a == t + a && "" + t + b == t + b;
  }

  lemma LeadTrimmed(existing: string)
    ensures Trim(Lead(existing) + "\n", NEWLINE) == Trim(existing, NEWLINE)
  {
    var t := TrimRight(existing, NEWLINE);
    var tail := TrimRightParts(existing, NEWLINE);
    SameCore(t, tail, if t == "" then "\n" else "\n\n\n");
    assert Lead(existing) + "\n" == t + if t == "" then "\n" else "\n\n\n";
  }

  /** Applying to a shared file without a BEGIN line and removing again gives the text back, up to newlines
      at its ends; a file that holds nothing else, or that the apply created, is deleted. */
  lemma ApplyThenRemove(g: Generator, c: Canonical, base: string, file: Option<string>, force: bool)
    requires Fits(g, c) && base != "SKILL.md" && !HasLine(Normalize(TextOf(file)), g.mk.open)
    ensures var applied := ApplyTo(g, Agents, c, file, force, false).1;
            var kept := Trim(Normalize(TextOf(file)), NEWLINE);
            (RemoveFrom(g, base, applied, false, false)
             == (RemoveOutcome(true, false, false), if kept == "" then None else Some(kept + "\n")))
  {
    var text := TextOf(file);
    BlockInNormalized(g, text);
    ApplySettles(g, c, file, force);
    var after := ApplyTo(g, Agents, c, file, force, false).1;
    RemoveSettled(g, base, TextOf(after), Before(g, text), After(g, text), HashContent(g, RenderBody(c)), false);
    LeadTrimmed(Normalize(text));
  }

  /** A text in the usual form, one newline at its end and no blank line in front, is restored exactly. */
  lemma ApplyThenRemoveRestores(g: Generator, c: Canonical, base: string, text: string, force: bool)
    requires Fits(g, c) && base != "SKILL.md"
    requires text != "" && Trimmed(text, NEWLINE) && '\r' !in text && !HasLine(text + "\n", g.mk.open)
    ensures RemoveFrom(g, base, ApplyTo(g, Agents, c, Some(text + "\n"), force, false).1, false, false).1
         == Some(text + "\n")
  {
    UsualForm(text);
    ApplyThenRemove(g, c, base, Some(text + "\n"), force);
  }

  lemma UsualForm(text: string)
    requires Trimmed(text, NEWLINE) && '\r' !in text
    ensures Normalize(text + "\n") == text + "\n" && Trim(text + "\n", NEWLINE) == text
  {
    TrimUnique("", text, "\n", NEWLINE);
    assert "" + text + "\n" == text + "\n";
  }
}
