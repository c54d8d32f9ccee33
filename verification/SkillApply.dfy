/** Applying a skill to a file and removing it again, `Apply` and `Remove` in
    `cli/internal/skillgen/apply.go`. */
module SkillApply {
  import opened Text
  import opened Newlines
  import opened ManagedBlock
  import opened Splicing
  import opened SkillRender
  import opened FileSystem
  import opened AtomicFiles

  // ----- Apply -----

  datatype Outcome = Outcome(created: bool, changed: bool, skipped: bool, userEdits: bool)

  /** What surrounds the region in a file that is all ours differs from what would be written now. */
  predicate SurroundEdited(g: Generator, a: Adapter, c: Canonical, existing: string, blk: Found)
    requires OwnsWholeFile(a) && blk.Region? && blk.start <= blk.end <= |existing|
  {
    var renewed := Normalize(Dedicated(g, Frontmatter(a, c), c));
    var newBlk := BlockIn(g, renewed);
    newBlk.Region?
    && (|| TrimSpace(existing[..blk.start]) != TrimSpace(renewed[..newBlk.start])
        || TrimSpace(existing[blk.end..]) != TrimSpace(renewed[newBlk.end..]))
  }

  /** The user has edited what an unforced write would overwrite. */
  predicate Edited(g: Generator, a: Adapter, c: Canonical, text: string) {
    var existing := Normalize(text);
    var blk := BlockIn(g, existing);
    blk.Region?
    && (BlockUserEdited(g, existing, blk) || (OwnsWholeFile(a) && SurroundEdited(g, a, c, existing, blk)))
  }

  function TextOf(file: Option<string>): string {
    match file
    case None => ""
    case Some(text) => text
  }

  /** What one apply reports, and the file it leaves when the write succeeds. */
  function ApplyTo(g: Generator, a: Adapter, c: Canonical, file: Option<string>, force: bool, dryRun: bool):
    (Outcome, Option<string>)
  {
    var created := file.None?;
    if !force && Edited(g, a, c, TextOf(file)) then (Outcome(created, false, false, true), file)
    else
      var (newText, changed) := RenderFile(g, a, c, TextOf(file));
      (Outcome(created, changed, !changed, false), if changed && !dryRun then Some(newText) else file)
  }

  /** An edit that the recorded hash proves is never overwritten without force, whatever the target and the
      content; on a shared file nothing else is refused. */
  lemma EditsAreGuarded(g: Generator, a: Adapter, c: Canonical, text: string, force: bool, dryRun: bool)
    requires BlockIn(g, text).Region?
    ensures var existing, blk := Normalize(text), BlockIn(g, text);
            var edited := IsShortHash(blk.hash) && HashContent(g, CurrentBlockBody(g, existing, blk)) != blk.hash;
            var (outcome, file) := ApplyTo(g, a, c, Some(text), force, dryRun);
            && (edited && !force ==> outcome.userEdits)
            && (outcome.userEdits ==> !force && file == Some(text) && (edited || OwnsWholeFile(a)))
  {
    BlockInNormalized(g, text);
  }

  method Guard(g: Generator, a: Adapter, c: Canonical, text: string, force: bool) returns (refused: bool)
    ensures refused <==> !force && Edited(g, a, c, text)
  {
    var norm := Normalize(text);
    var blk := FindBlock(g, norm);
    if blk.NoBlock? || force {
      return false;
    }
    var edited := BlockUserEdited(g, norm, blk);
    if !edited && OwnsWholeFile(a) {
      edited := SurroundEdited(g, a, c, norm, blk);
    }
    return edited;
  }

  /** In every state from `from` on, the file is one of two. */
  ghost predicate OneOrOther(trace: seq<Files>, from: nat, p: Path, one: Option<string>, other: Option<string>) {
    forall i :: from <= i < |trace| ==> Content(trace[i], p) == one || Content(trace[i], p) == other
  }

  lemma WholeIsOneOrOther(trace: seq<Files>, from: nat, before: Files, p: Path, data: string, tmp: Path)
    requires Whole(trace, from, before, p, data, tmp)
    ensures OneOrOther(trace, from, p, Content(before, p), Some(data))
  {
    forall i | from <= i < |trace|
      ensures Content(trace[i], p) == Content(before, p) || Content(trace[i], p) == Some(data)
    {
      assert OldOrNew(before, trace[i], p, data, tmp);
    }
  }

  /** The atomic write as its callers see it. */
  method Rewrite(disk: Disk, target: Path, data: string, tmp: Path) returns (written: bool)
    requires tmp !in disk.files && tmp != target
    modifies disk
    ensures Content(disk.files, target) == if written then Some(data) else Content(old(disk.files), target)
    ensures OneOrOther(disk.trace, |old(disk.trace)|, target, Content(old(disk.files), target), Some(data))
    ensures SameBut(old(disk.files), disk.files, {target, tmp}) && old(disk.trace) <= disk.trace
    ensures written ==> tmp !in disk.files
    ensures disk.faults >= old(disk.faults) && (written <==> disk.faults == old(disk.faults))
  {
    ghost var before := disk.files;
    written := WriteFileAtomic(disk, target, tmp, data);
    WholeIsOneOrOther(disk.trace, |old(disk.trace)|, before, target, data, tmp);
  }

  method Apply(disk: Disk, g: Generator, a: Adapter, c: Canonical, target: Path, tmp: Path, force: bool, dryRun: bool)
    returns (r: Result<Outcome>)
    requires tmp !in disk.files && tmp != target
    modifies disk
    ensures var (outcome, file) := ApplyTo(g, a, c, Content(old(disk.files), target), force, dryRun);
            && (r.Ok? ==> r.value == outcome && Content(disk.files, target) == file)
            && (r.Err? ==> Content(disk.files, target) == Content(old(disk.files), target))
            && OneOrOther(disk.trace, |old(disk.trace)|, target, Content(old(disk.files), target), file)
    ensures SameBut(old(disk.files), disk.files, {target, tmp})
    ensures r.Ok? ==> tmp !in disk.files
    ensures r.Ok? <==> disk.faults == old(disk.faults)
    ensures old(disk.trace) <= disk.trace
  {
    if target in disk.files {
      var readable := disk.Attempt();
      if !readable {
        return Err("read");
      }
    }
    var file := Content(disk.files, target);
    var created := file.None?;
    var refused := Guard(g, a, c, TextOf(file), force);
    if refused {
      return Ok(Outcome(created, false, false, true));
    }
    var (newText, changed) := RenderFile(g, a, c, TextOf(file));
    if !changed || dryRun {
      return Ok(Outcome(created, changed, !changed, false));
    }
    var dirMade := disk.Attempt();
    if !dirMade {
      return Err("create");
    }
    var written := Rewrite(disk, target, newText, tmp);
    if !written {
      return Err("write");
    }
    return Ok(Outcome(created, changed, !changed, false));
  }

  // ----- Remove -----

  datatype RemoveOutcome = RemoveOutcome(removed: bool, missing: bool, userEdits: bool)

  /** Blank lines at both ends go. */
  function TrimSurroundingOf(s: string): string {
    Trim(s, NEWLINE)
  }

  method TrimSurrounding(text: string) returns (s: string)
    ensures s == TrimSurroundingOf(text)
  {
    s := text;
    while |s| > 0 && s[0] == '\n'
      invariant TrimLeft(s, NEWLINE) == TrimLeft(text, NEWLINE)
    {
      s := s[1..];
    }
    while |s| > 0 && s[|s| - 1] == '\n'
      invariant TrimRight(s, NEWLINE) == TrimRight(TrimLeft(text, NEWLINE), NEWLINE)
    {
      s := s[..|s| - 1];
    }
  }

  /** Nothing but a frontmatter block. */
  predicate IsOnlyFrontmatter(text: string) {
    var s := TrimSpace(text);
    s == ""
    || (HasPrefix(s, "---\n")
        && var rest := s[4..];
           var end := Index(rest, "\n---");
           end >= 0 && TrimSpace(rest[end + 4..]) == "")
  }

  /** What one removal reports, and the file it leaves when the system does what it is told. */
  function RemoveFrom(g: Generator, base: string, file: Option<string>, force: bool, dryRun: bool):
    (RemoveOutcome, Option<string>)
  {
    if file.None? then (RemoveOutcome(false, true, false), file)
    else
      var existing := Normalize(file.value);
      var blk := BlockIn(g, existing);
      if blk.NoBlock? then (RemoveOutcome(false, true, false), file)
      else if !force && BlockUserEdited(g, existing, blk) then (RemoveOutcome(false, false, true), file)
      else if dryRun then (RemoveOutcome(true, false, false), file)
      else
        var remainder := TrimSurroundingOf(existing[..blk.start] + existing[blk.end..]);
        if (base == "SKILL.md" && IsOnlyFrontmatter(remainder)) || remainder == ""
        then (RemoveOutcome(true, false, false), None)
        else (RemoveOutcome(true, false, false), Some(remainder + "\n"))
  }

  method Remove(disk: Disk, g: Generator, target: Path, tmp: Path, force: bool, dryRun: bool)
    returns (r: Result<RemoveOutcome>)
    requires tmp !in disk.files && tmp != target
    modifies disk
    ensures var (outcome, file) := RemoveFrom(g, target.base, Content(old(disk.files), target), force, dryRun);
            && (r.Ok? ==> r.value == outcome && Content(disk.files, target) == file)
            && (r.Err? ==> Content(disk.files, target) == Content(old(disk.files), target))
            && OneOrOther(disk.trace, |old(disk.trace)|, target, Content(old(disk.files), target), file)
    ensures SameBut(old(disk.files), disk.files, {target, tmp})
    ensures r.Ok? <==> disk.faults == old(disk.faults)
    ensures old(disk.trace) <= disk.trace
  {
    if target !in disk.files {
      return Ok(RemoveOutcome(false, true, false));
    }
    var readable := disk.Attempt();
    if !readable {
      return Err("read");
    }
    var existing := Normalize(disk.files[target]);
    var blk := FindBlock(g, existing);
    if blk.NoBlock? {
      return Ok(RemoveOutcome(false, true, false));
    }
    if !force && BlockUserEdited(g, existing, blk) {
      return Ok(RemoveOutcome(false, false, true));
    }
    if dryRun {
      return Ok(RemoveOutcome(true, false, false));
    }
    var remainder := TrimSurrounding(existing[..blk.start] + existing[blk.end..]);
    if (target.base == "SKILL.md" && IsOnlyFrontmatter(remainder)) || remainder == "" {
      var removed := disk.Remove(target);
      if !removed {
        return Err("remove");
      }
    } else {
      var written := Rewrite(disk, target, remainder + "\n", tmp);
      if !written {
        return Err("write");
      }
    }
    return Ok(RemoveOutcome(true, false, false));
  }
}
