/** Replacing a file so that a crash leaves it whole: `writeFileAtomic` in `cli/internal/skillgen/apply.go`,
    `ReplaceBinary` and `copyFile` in `cli/internal/update/update.go`. */
module AtomicFiles {
  import opened Text
  import opened FileSystem

  /** The target is whole, old or new, and nothing else has changed but the scratch file. */
  ghost predicate OldOrNew(before: Files, now: Files, target: Path, data: string, scratch: Path) {
    && (Content(now, target) == Content(before, target) || Content(now, target) == Some(data))
    && SameBut(before, now, {target, scratch})
  }

  ghost predicate Whole(trace: seq<Files>, from: nat, before: Files, target: Path, data: string, scratch: Path) {
    forall i :: from <= i < |trace| ==> OldOrNew(before, trace[i], target, data, scratch)
  }

  /** Writes `data` in as many pieces as the system makes of it; stops at the first failure. */
  method WriteAll(disk: Disk, p: Path, data: string) returns (ok: bool)
    requires p in disk.files
    modifies disk
    ensures p in disk.files && SameBut(old(disk.files), disk.files, {p})
    ensures ok ==> disk.files[p] == old(disk.files)[p] + data
    ensures disk.faults >= old(disk.faults) && (ok <==> disk.faults == old(disk.faults))
    ensures old(disk.trace) <= disk.trace && OnlyTouches(disk.trace, |old(disk.trace)|, old(disk.files), p)
  {
    var done := 0;
    assert data[..0] == "" && old(disk.files)[p] + "" == old(disk.files)[p];
    while done < |data|
      invariant 0 <= done <= |data|
      invariant p in disk.files && SameBut(old(disk.files), disk.files, {p})
      invariant disk.files[p] == old(disk.files)[p] + data[..done] && disk.faults == old(disk.faults)
      invariant old(disk.trace) <= disk.trace && OnlyTouches(disk.trace, |old(disk.trace)|, old(disk.files), p)
    {
      var n := disk.Append(p, data[done..]);
      assert data[..done] + data[done..][..n] == data[..done + n];
      if n == 0 {
        return false;
      }
      done := done + n;
    }
    assert data[..done] == data;
    ok := true;
  }

  lemma Installed(before: Files, written: Files, target: Path, tmp: Path, data: string)
    requires tmp !in before && tmp != target && SameBut(before, written, {tmp})
    requires tmp in written && written[tmp] == data
    ensures (written - {tmp})[target := written[tmp]] == before[target := data]
  {
    var a, b := before[target := data], (written - {tmp})[target := data];
    forall q ensures Content(b, q) == Content(a, q) {
      assert q != tmp ==> Content(written, q) == Content(before, q);
    }
    SameFiles(a, b);
  }

  /** `tmp` is the unused name that the system picked in the directory of the target. */
  method WriteFileAtomic(disk: Disk, target: Path, tmp: Path, data: string) returns (ok: bool)
    requires tmp !in disk.files && tmp != target
    modifies disk
    ensures ok ==> disk.files == old(disk.files)[target := data]
    ensures !ok ==> SameBut(old(disk.files), disk.files, {tmp})
    ensures disk.faults >= old(disk.faults) && (ok <==> disk.faults == old(disk.faults))
    ensures disk.faults <= old(disk.faults) + 1 ==> tmp !in disk.files
    ensures old(disk.trace) <= disk.trace
    ensures Whole(disk.trace, |old(disk.trace)|, old(disk.files), target, data, tmp)
  {
    ok := disk.Truncate(tmp);
    if !ok {
      return;
    }
    ok := WriteAll(disk, tmp, data);
    if ok {
      ok := disk.Attempt();
    }
    if ok {
      ghost var written := disk.files;
      ok := disk.Rename(tmp, target);
      if ok {
        Installed(old(disk.files), written, target, tmp, data);
        return;
      }
    }
    var _ := disk.Remove(tmp);
    ok := false;
  }

  // ----- installing a binary -----

  /** Copies a file step by step: the destination is emptied, then filled with what can be read from the
      source by then. */
  method CopyFile(disk: Disk, src: Path, dst: Path) returns (ok: bool)
    modifies disk
    ensures old(disk.trace) <= disk.trace
    ensures OnlyTouches(disk.trace, |old(disk.trace)|, old(disk.files), dst)
    ensures SameBut(old(disk.files), disk.files, {dst})
    ensures disk.faults >= old(disk.faults)
    ensures ok <==> src in old(disk.files) && disk.faults == old(disk.faults)
    ensures ok ==> Content(disk.files, dst) == Some(if src == dst then "" else old(disk.files)[src])
  {
    if src !in disk.files {
      return false;
    }
    ok := disk.Attempt();
    if !ok {
      return;
    }
    ok := disk.Truncate(dst);
    if !ok {
      return;
    }
    assert Content(disk.files, src) == if src == dst then Some("") else Content(old(disk.files), src);
    var data := disk.files[src];
    assert "" + data == data;
    ok := WriteAll(disk, dst, data);
    if ok {
      ok := disk.Attempt();
    }
  }

  function BackupOf(target: Path): Path {
    target.(base := target.base + ".bak")
  }

  function StagedIn(target: Path): Path {
    target.(base := ".jentic.new")
  }

  /** The target is whole, old or new; what it held before is whole at the target or at the backup; nothing
      else has changed but the staging file. */
  ghost predicate Recoverable(before: Files, now: Files, target: Path, built: string) {
    && (Content(now, target) == Content(before, target) || Content(now, target) == Some(built))
    && (target in before ==> Content(now, target) == Some(before[target])
                             || Content(now, BackupOf(target)) == Some(before[target]))
    && SameBut(before, now, {target, BackupOf(target), StagedIn(target)})
  }

  ghost predicate AllRecoverable(trace: seq<Files>, from: nat, before: Files, target: Path, built: string) {
    forall i :: from <= i < |trace| ==> Recoverable(before, trace[i], target, built)
  }

  datatype Replaced = Replaced(ok: bool, backup: Option<Path>)

  /** What gets installed: the build, unless it lies where the staging file goes and is emptied by its own copy. */
  function Built(before: Files, target: Path, staged: Path): string
    requires staged in before
  {
    if staged == StagedIn(target) then "" else before[staged]
  }

  lemma NamesDiffer(target: Path)
    ensures BackupOf(target) != target && BackupOf(target) != StagedIn(target)
  {
    var a, b := BackupOf(target).base, StagedIn(target).base;
    assert |a| == |target.base| + 4;
    assert a[|a| - 1] == 'k' && b[|b| - 1] == 'w';
  }

  method ReplaceBinary(disk: Disk, target: Path, staged: Path) returns (r: Replaced)
    modifies disk
    ensures old(disk.trace) <= disk.trace
    ensures target != StagedIn(target) && staged in old(disk.files) ==>
              AllRecoverable(disk.trace, |old(disk.trace)|, old(disk.files), target,
                             Built(old(disk.files), target, staged))
    ensures r.ok <==> staged in old(disk.files) && disk.faults == old(disk.faults)
    ensures target != StagedIn(target) && r.ok ==>
              && Content(disk.files, target) == Some(Built(old(disk.files), target, staged))
              && Content(disk.files, BackupOf(target))
                 == Content(old(disk.files), if target in old(disk.files) then target else BackupOf(target))
              && StagedIn(target) !in disk.files
              && r.backup == if target in old(disk.files) then Some(BackupOf(target)) else None
    ensures target != StagedIn(target) && !r.ok ==> Content(disk.files, target) == Content(old(disk.files), target)
    ensures target == StagedIn(target) && r.ok ==>
              && Content(disk.files, target) == Some(Built(old(disk.files), target, staged))
              && Content(disk.files, BackupOf(target)) == Content(disk.files, target)
  {
    NamesDiffer(target);
    var tmp, bak := StagedIn(target), BackupOf(target);
    var ok := disk.Attempt();
    if !ok {
      return Replaced(false, None);
    }
    ok := CopyFile(disk, staged, tmp);
    if !ok {
      return Replaced(false, None);
    }
    assert target != tmp ==> Content(disk.files, target) == Content(old(disk.files), target);
    var backup: Option<Path> := None;
    if target in disk.files {
      backup := Some(bak);
      ok := CopyFile(disk, target, bak);
      if !ok {
        var _ := disk.Remove(tmp);
        return Replaced(false, None);
      }
    }
    ok := disk.Rename(tmp, target);
    if !ok {
      var _ := disk.Remove(tmp);
      return Replaced(false, backup);
    }
    return Replaced(true, backup);
  }
}
