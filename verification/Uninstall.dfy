/** Tearing down the state directory, the two file-system phases of `uninstallE` in
    `cli/internal/cmd/uninstall.go`. */
module Uninstall {
  import opened Text
  import opened FileSystem

  // ----- names -----

  /** `filepath.Ext`: from the last dot on. */
  function Ext(name: string): string {
    if name == "" then ""
    else if name[|name| - 1] == '.' then "."
    else
      var ext := Ext(name[..|name| - 1]);
      if ext == "" then "" else ext + [name[|name| - 1]]
  }

  lemma {:induction false} ExtIsSuffix(name: string)
    ensures |Ext(name)| <= |name| && name[|name| - |Ext(name)|..] == Ext(name)
    ensures Ext(name) == "" <==> '.' !in name
  {
    if name != "" && name[|name| - 1] != '.' {
      var init := name[..|name| - 1];
      ExtIsSuffix(init);
      assert name == init + [name[|name| - 1]];
    }
  }

  function Stem(name: string): string {
    if |Ext(name)| <= |name| then name[..|name| - |Ext(name)|] else name
  }

  function BackupName(name: string): string {
    Stem(name) + "-old" + Ext(name)
  }

  lemma {:induction false} ExtOf(stem: string, ext: string)
    requires ext != "" ==> ext[0] == '.' && '.' !in ext[1..]
    requires ext == "" ==> '.' !in stem
    ensures Ext(stem + ext) == ext && Stem(stem + ext) == stem
  {
    var name := stem + ext;
    ExtIsSuffix(name);
    if ext == "" {
      assert name == stem;
    } else if |ext| > 1 {
      var init := ext[..|ext| - 1];
      assert init[1..] == ext[1..][..|ext| - 2];
      ExtOf(stem, init);
      assert name[..|name| - 1] == stem + init;
      assert ext == init + [ext[|ext| - 1]];
      assert ext[|ext| - 1] == ext[1..][|ext| - 2];
    }
    assert name[..|name| - |ext|] == stem;
  }

  lemma {:induction false} ExtShape(name: string)
    ensures Stem(name) + Ext(name) == name
    ensures Ext(name) != "" ==> Ext(name)[0] == '.' && '.' !in Ext(name)[1..]
    ensures Ext(name) == "" ==> '.' !in name
  {
    ExtIsSuffix(name);
    if name != "" && name[|name| - 1] != '.' {
      ExtShape(name[..|name| - 1]);
    }
  }

  /** Different files have different backups, and no backup is the file itself. */
  lemma BackupNamesDiffer(a: string, b: string)
    ensures BackupName(a) == BackupName(b) ==> a == b
    ensures BackupName(a) != a
  {
    ExtShape(a);
    ExtShape(b);
    BackupParts(a);
    BackupParts(b);
    if BackupName(a) == BackupName(b) { SameStart(Stem(a), Stem(b), "-old"); }
  }

  lemma SameStart(x: string, y: string, tail: string)
    requires x + tail == y + tail
    ensures x == y
  {
    assert |x + tail| == |y + tail|;
    assert (x + tail)[..|x|] == x && (y + tail)[..|y|] == y;
  }

  lemma BackupParts(a: string)
    ensures Ext(BackupName(a)) == Ext(a) && Stem(BackupName(a)) == Stem(a) + "-old"
  {
    ExtShape(a);
    ExtOf(Stem(a) + "-old", Ext(a));
  }

  const INSTALL_CONFIG := "jentic-one.yaml"
  const CLI_CONFIG := "config.yaml"
  const CONFIGS: set<string> := {INSTALL_CONFIG, CLI_CONFIG}

  lemma ConfigBackups()
    ensures BackupName(INSTALL_CONFIG) == "jentic-one-old.yaml" && BackupName(CLI_CONFIG) == "config-old.yaml"
    ensures forall c :: c in CONFIGS ==> BackupName(c) !in CONFIGS
    ensures BackupName(INSTALL_CONFIG) != BackupName(CLI_CONFIG)
  {
    InstallBackup();
    CliBackup();
    assert "config-old.yaml"[0] == 'c' && INSTALL_CONFIG[0] == 'j';
  }

  lemma InstallBackup()
    ensures BackupName(INSTALL_CONFIG) == "jentic-one-old.yaml"
  {
    ExtOf("jentic-one", ".yaml");
    assert "jentic-one" + ".yaml" == INSTALL_CONFIG;
    assert "jentic-one" + "-old" + ".yaml" == "jentic-one-old.yaml";
  }

  lemma CliBackup()
    ensures BackupName(CLI_CONFIG) == "config-old.yaml"
  {
    ExtOf("config", ".yaml");
    assert "config" + ".yaml" == CLI_CONFIG;
    assert "config" + "-old" + ".yaml" == "config-old.yaml";
  }

  // ----- what is left -----

  /** The configuration whose backup has this name. */
  function Owner(base: string): Option<string> {
    if base == BackupName(INSTALL_CONFIG) then Some(INSTALL_CONFIG)
    else if base == BackupName(CLI_CONFIG) then Some(CLI_CONFIG)
    else None
  }

  /** Exactly the backups of the configurations that were there, each with that configuration's content. */
  ghost predicate Uninstalled(before: Files, now: Files, dir: string) {
    && (forall base :: Content(now, Path(dir, base))
                       == match Owner(base)
                          case None => None
                          case Some(config) => Content(before, Path(dir, config)))
    && forall q: Path :: q.dir != dir ==> Content(now, q) == Content(before, q)
  }

  /** No configuration is lost: its content is at its name or at its backup; and other directories are untouched. */
  ghost predicate NothingLost(before: Files, now: Files, dir: string) {
    && (forall c :: c in CONFIGS && Path(dir, c) in before ==>
                      Content(now, Path(dir, c)) == Content(before, Path(dir, c))
                      || Content(now, Path(dir, BackupName(c))) == Content(before, Path(dir, c)))
    && forall q: Path :: q.dir != dir ==> Content(now, q) == Content(before, q)
  }

  ghost predicate NeverLost(trace: seq<Files>, from: nat, before: Files, dir: string) {
    forall i :: from <= i < |trace| ==> NothingLost(before, trace[i], dir)
  }

  /** What is under a name once the configurations `done` are backed up. */
  function Moved(before: Files, dir: string, done: set<string>, base: string): Option<string> {
    if base in done then None
    else if Owner(base).Some? && Owner(base).value in done && Path(dir, Owner(base).value) in before
    then Content(before, Path(dir, Owner(base).value))
    else Content(before, Path(dir, base))
  }

  ghost predicate BackedUp(before: Files, now: Files, dir: string, done: set<string>) {
    && (forall base :: Content(now, Path(dir, base)) == Moved(before, dir, done, base))
    && forall q: Path :: q.dir != dir ==> Content(now, q) == Content(before, q)
  }

  lemma BackedUpLosesNothing(before: Files, now: Files, dir: string, done: set<string>)
    requires BackedUp(before, now, dir, done) && done <= CONFIGS
    ensures NothingLost(before, now, dir)
  {
    ConfigBackups();
    forall c | c in CONFIGS && Path(dir, c) in before
      ensures Content(now, Path(dir, c)) == Content(before, Path(dir, c))
              || Content(now, Path(dir, BackupName(c))) == Content(before, Path(dir, c))
    {
      assert Owner(BackupName(c)) == Some(c);
      assert BackupName(c) !in done;
    }
  }

  method BackUpConfigs(disk: Disk, dir: string) returns (ok: bool, backups: set<string>)
    modifies disk
    ensures ok ==> BackedUp(old(disk.files), disk.files, dir, CONFIGS)
    ensures disk.faults >= old(disk.faults) && (ok <==> disk.faults == old(disk.faults))
    ensures ok ==> backups == set c | c in CONFIGS && Path(dir, c) in old(disk.files) :: BackupName(c)
    ensures old(disk.trace) <= disk.trace && NeverLost(disk.trace, |old(disk.trace)|, old(disk.files), dir)
  {
    ConfigBackups();
    backups := {};
    var todo := CONFIGS;
    while todo != {}
      invariant todo <= CONFIGS && disk.faults == old(disk.faults)
      invariant BackedUp(old(disk.files), disk.files, dir, CONFIGS - todo)
      invariant backups == set c | c in CONFIGS - todo && Path(dir, c) in old(disk.files) :: BackupName(c)
      invariant old(disk.trace) <= disk.trace && NeverLost(disk.trace, |old(disk.trace)|, old(disk.files), dir)
    {
      var name :| name in todo;
      ghost var done := CONFIGS - todo;
      assert Content(disk.files, Path(dir, name)) == Moved(old(disk.files), dir, done, name);
      todo := todo - {name};
      assert CONFIGS - todo == done + {name};
      if Path(dir, name) in disk.files {
        ghost var was := disk.files;
        ok := disk.Rename(Path(dir, name), Path(dir, BackupName(name)));
        if !ok {
          BackedUpLosesNothing(old(disk.files), disk.files, dir, done);
          return;
        }
        OneMore(old(disk.files), was, disk.files, dir, done, name);
        BackedUpLosesNothing(old(disk.files), disk.files, dir, done + {name});
        backups := backups + {BackupName(name)};
      } else {
        NotThere(old(disk.files), disk.files, dir, done, name);
      }
    }
    ok := true;
  }

  lemma NotThere(before: Files, now: Files, dir: string, done: set<string>, name: string)
    requires done <= CONFIGS && name in CONFIGS - done && BackedUp(before, now, dir, done)
    requires Path(dir, name) !in now
    ensures Path(dir, name) !in before && BackedUp(before, now, dir, done + {name})
  {
    ConfigBackups();
    assert Content(now, Path(dir, name)) == Moved(before, dir, done, name);
  }

  lemma OneMore(before: Files, was: Files, now: Files, dir: string, done: set<string>, name: string)
    requires done <= CONFIGS && name in CONFIGS - done && BackedUp(before, was, dir, done)
    requires Path(dir, name) in was
    requires now == (was - {Path(dir, name)})[Path(dir, BackupName(name)) := was[Path(dir, name)]]
    ensures BackedUp(before, now, dir, done + {name})
  {
    ConfigBackups();
    assert Content(was, Path(dir, name)) == Moved(before, dir, done, name);
    forall base ensures Content(now, Path(dir, base)) == Moved(before, dir, done + {name}, base) {
      assert Content(was, Path(dir, base)) == Moved(before, dir, done, base);
    }
  }

  /** The names that the second phase skips. */
  predicate Skipped(before: Files, dir: string, base: string) {
    base in CONFIGS || (Owner(base).Some? && Path(dir, Owner(base).value) in before)
  }

  function Left(before: Files, dir: string, removed: set<string>, base: string): Option<string> {
    if base in removed && !Skipped(before, dir, base) then None else Moved(before, dir, CONFIGS, base)
  }

  ghost predicate Cleared(before: Files, now: Files, dir: string, removed: set<string>) {
    && (forall base :: Content(now, Path(dir, base)) == Left(before, dir, removed, base))
    && forall q: Path :: q.dir != dir ==> Content(now, q) == Content(before, q)
  }

  lemma ClearedIsUninstalled(before: Files, now: Files, dir: string, entries: set<string>)
    requires Cleared(before, now, dir, entries)
    requires forall base :: Path(dir, base) in before ==> base in entries
    ensures Uninstalled(before, now, dir)
  {
    ConfigBackups();
    forall base ensures Content(now, Path(dir, base))
                        == match Owner(base) case None => None case Some(config) => Content(before, Path(dir, config)) {
      assert Content(now, Path(dir, base)) == Left(before, dir, entries, base);
    }
  }

  /** Removing a name that is not skipped, wholly or in part, loses no configuration. */
  lemma RemovingLosesNothing(before: Files, was: Files, now: Files, dir: string, removed: set<string>, name: string)
    requires Cleared(before, was, dir, removed) && !Skipped(before, dir, name)
    requires forall q :: q != Path(dir, name) ==> Content(now, q) == Content(was, q)
    ensures NothingLost(before, now, dir)
    ensures Path(dir, name) !in now ==> Cleared(before, now, dir, removed + {name})
  {
    ConfigBackups();
    forall c | c in CONFIGS && Path(dir, c) in before
      ensures Content(now, Path(dir, BackupName(c))) == Content(before, Path(dir, c))
    {
      assert Owner(BackupName(c)) == Some(c);
      assert Content(was, Path(dir, BackupName(c))) == Left(before, dir, removed, BackupName(c));
    }
    if Path(dir, name) !in now {
      forall base ensures Content(now, Path(dir, base)) == Left(before, dir, removed + {name}, base) {
        assert Content(was, Path(dir, base)) == Left(before, dir, removed, base);
      }
    }
  }

  /** Backs up the configurations, in any order, then removes everything else that was there at the start. */
  method Teardown(disk: Disk, dir: string) returns (ok: bool)
    modifies disk
    ensures ok ==> Uninstalled(old(disk.files), disk.files, dir)
    ensures ok <==> disk.faults == old(disk.faults)
    ensures old(disk.trace) <= disk.trace && NeverLost(disk.trace, |old(disk.trace)|, old(disk.files), dir)
  {
    var entries := set p | p in disk.files && p.dir == dir :: p.base;
    assert forall base :: Path(dir, base) in disk.files ==> Path(dir, base).base in entries;
    if entries == {} {
      NothingThere(disk.files, dir);
      return true;
    }
    var backups;
    ok, backups := BackUpConfigs(disk, dir);
    if !ok {
      return;
    }
    ClearedAtFirst(old(disk.files), disk.files, dir);
    var todo := entries;
    while todo != {}
      invariant todo <= entries && disk.faults == old(disk.faults)
      invariant Cleared(old(disk.files), disk.files, dir, entries - todo)
      invariant old(disk.trace) <= disk.trace && NeverLost(disk.trace, |old(disk.trace)|, old(disk.files), dir)
    {
      var name :| name in todo;
      ghost var removed := entries - todo;
      todo := todo - {name};
      assert entries - todo == removed + {name};
      SkipsExactly(old(disk.files), dir, backups, name);
      if name !in backups && name !in CONFIGS {
        ghost var was := disk.files;
        ok := disk.RemoveAll(Path(dir, name));
        RemovingLosesNothing(old(disk.files), was, disk.files, dir, removed, name);
        if !ok {
          return;
        }
      } else {
        SkippingClears(old(disk.files), disk.files, dir, removed, name);
      }
    }
    assert entries - {} == entries;
    ClearedIsUninstalled(old(disk.files), disk.files, dir, entries);
    ok := true;
  }

  lemma NothingThere(files: Files, dir: string)
    requires forall base :: Path(dir, base) !in files
    ensures Uninstalled(files, files, dir)
  {
  }

  lemma ClearedAtFirst(before: Files, now: Files, dir: string)
    requires BackedUp(before, now, dir, CONFIGS)
    ensures Cleared(before, now, dir, {})
  {
    forall base ensures Content(now, Path(dir, base)) == Left(before, dir, {}, base) {
      assert Content(now, Path(dir, base)) == Moved(before, dir, CONFIGS, base);
    }
  }

  lemma SkippingClears(before: Files, now: Files, dir: string, removed: set<string>, name: string)
    requires Cleared(before, now, dir, removed) && Skipped(before, dir, name)
    ensures Cleared(before, now, dir, removed + {name})
  {
    forall base ensures Content(now, Path(dir, base)) == Left(before, dir, removed + {name}, base) {
      assert Content(now, Path(dir, base)) == Left(before, dir, removed, base);
    }
  }

  lemma SkipsExactly(before: Files, dir: string, backups: set<string>, name: string)
    requires backups == set c | c in CONFIGS && Path(dir, c) in before :: BackupName(c)
    ensures name in backups || name in CONFIGS <==> Skipped(before, dir, name)
  {
    ConfigBackups();
    if Skipped(before, dir, name) && name !in CONFIGS {
      assert Owner(name).value in CONFIGS && BackupName(Owner(name).value) == name;
    }
  }

  /** A second teardown with no new configuration removes the backups of the first. */
  lemma TwiceLeavesNothing(before: Files, once: Files, twice: Files, dir: string)
    requires Uninstalled(before, once, dir) && Uninstalled(once, twice, dir)
    ensures forall base :: Path(dir, base) !in twice
  {
    ConfigBackups();
    forall base ensures Path(dir, base) !in twice {
      assert Content(once, Path(dir, INSTALL_CONFIG)) == None;
      assert Content(once, Path(dir, CLI_CONFIG)) == None;
      assert Content(twice, Path(dir, base)) == None;
    }
  }
}
