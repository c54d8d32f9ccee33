/** A file system whose operations may fail, with a record of every state it went through and of how many operations
    have failed. A crash can happen in any of the recorded states. */
module FileSystem {
  import opened Text

  datatype Path = Path(dir: string, base: string)

  type Files = map<Path, string>

  function Content(files: Files, p: Path): Option<string> {
    if p in files then Some(files[p]) else None
  }

  class Disk {
    var files: Files
    ghost var trace: seq<Files>
    ghost var faults: nat

    constructor (files: Files)
      ensures this.files == files && trace == [files] && faults == 0
    {
      this.files := files;
      trace, faults := [files], 0;
    }

    /** Anything that can fail without changing a file: opening, syncing and closing one, or making a directory. */
    method Attempt() returns (ok: bool)
      modifies this
      ensures files == old(files) && trace == old(trace) && faults == old(faults) + if ok then 0 else 1
    {
      ok := *;
      if !ok {
        faults := faults + 1;
      }
    }

    /** Creates an empty file, or empties the one that is there. */
    method Truncate(p: Path) returns (ok: bool)
      modifies this
      ensures files == if ok then old(files)[p := ""] else old(files)
      ensures trace == old(trace) + [files] && faults == old(faults) + if ok then 0 else 1
    {
      ok := Attempt();
      if ok {
        files := files[p := ""];
      }
      trace := trace + [files];
    }

    /** Appends some of `data`; when it appends nothing, it has failed. */
    method Append(p: Path, data: string) returns (n: nat)
      requires p in files
      modifies this
      ensures n <= |data|
      ensures files == old(files)[p := old(files)[p] + data[..n]]
      ensures trace == old(trace) + [files] && faults == old(faults) + if n == 0 && data != "" then 1 else 0
    {
      n :| n <= |data|;
      if n == 0 && data != "" {
        faults := faults + 1;
      }
      files := files[p := files[p] + data[..n]];
      trace := trace + [files];
    }

    /** Moves a file over another one in a single step. */
    method Rename(src: Path, dst: Path) returns (ok: bool)
      requires src in files
      modifies this
      ensures files == if ok then (old(files) - {src})[dst := old(files)[src]] else old(files)
      ensures trace == old(trace) + [files] && faults == old(faults) + if ok then 0 else 1
    {
      ok := Attempt();
      if ok {
        files := (files - {src})[dst := files[src]];
      }
      trace := trace + [files];
    }

    method Remove(p: Path) returns (ok: bool)
      modifies this
      ensures files == if ok then old(files) - {p} else old(files)
      ensures trace == old(trace) + [files] && faults == old(faults) + if ok then 0 else 1
    {
      ok := Attempt();
      if ok {
        files := files - {p};
      }
      trace := trace + [files];
    }

    /** Removes an entry and all below it; a failure can leave any part of it. */
    method RemoveAll(p: Path) returns (ok: bool)
      modifies this
      ensures forall q :: q != p ==> Content(files, q) == Content(old(files), q)
      ensures ok ==> p !in files
      ensures trace == old(trace) + [files] && faults == old(faults) + if ok then 0 else 1
    {
      ok := Attempt();
      if ok {
        files := files - {p};
      } else if p in files {
        var rest: string := *;
        files := files[p := rest];
      }
      trace := trace + [files];
    }
  }

  /** Nothing but the files named in `except` differs. */
  ghost predicate SameBut(before: Files, now: Files, except: set<Path>) {
    forall q :: q !in except ==> Content(now, q) == Content(before, q)
  }

  /** From `from` on, only `p` differs from `before`. */
  ghost predicate OnlyTouches(trace: seq<Files>, from: nat, before: Files, p: Path) {
    forall i :: from <= i < |trace| ==> SameBut(before, trace[i], {p})
  }

  lemma SameFiles(a: Files, b: Files)
    requires SameBut(a, b, {})
    ensures a == b
  {
    forall q ensures (q in a <==> q in b) && (q in a ==> a[q] == b[q]) {
      assert Content(b, q) == Content(a, q);
    }
  }
}
