/** Durable files: appending, atomic replacement, and every disk state a crash can leave behind. */
module Persistence {
  import opened Words

  type Path = string
  type Files = map<Path, Bytes>

  datatype IoError = IoError

  function Lookup(files: Files, path: Path): Option<Bytes> {
    if path in files then Some(files[path]) else None
  }

  // A missing file reads as an empty one.
  function ContentOf(files: Files, path: Path): Bytes {
    if path in files then files[path] else []
  }

  function TemporaryFor(path: Path): Path {
    path + ".tmp"
  }

  ghost predicate SameExcept(a: Files, b: Files, paths: set<Path>) {
    forall p | p !in paths :: Lookup(a, p) == Lookup(b, p)
  }

  /**
   The file system. `trail` records its contents after every system call, so a property
   of all new entries is a property of every state in which the process may die. Only a faulty
   disk refuses a call.
   */
  class Disk {
    var files: Files
    ghost var trail: seq<Files>
    const faulty: bool

    constructor (files: Files, faulty: bool)
      ensures this.files == files && trail == [] && this.faulty == faulty
    {
      this.files, trail, this.faulty := files, [], faulty;
    }

    // Whether the next system call fails.
    method Refuses() returns (fails: bool)
      ensures fails ==> faulty
    {
      fails := *;
      fails := fails && faulty;
    }

    method Store(path: Path, data: Bytes)
      modifies this
      ensures Lookup(files, path) == Some(data) && SameExcept(files, old(files), {path})
      ensures trail == old(trail) + [files]
    {
      files := files[path := data];
      trail := trail + [files];
    }

    method Remove(path: Path)
      modifies this
      ensures Lookup(files, path) == None && SameExcept(files, old(files), {path})
      ensures trail == old(trail) + [files]
    {
      files := files - {path};
      trail := trail + [files];
    }

    method Rename(from: Path, to: Path)
      requires from in files && from != to
      modifies this
      ensures Lookup(files, to) == Lookup(old(files), from) && Lookup(files, from) == None
      ensures SameExcept(files, old(files), {from, to})
      ensures trail == old(trail) + [files]
    {
      files := files[to := files[from]] - {from};
      trail := trail + [files];
    }
  }

  // Only the touched files differ from `before`, and `path` has one of the allowed contents.
  ghost predicate Outcome(files: Files, before: Files, touched: set<Path>, path: Path, allowed: iset<Option<Bytes>>) {
    SameExcept(files, before, touched) && Lookup(files, path) in allowed
  }

  ghost predicate AllSince(trail: seq<Files>, mark: nat, before: Files, touched: set<Path>,
                           path: Path, allowed: iset<Option<Bytes>>)
  {
    mark <= |trail| && forall i | mark <= i < |trail| :: Outcome(trail[i], before, touched, path, allowed)
  }

  method ReadFile(disk: Disk, path: Path) returns (r: Result<Bytes, IoError>)
    ensures r.Ok? ==> r.value == ContentOf(disk.files, path)
    ensures r.Err? ==> disk.faulty
  {
    var fails := disk.Refuses();
    if fails {
      return Err(IoError);
    }
    return Ok(ContentOf(disk.files, path));
  }

  ghost function PrefixesAfter(base: Bytes, data: Bytes): iset<Option<Bytes>> {
    iset k: nat | k <= |data| :: Some(base + data[..k])
  }

  // Appends `data` in writes of any positive size, any of which may fail.
  method WriteAll(disk: Disk, path: Path, data: Bytes) returns (r: Result<(), IoError>)
    requires path in disk.files
    modifies disk
    ensures path in disk.files && (r.Err? ==> disk.faulty)
    ensures r.Ok? ==> disk.files[path] == old(disk.files[path]) + data
    ensures Outcome(disk.files, old(disk.files), {path}, path, PrefixesAfter(old(disk.files[path]), data))
    ensures old(disk.trail) <= disk.trail
    ensures AllSince(disk.trail, |old(disk.trail)|, old(disk.files), {path}, path,
                     PrefixesAfter(old(disk.files[path]), data))
  {
    ghost var base := disk.files[path];
    assert data[..0] == [];
    assert base == base + data[..0];
    var written := 0;
    while written < |data|
      invariant written <= |data| && path in disk.files
      invariant SameExcept(disk.files, old(disk.files), {path})
      invariant disk.files[path] == base + data[..written]
      invariant old(disk.trail) <= disk.trail
      invariant AllSince(disk.trail, |old(disk.trail)|, old(disk.files), {path}, path, PrefixesAfter(base, data))
    {
      var fails := disk.Refuses();
      if fails {
        return Err(IoError);
      }
      var n: nat :| 1 <= n <= |data| - written;
      assert base + data[..written] + data[written..written + n] == base + data[..written + n];
      disk.Store(path, disk.files[path] + data[written..written + n]);
      written := written + n;
    }
    assert data[..written] == data;
    return Ok(());
  }

  // Untouched, or the old content followed by some prefix of the data.
  ghost function AppendOutcomes(before: Files, path: Path, data: Bytes): iset<Option<Bytes>> {
    iset{Lookup(before, path)} + PrefixesAfter(ContentOf(before, path), data)
  }

  ghost function ReplaceOutcomes(before: Files, path: Path, data: Bytes): iset<Option<Bytes>> {
    iset{Lookup(before, path), Some(data)}
  }

  /** All of `data` is on disk on success; a failure or a crash leaves some prefix of it. */
  method AppendDurably(disk: Disk, path: Path, data: Bytes) returns (r: Result<(), IoError>)
    modifies disk
    ensures r.Err? ==> disk.faulty
    ensures r.Ok? ==> Lookup(disk.files, path) == Some(old(ContentOf(disk.files, path)) + data)
    ensures Outcome(disk.files, old(disk.files), {path}, path, AppendOutcomes(old(disk.files), path, data))
    ensures old(disk.trail) <= disk.trail
    ensures AllSince(disk.trail, |old(disk.trail)|, old(disk.files), {path}, path,
                     AppendOutcomes(old(disk.files), path, data))
  {
    ghost var base := ContentOf(disk.files, path);
    assert base == base + data[..0];
    var refused := disk.Refuses();
    if refused {
      return Err(IoError);
    }
    if path !in disk.files {
      disk.Store(path, []);
    }
    r := WriteAll(disk, path, data);
    if r.Err? {
      return;
    }
    refused := disk.Refuses();
    if refused {
      return Err(IoError);
    }
  }

  // While only the temporary file is being written, the target keeps its old content.
  lemma TargetUntouched(trail: seq<Files>, mark: nat, mid: Files, before: Files,
                        path: Path, allowed: iset<Option<Bytes>>)
    requires mark <= |trail| && SameExcept(mid, before, {TemporaryFor(path)})
    requires forall i | mark <= i < |trail| :: SameExcept(trail[i], mid, {TemporaryFor(path)})
    requires Lookup(before, path) in allowed
    ensures AllSince(trail, mark, before, {path, TemporaryFor(path)}, path, allowed)
  {
    assert |TemporaryFor(path)| == |path| + 4;
  }

  /** The file has its new content on success; a failure or a crash leaves the old or the new content. */
  method WriteAtomically(disk: Disk, path: Path, data: Bytes) returns (r: Result<(), IoError>)
    modifies disk
    ensures r.Err? ==> disk.faulty
    ensures r.Ok? ==> Lookup(disk.files, path) == Some(data)
    ensures Outcome(disk.files, old(disk.files), {path, TemporaryFor(path)}, path,
                    ReplaceOutcomes(old(disk.files), path, data))
    ensures old(disk.trail) <= disk.trail
    ensures AllSince(disk.trail, |old(disk.trail)|, old(disk.files), {path, TemporaryFor(path)}, path,
                     ReplaceOutcomes(old(disk.files), path, data))
  {
    var temporary := TemporaryFor(path);
    assert |temporary| == |path| + 4;
    r := WriteTemporary(disk, path, data);
    if r.Err? {
      return;
    }
    disk.Rename(temporary, path);
    var refused := disk.Refuses();
    if refused {
      disk.Remove(temporary);
      return Err(IoError);
    }
  }

  // Everything up to and including the permission to rename; cleans up after a failure.
  method WriteTemporary(disk: Disk, path: Path, data: Bytes) returns (r: Result<(), IoError>)
    modifies disk
    ensures r.Err? ==> disk.faulty
    ensures r.Ok? ==> TemporaryFor(path) in disk.files && disk.files[TemporaryFor(path)] == data
    ensures SameExcept(disk.files, old(disk.files), {TemporaryFor(path)})
    ensures old(disk.trail) <= disk.trail
    ensures AllSince(disk.trail, |old(disk.trail)|, old(disk.files), {path, TemporaryFor(path)}, path,
                     ReplaceOutcomes(old(disk.files), path, data))
  {
    var temporary := TemporaryFor(path);
    ghost var mark, before := |disk.trail|, disk.files;
    var refused := disk.Refuses();
    if refused {
      return Err(IoError);
    }
    disk.Store(temporary, []);
    r := WriteAll(disk, temporary, data);
    var syncFails := disk.Refuses();
    var renameFails := disk.Refuses();
    if r.Err? || syncFails || renameFails {
      disk.Remove(temporary);
      r := Err(IoError);
    }
    TargetUntouched(disk.trail, mark, before, before, path, ReplaceOutcomes(before, path, data));
  }
}
