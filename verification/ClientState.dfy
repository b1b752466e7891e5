/** The client's persistent identity, id counter and file checkpoint. */
module ClientState {
  import opened Words
  import opened Lines
  import opened Persistence
  import opened Text
  import opened Protocol

  datatype Fields = Fields(
    clientId: Bytes, nextId: uint64, sourcePath: Bytes,
    fileOffset: uint64, fileDeviceId: uint64, fileInode: uint64)

  datatype StateError = InvalidArgument | InvalidState | ClientMismatch | IdsExhausted | IoFailure

  const STATE_MAGIC: Bytes := [76, 71, 66, 83, 84, 65, 84, 69, 50]  // LGBSTATE2
  const LEGACY_STATE_MAGIC: Bytes := [76, 71, 66, 83, 84, 65, 84, 69, 49]  // LGBSTATE1

  // ---------- The text of the state file ----------

  function Line(s: Bytes): Bytes {
    s + [NEWLINE]
  }

  function Render(f: Fields): Bytes {
    Line(STATE_MAGIC) + (Line(f.clientId) + (Line(Decimal(f.nextId)) + (Line(Decimal(f.fileOffset))
    + (Line(Decimal(f.fileDeviceId)) + (Line(Decimal(f.fileInode)) + (Line(f.sourcePath) + []))))))
  }

  // The two newer fields, present only in the current format, and the source path.
  function ParseTail(magic: Bytes, input: Bytes): Option<(uint64, uint64, Bytes)> {
    if magic == STATE_MAGIC then
      match GetLine(input)
      case None => None
      case Some((device, s1)) =>
        match GetLine(s1)
        case None => None
        case Some((inode, s2)) =>
          if GetLine(s2).None? || ParseUint64(device).None? || ParseUint64(inode).None? then None
          else Some((ParseUint64(device).value, ParseUint64(inode).value, GetLine(s2).value.0))
    else if magic == LEGACY_STATE_MAGIC then
      if GetLine(input).None? then None else Some((0, 0, GetLine(input).value.0))
    else None
  }

  function Parse(text: Bytes): Option<Fields> {
    match GetLine(text)
    case None => None
    case Some((magic, s1)) =>
      match GetLine(s1)
      case None => None
      case Some((clientId, s2)) =>
        match GetLine(s2)
        case None => None
        case Some((nextId, s3)) =>
          match GetLine(s3)
          case None => None
          case Some((fileOffset, s4)) =>
            var tail := ParseTail(magic, s4);
            if clientId == [] || tail.None? || ParseUint64(nextId).None? || ParseUint64(fileOffset).None?
               || ParseUint64(nextId).value == 0
            then None
            else Some(Fields(clientId, ParseUint64(nextId).value, tail.value.2,
                             ParseUint64(fileOffset).value, tail.value.0, tail.value.1))
  }

  // The states that the text format can carry.
  ghost predicate Printable(f: Fields) {
    f.clientId != [] && OneLine(f.clientId) && OneLine(f.sourcePath) && f.nextId >= 1
  }

  lemma NextLine(line: Bytes, rest: Bytes)
    requires OneLine(line)
    ensures GetLine(Line(line) + rest) == Some((line, rest))
  {
    GetLineOf(line, rest);
  }

  // 32 hexadecimal digits, as the client generates its id.
  predicate GeneratedId(id: Bytes) {
    |id| == 32 && forall i | 0 <= i < |id| :: 48 <= id[i] <= 57 || 97 <= id[i] <= 102
  }

  lemma GeneratedIsPlain(id: Bytes)
    requires GeneratedId(id)
    ensures id != [] && OneLine(id) && SpaceFree(id)
  {
  }

  // What getline reads back of a text.
  function HeadLine(s: Bytes): Bytes {
    s[..NewlineIndex(s)]
  }

  lemma HeadLineIsAll(s: Bytes)
    ensures HeadLine(s) == s <==> OneLine(s)
  {
  }

  lemma LastLine(path: Bytes)
    ensures GetLine(Line(path) + []).Some? && GetLine(Line(path) + []).value.0 == HeadLine(path)
  {
    var k, s := NewlineIndex(path), Line(path) + [];
    assert forall i | 0 <= i < |path| :: s[i] == path[i];
    assert s[|path|] == NEWLINE;
    assert NewlineIndex(s) == k;
  }

  /** What a restart loads of a saved state: everything, except that only the first line of the source path is left. */
  lemma SavedIsLoaded(f: Fields)
    requires f.clientId != [] && OneLine(f.clientId) && f.nextId >= 1
    ensures Parse(Render(f)) == Some(f.(sourcePath := HeadLine(f.sourcePath)))
  {
    hide GetLine, ParseUint64, Decimal, Line, HeadLine;
    var l6 := Line(f.sourcePath) + [];
    var l5 := Line(Decimal(f.fileInode)) + l6;
    var l4 := Line(Decimal(f.fileDeviceId)) + l5;
    var l3 := Line(Decimal(f.fileOffset)) + l4;
    var l2 := Line(Decimal(f.nextId)) + l3;
    NextLine(STATE_MAGIC, Line(f.clientId) + l2);
    NextLine(f.clientId, l2);
    NextLine(Decimal(f.nextId), l3);
    NextLine(Decimal(f.fileOffset), l4);
    NextLine(Decimal(f.fileDeviceId), l5);
    NextLine(Decimal(f.fileInode), l6);
    LastLine(f.sourcePath);
    ParseDecimal(f.nextId);
    ParseDecimal(f.fileOffset);
    ParseDecimal(f.fileDeviceId);
    ParseDecimal(f.fileInode);
  }

  lemma LoadedIsPrintable(text: Bytes)
    requires Parse(text).Some?
    ensures Printable(Parse(text).value)
  {
    hide ParseUint64, GetLine, OneLine;
  }

  /**
   What persist() writes, load() restores, every field of it, if and only if the client id is
   not empty, neither it nor the path spans lines, and the next id is not zero.
   */
  lemma StateRoundTrip(f: Fields)
    ensures Parse(Render(f)) == Some(f) <==> Printable(f)
  {
    hide Parse, Render, HeadLine;
    HeadLineIsAll(f.sourcePath);
    if Printable(f) {
      SavedIsLoaded(f);
    }
    if Parse(Render(f)) == Some(f) {
      LoadedIsPrintable(Render(f));
    }
  }

  /** The text of one state, byte by byte: id "a", next id 12, offset 5, device 3, inode 9, source "/". */
  lemma StateText()
    ensures Render(Fields([97], 12, [47], 5, 3, 9)) ==
            [76, 71, 66, 83, 84, 65, 84, 69, 50, 10, 97, 10, 49, 50, 10, 53, 10, 51, 10, 57, 10, 47, 10]
  {
    assert Decimal(12) == Decimal(1) + [50] == [49, 50];
    assert Decimal(5) == [53] && Decimal(3) == [51] && Decimal(9) == [57];
    hide Decimal;
    assert Line(STATE_MAGIC) == [76, 71, 66, 83, 84, 65, 84, 69, 50, 10] && Line([97]) == [97, 10];
    assert Line(Decimal(12)) == [49, 50, 10] && Line(Decimal(5)) == [53, 10] && Line(Decimal(3)) == [51, 10];
    assert Line(Decimal(9)) == [57, 10] && Line([47]) == [47, 10];
    hide Line;
    SevenLines();
  }

  lemma SevenLines()
    ensures [76, 71, 66, 83, 84, 65, 84, 69, 50, 10] + ([97, 10] + ([49, 50, 10] + ([53, 10]
            + ([51, 10] + ([57, 10] + ([47, 10] + [])))))) ==
            [76, 71, 66, 83, 84, 65, 84, 69, 50, 10, 97, 10, 49, 50, 10, 53, 10, 51, 10, 57, 10, 47, 10]
  {
  }

  /** A state file of the older format, which has no file identity, loads with none. */
  lemma OlderIsLoaded(f: Fields)
    requires f.clientId != [] && OneLine(f.clientId) && f.nextId >= 1
    ensures Parse(Line(LEGACY_STATE_MAGIC) + (Line(f.clientId) + (Line(Decimal(f.nextId))
                  + (Line(Decimal(f.fileOffset)) + (Line(f.sourcePath) + [])))))
         == Some(f.(fileDeviceId := 0, fileInode := 0, sourcePath := HeadLine(f.sourcePath)))
  {
    hide GetLine, ParseUint64, Decimal, Line, HeadLine;
    var l4 := Line(f.sourcePath) + [];
    var l3 := Line(Decimal(f.fileOffset)) + l4;
    var l2 := Line(Decimal(f.nextId)) + l3;
    NextLine(LEGACY_STATE_MAGIC, Line(f.clientId) + l2);
    NextLine(f.clientId, l2);
    NextLine(Decimal(f.nextId), l3);
    NextLine(Decimal(f.fileOffset), l4);
    LastLine(f.sourcePath);
    ParseDecimal(f.nextId);
    ParseDecimal(f.fileOffset);
  }

  // ---------- What each operation may do to memory and disk ----------

  /** `memory` are the fields of the running client, `stored` those that a restart would load. */
  datatype Ids = Ids(memory: Fields, stored: Fields)

  ghost predicate Persisted(s: Ids, updated: Fields, s': Ids, ok: bool) {
    if ok then s' == Ids(updated, updated)
    else s'.memory == s.memory && s'.stored in {s.stored, updated}
  }

  ghost predicate NextIdStep(s: Ids, id: uint64, s': Ids, ok: bool) {
    if s.memory.nextId == MAX_UINT64 then !ok && s' == s
    else
      && Persisted(s, s.memory.(nextId := s.memory.nextId + 1), s', ok)
      && (ok ==> id == s.memory.nextId)
  }

  ghost predicate CheckpointStep(s: Ids, offset: uint64, device: uint64, inode: uint64, s': Ids, ok: bool) {
    var updated := s.memory.(fileOffset := offset, fileDeviceId := device, fileInode := inode);
    if updated == s.memory then ok && s' == s else Persisted(s, updated, s', ok)
  }

  function MaxId(ms: seq<LogMessage>): uint64 {
    if ms == [] then 0
    else
      var rest := MaxId(ms[..|ms| - 1]);
      if ms[|ms| - 1].id > rest then ms[|ms| - 1].id else rest
  }

  /** MaxId is an upper bound of the ids, and one of them unless there are none above zero. */
  lemma {:induction false} MaxIdIsMaximum(ms: seq<LogMessage>)
    ensures forall i | 0 <= i < |ms| :: ms[i].id <= MaxId(ms)
    ensures MaxId(ms) == 0 || exists i | 0 <= i < |ms| :: ms[i].id == MaxId(ms)
  {
    if ms != [] {
      MaxIdIsMaximum(ms[..|ms| - 1]);
      assert ms[|ms| - 1].id == MaxId(ms) || MaxId(ms) == MaxId(ms[..|ms| - 1]);
    }
  }

  // The constructor's corrections: another log file has no checkpoint yet, and no WAL id is reused.
  function Repaired(f: Fields, source: Bytes, maximum: uint64): Fields
    requires maximum < MAX_UINT64
  {
    var g := if f.sourcePath == source then f
             else f.(sourcePath := source, fileOffset := 0, fileDeviceId := 0, fileInode := 0);
    if g.nextId <= maximum then g.(nextId := maximum + 1) else g
  }

  // The process dies here: the file loads as what a failed step may leave.
  ghost predicate CutNextId(files: Files, path: Path, s: Ids) {
    path in files && exists s' :: NextIdStep(s, 0, s', false) && Parse(files[path]) == Some(s'.stored)
  }

  ghost predicate CutCheckpoint(files: Files, path: Path, s: Ids, offset: uint64, device: uint64, inode: uint64) {
    && path in files
    && exists s' :: CheckpointStep(s, offset, device, inode, s', false) && Parse(files[path]) == Some(s'.stored)
  }

  // While a state is persisted, the file loads as the old or the new one.
  lemma PersistingLoads(files: Files, before: Files, path: Path, stored: Fields, updated: Fields)
    requires path in before && Parse(before[path]) == Some(stored) && Printable(updated)
    requires Lookup(files, path) in ReplaceOutcomes(before, path, Render(updated))
    ensures path in files && Parse(files[path]) in {Some(stored), Some(updated)}
  {
    hide Parse, Render;
    StateRoundTrip(updated);
    assert Lookup(files, path).Some?;
  }

  lemma NextIdCut(files: Files, path: Path, s: Ids)
    requires s.memory.nextId < MAX_UINT64 && path in files
    requires Parse(files[path]) in {Some(s.stored), Some(s.memory.(nextId := s.memory.nextId + 1))}
    ensures CutNextId(files, path, s)
  {
    hide Parse;
    var f := s.memory.(nextId := s.memory.nextId + 1);
    assert NextIdStep(s, 0, s, false) && NextIdStep(s, 0, s.(stored := f), false);
  }

  lemma CheckpointCut(files: Files, path: Path, s: Ids, offset: uint64, device: uint64, inode: uint64)
    requires path in files
    requires var f := s.memory.(fileOffset := offset, fileDeviceId := device, fileInode := inode);
      f != s.memory && Parse(files[path]) in {Some(s.stored), Some(f)}
    ensures CutCheckpoint(files, path, s, offset, device, inode)
  {
    hide Parse;
    var f := s.memory.(fileOffset := offset, fileDeviceId := device, fileInode := inode);
    assert CheckpointStep(s, offset, device, inode, s, false);
    assert CheckpointStep(s, offset, device, inode, s.(stored := f), false);
  }

  function CheckpointOf(f: Fields): (uint64, uint64, uint64) {
    (f.fileOffset, f.fileDeviceId, f.fileInode)
  }

  /** What the corrections are for: no recovered id comes again, and the checkpoint is this source's. */
  lemma RepairedMeans(f: Fields, source: Bytes, recovered: seq<LogMessage>)
    requires f.nextId >= 1 && MaxId(recovered) < MAX_UINT64
    ensures var g := Repaired(f, source, MaxId(recovered));
      && (forall i | 0 <= i < |recovered| :: recovered[i].id < g.nextId)
      && f.nextId <= g.nextId
      && (g.nextId == f.nextId || exists i | 0 <= i < |recovered| :: g.nextId == recovered[i].id + 1)
      && g.sourcePath == source && g.clientId == f.clientId
      && CheckpointOf(g) == if f.sourcePath != source then (0, 0, 0) else CheckpointOf(f)
  {
    MaxIdIsMaximum(recovered);
  }

  lemma Untouched(disk: Disk, path: Path)
    ensures SameExcept(disk.files, disk.files, {path, TemporaryFor(path)})
    ensures forall data: Bytes :: AllSince(disk.trail, |disk.trail|, disk.files, {path, TemporaryFor(path)}, path,
                     ReplaceOutcomes(disk.files, path, data))
  {
  }

  class ClientState {
    const disk: Disk
    const path: Path
    var clientId: Bytes
    var nextId: uint64
    var sourcePath: Bytes
    var fileOffset: uint64
    var fileDeviceId: uint64
    var fileInode: uint64
    ghost var stored: Fields

    constructor (disk: Disk, path: Path)
      ensures this.disk == disk && this.path == path
      ensures Memory() == Fields([], 1, [], 0, 0, 0)
    {
      this.disk, this.path := disk, path;
      clientId, nextId, sourcePath, fileOffset, fileDeviceId, fileInode := [], 1, [], 0, 0, 0;
    }

    function Memory(): Fields
      reads this
    {
      Fields(clientId, nextId, sourcePath, fileOffset, fileDeviceId, fileInode)
    }

    // A restart would load `stored`.
    ghost predicate Valid()
      reads this, disk
    {
      && path in disk.files && Parse(disk.files[path]) == Some(stored)
      && Printable(Memory())
    }

    ghost function Abs(): Ids
      reads this
    {
      Ids(Memory(), stored)
    }

    method Persist() returns (r: Result<(), StateError>)
      modifies disk, this`stored
      ensures r.Ok? ==> Lookup(disk.files, path) == Some(Render(Memory())) && stored == Memory()
      ensures r.Err? ==> r.error == IoFailure && disk.faulty
      ensures r.Err? ==>
                   || (Lookup(disk.files, path) == old(Lookup(disk.files, path)) && stored == old(stored))
                   || (Lookup(disk.files, path) == Some(Render(Memory())) && stored == Memory())
      ensures Printable(Memory()) && (r.Ok? || old(Valid())) ==> Valid()
      ensures SameExcept(disk.files, old(disk.files), {path, TemporaryFor(path)})
      ensures old(disk.trail) <= disk.trail
      ensures AllSince(disk.trail, |old(disk.trail)|, old(disk.files), {path, TemporaryFor(path)}, path,
                       ReplaceOutcomes(old(disk.files), path, Render(Memory())))
    {
      hide Render, Parse;
      StateRoundTrip(Memory());
      var text := Render(Memory());
      var written := WriteAtomically(disk, path, text);
      if Lookup(disk.files, path) != old(Lookup(disk.files, path)) || written.Ok? {
        stored := Memory();
      }
      if written.Err? {
        return Err(IoFailure);
      }
      return Ok(());
    }

    /** Reserves an id durably before anyone can use it. */
    method NextMessageId() returns (r: Result<uint64, StateError>)
      requires Valid()
      modifies this, disk
      ensures Valid()
      ensures NextIdStep(old(Abs()), if r.Ok? then r.value else 0, Abs(), r.Ok?)
      ensures r == Err(IdsExhausted) <==> old(nextId) == MAX_UINT64
      ensures r.Err? && r.error != IdsExhausted ==> r.error == IoFailure && disk.faulty
      ensures SameExcept(disk.files, old(disk.files), {path, TemporaryFor(path)})
      ensures old(disk.trail) <= disk.trail
      ensures forall i | |old(disk.trail)| <= i < |disk.trail| ::
                && SameExcept(disk.trail[i], old(disk.files), {path, TemporaryFor(path)})
                && CutNextId(disk.trail[i], path, old(Abs()))
    {
      hide Render, Parse, CutNextId;
      if nextId == MAX_UINT64 {
        return Err(IdsExhausted);
      }
      var reserved := nextId;
      ghost var before, s := disk.files, Abs();
      nextId := nextId + 1;
      var persisted := Persist();
      forall i | |old(disk.trail)| <= i < |disk.trail| ensures CutNextId(disk.trail[i], path, s) {
        PersistingLoads(disk.trail[i], before, path, s.stored, Memory());
        NextIdCut(disk.trail[i], path, s);
      }
      if persisted.Err? {
        nextId := reserved;
        return Err(persisted.error);
      }
      return Ok(reserved);
    }

    method UpdateFileCheckpoint(offset: uint64, device: uint64, inode: uint64) returns (r: Result<(), StateError>)
      requires Valid()
      modifies this, disk
      ensures Valid()
      ensures CheckpointStep(old(Abs()), offset, device, inode, Abs(), r.Ok?)
      ensures r.Err? ==> r.error == IoFailure && disk.faulty
      ensures SameExcept(disk.files, old(disk.files), {path, TemporaryFor(path)})
      ensures old(disk.trail) <= disk.trail
      ensures forall i | |old(disk.trail)| <= i < |disk.trail| ::
                && SameExcept(disk.trail[i], old(disk.files), {path, TemporaryFor(path)})
                && CutCheckpoint(disk.trail[i], path, old(Abs()), offset, device, inode)
    {
      hide Render, Parse, CutCheckpoint;
      if offset == fileOffset && device == fileDeviceId && inode == fileInode {
        return Ok(());
      }
      var previousOffset, previousDevice, previousInode := fileOffset, fileDeviceId, fileInode;
      ghost var before, s := disk.files, Abs();
      fileOffset, fileDeviceId, fileInode := offset, device, inode;
      r := Persist();
      forall i | |old(disk.trail)| <= i < |disk.trail|
        ensures CutCheckpoint(disk.trail[i], path, s, offset, device, inode)
      {
        PersistingLoads(disk.trail[i], before, path, s.stored, Memory());
        CheckpointCut(disk.trail[i], path, s, offset, device, inode);
      }
      if r.Err? {
        fileOffset, fileDeviceId, fileInode := previousOffset, previousDevice, previousInode;
      }
    }

    method Load() returns (r: Result<(), StateError>)
      modifies this
      ensures r.Ok? ==> Parse(ContentOf(disk.files, path)) == Some(Memory())
      ensures r == Err(InvalidState) ==> Parse(ContentOf(disk.files, path)) == None
      ensures r.Err? ==> r.error in {InvalidState, IoFailure} && (r.error == IoFailure ==> disk.faulty)
      ensures stored == old(stored)
    {
      hide Parse;
      var data := ReadFile(disk, path);
      if data.Err? {
        return Err(IoFailure);
      }
      match Parse(data.value)
      case None =>
        return Err(InvalidState);
      case Some(f) =>
        clientId, nextId, sourcePath := f.clientId, f.nextId, f.sourcePath;
        fileOffset, fileDeviceId, fileInode := f.fileOffset, f.fileDeviceId, f.fileInode;
        return Ok(());
    }

    // Every recovered message must be this client's; the result is the highest id among them.
    method CheckRecovered(recovered: seq<LogMessage>) returns (r: Result<uint64, StateError>)
      ensures r.Ok? <==>
                && (forall i | 0 <= i < |recovered| :: recovered[i].clientId == clientId)
                && MaxId(recovered) < MAX_UINT64
      ensures r.Ok? ==> r.value == MaxId(recovered)
      ensures r.Err? ==> r.error in {ClientMismatch, IdsExhausted}
      ensures r == Err(ClientMismatch) ==> exists i | 0 <= i < |recovered| :: recovered[i].clientId != clientId
      ensures r == Err(IdsExhausted) ==> exists i | 0 <= i < |recovered| :: recovered[i].id == MAX_UINT64
    {
      MaxIdIsMaximum(recovered);
      var maximum, index := 0, 0;
      while index < |recovered|
        invariant index <= |recovered| && maximum == MaxId(recovered[..index])
        invariant forall i | 0 <= i < index :: recovered[i].clientId == clientId
      {
        if recovered[index].clientId != clientId {
          return Err(ClientMismatch);
        }
        assert recovered[..index + 1][..index] == recovered[..index];
        if recovered[index].id > maximum {
          maximum := recovered[index].id;
        }
        index := index + 1;
      }
      assert recovered[..index] == recovered;
      if maximum == MAX_UINT64 {
        return Err(IdsExhausted);
      }
      return Ok(maximum);
    }

    // The state that the constructor starts from.
    ghost function Initial(recovered: seq<LogMessage>, generated: Bytes): Option<Fields>
      reads this, disk
    {
      if path in disk.files then Parse(disk.files[path])
      else Some(Fields(if recovered == [] then generated else recovered[0].clientId, 1, [], 0, 0, 0))
    }

    method LoadOrCreate(recovered: seq<LogMessage>, generated: Bytes) returns (r: Result<bool, StateError>)
      requires Memory() == Fields([], 1, [], 0, 0, 0)
      modifies this
      ensures r.Ok? ==> r.value == (path in disk.files) && Initial(recovered, generated) == Some(Memory())
      ensures r.Ok? ==> nextId >= 1
      ensures r.Ok? && r.value ==> stored == Memory()
      ensures r.Err? ==> r.error in {InvalidState, IoFailure} && (r.error == IoFailure ==> disk.faulty)
      ensures r == Err(InvalidState) ==> path in disk.files && Parse(disk.files[path]) == None
    {
      hide Parse;
      if path !in disk.files {
        clientId := if recovered == [] then generated else recovered[0].clientId;
        return Ok(false);
      }
      var _ :- Load();
      LoadedIsPrintable(disk.files[path]);
      stored := Memory();
      return Ok(true);
    }

    /**
     The constructor: what the file holds, or a fresh identity, corrected for this run.
     `generated` stands for the randomly generated client id.
     */
    method Open(source: Bytes, recovered: seq<LogMessage>, generated: Bytes) returns (r: Result<(), StateError>)
      requires Memory() == Fields([], 1, [], 0, 0, 0)
      modifies this, disk
      ensures r.Ok? ==>
                && MaxId(recovered) < MAX_UINT64
                && (forall i | 0 <= i < |recovered| :: recovered[i].clientId == clientId)
                && old(Initial(recovered, generated)).Some?
                && Memory() == Repaired(old(Initial(recovered, generated)).value, source, MaxId(recovered))
      // No id of the log can come again, and nothing else moves the counter.
      ensures r.Ok? ==>
                && (forall i | 0 <= i < |recovered| :: recovered[i].id < nextId)
                && old(Initial(recovered, generated)).value.nextId <= nextId
                && (|| nextId == old(Initial(recovered, generated)).value.nextId
                    || exists i | 0 <= i < |recovered| :: nextId == recovered[i].id + 1)
      // The checkpoint counts for the same source only.
      ensures r.Ok? ==>
                && sourcePath == source && clientId == old(Initial(recovered, generated)).value.clientId
                && (fileOffset, fileDeviceId, fileInode) ==
                   if old(Initial(recovered, generated)).value.sourcePath != source then (0, 0, 0)
                   else CheckpointOf(old(Initial(recovered, generated)).value)
      ensures r.Ok? && path !in old(disk.files) ==>
                clientId == if recovered == [] then generated else recovered[0].clientId
      ensures r.Ok? ==>
                || Lookup(disk.files, path) == Some(Render(Memory()))
                || (&& disk.files == old(disk.files) && path in disk.files
                    && Parse(disk.files[path]) == Some(Memory()))
      // Why it may refuse.
      ensures r == Err(InvalidArgument) <==> source == []
      ensures r == Err(InvalidState) ==> path in old(disk.files) && Parse(old(disk.files)[path]) == None
      ensures r == Err(IdsExhausted) ==> exists i | 0 <= i < |recovered| :: recovered[i].id == MAX_UINT64
      ensures r == Err(ClientMismatch) ==>
                && old(Initial(recovered, generated)).Some?
                && exists i | 0 <= i < |recovered| ::
                     recovered[i].clientId != old(Initial(recovered, generated)).value.clientId
      ensures r == Err(IoFailure) ==> disk.faulty
      ensures old(disk.trail) <= disk.trail
      ensures AllSince(disk.trail, |old(disk.trail)|, old(disk.files), {path, TemporaryFor(path)}, path,
                       ReplaceOutcomes(old(disk.files), path, Render(Memory())))
      ensures r.Ok? && Printable(Memory()) ==> Valid() && stored == Memory()
      ensures r.Err? && r.error != IoFailure ==> disk.files == old(disk.files)
      // A restart then finds the old state, or the corrected one.
      ensures r == Err(IoFailure) ==>
                || disk.files == old(disk.files)
                || (&& MaxId(recovered) < MAX_UINT64 && old(Initial(recovered, generated)).Some?
                    && Memory() == Repaired(old(Initial(recovered, generated)).value, source, MaxId(recovered))
                    && Lookup(disk.files, path) in {Lookup(old(disk.files), path), Some(Render(Memory()))}
                    && SameExcept(disk.files, old(disk.files), {path, TemporaryFor(path)}))
    {
      hide Parse, Render, MaxId, Printable, SameExcept, AllSince, Repaired;
      Untouched(disk, path);
      if source == [] {
        return Err(InvalidArgument);
      }
      var stateExists :- LoadOrCreate(recovered, generated);
      ghost var f := Memory();
      var changed :- Correct(source, recovered);
      RepairedMeans(f, source, recovered);
      if !stateExists || changed {
        r := Persist();
        return;
      }
      return Ok(());
    }

    // The corrections; whether they changed anything.
    method Correct(source: Bytes, recovered: seq<LogMessage>) returns (r: Result<bool, StateError>)
      modifies this
      ensures stored == old(stored)
      ensures r.Ok? ==>
                && (forall i | 0 <= i < |recovered| :: recovered[i].clientId == clientId)
                && MaxId(recovered) < MAX_UINT64
                && Memory() == Repaired(old(Memory()), source, MaxId(recovered))
                && (r.value <==> Memory() != old(Memory()))
      ensures r.Err? ==> r.error in {ClientMismatch, IdsExhausted}
      ensures r == Err(ClientMismatch) ==> exists i | 0 <= i < |recovered| :: recovered[i].clientId != old(clientId)
      ensures r == Err(IdsExhausted) ==> exists i | 0 <= i < |recovered| :: recovered[i].id == MAX_UINT64
    {
      hide MaxId;
      var changed := false;
      if sourcePath != source {
        sourcePath, fileOffset, fileDeviceId, fileInode := source, 0, 0, 0;
        changed := true;
      }
      var maximum :- CheckRecovered(recovered);
      if nextId <= maximum {
        nextId := maximum + 1;
        changed := true;
      }
      return Ok(changed);
    }
  }
}
