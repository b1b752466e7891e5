/** Reading a growing log file line by line, across short reads, restarts, truncation and rotation. */
module FileTailReader {
  import opened Words
  import opened Lines

  datatype FileId = FileId(device: uint64, inode: uint64)

  datatype ReaderError = CannotOpen | CannotInspect | CannotRead

  /**
   The files that exist, and the one the watched path names at the moment. `cutting` says whether
   another process may be shortening files in the middle of a call, `faulty` whether calls may fail.
   */
  class FileSystem {
    var current: Option<FileId>
    var contents: map<FileId, Bytes>
    var cutting: bool
    const faulty: bool

    constructor (current: Option<FileId>, contents: map<FileId, Bytes>, cutting: bool, faulty: bool)
      ensures this.current == current && this.contents == contents
      ensures this.cutting == cutting && this.faulty == faulty
    {
      this.current, this.contents, this.cutting, this.faulty := current, contents, cutting, faulty;
    }

    // Whether the next call fails.
    method Refuses() returns (fails: bool)
      ensures fails ==> faulty
    {
      fails := *;
      fails := fails && faulty;
    }

    // pread(): at least one byte, unless the file has been cut since its size was read.
    method Pread(file: FileId, at: nat, count: nat) returns (r: Result<Bytes, ReaderError>)
      requires file in contents && 0 < count && at + count <= |contents[file]|
      ensures r.Ok? ==> |r.value| <= count && r.value == contents[file][at..at + |r.value|]
      ensures r.Ok? && !cutting ==> r.value != []
      ensures r.Err? ==> r.error == CannotRead && faulty
    {
      var fails := Refuses();
      if fails {
        return Err(CannotRead);
      }
      var n: nat :| n <= count && (n > 0 || cutting);
      return Ok(contents[file][at..at + n]);
    }

    ghost predicate Valid()
      reads this
    {
      current.Some? ==> current.value in contents
    }
  }

  /** How far a reader has got in its file: bytes read, and those that form no complete line yet. */
  datatype Progress = Progress(offset: nat, pending: Bytes) {
    function Committed(): int {
      offset - |pending|
    }

    // A file that has become shorter is read again from its beginning.
    function Rewound(size: nat): Progress {
      if size < offset then Progress(0, []) else this
    }

    function Unread(content: Bytes, end: nat): Bytes
      requires offset <= end <= |content|
    {
      pending + content[offset..end]
    }

    function LinesTo(content: Bytes, end: nat): seq<Bytes>
      requires offset <= end <= |content|
    {
      CompleteLines(Unread(content, end))
    }

    function AdvancedTo(content: Bytes, end: nat): Progress
      requires offset <= end <= |content|
    {
      Progress(end, Remainder(Unread(content, end)))
    }

    ghost predicate Valid() {
      |pending| <= offset && NEWLINE !in pending
    }

    /** The pending bytes are those of the file just before the offset. */
    ghost predicate Follows(content: Bytes) {
      Valid() && offset <= |content| && pending == content[offset - |pending|..offset]
    }
  }

  /** A reader as its caller sees it; `switching` means that its file has been replaced and drained. */
  datatype Reader = Reader(identity: FileId, progress: Progress, switching: bool)

  // All lines of a file that is read no further, its unterminated tail included.
  function AllLines(s: Bytes): seq<Bytes> {
    CompleteLines(s) + if Remainder(s) == [] then [] else [Remainder(s)]
  }

  /** The tail of a file that is read no further is a line of its own, as it is; without one there is no such line. */
  lemma TailIsALine(s: Bytes, x: Bytes)
    requires Remainder(s) == [] && NEWLINE !in x
    ensures AllLines(s) == CompleteLines(s)
    ensures x != [] ==> AllLines(s + x) == CompleteLines(s) + [x]
  {
    hide CompleteLines, Remainder;
    SplitInPortions(s, x);
    assert [] + x == x;
    NoLine(x);
    assert CompleteLines(s) + [] == CompleteLines(s);
  }

  /**
   What a successful round returns. Same file: the lines that have become complete. The path
   names another file: the rest of the old one, with its unterminated tail as a line. The round
   after that: the new file from its first byte. Each reads to the end of the file, unless another
   process is cutting it.
   */
  ghost predicate Polled(r: Reader, r': Reader, current: Option<FileId>, contents: map<FileId, Bytes>,
                         cutting: bool, lines: seq<Bytes>)
  {
    && r'.identity in contents && r'.progress.offset <= |contents[r'.identity]|
    && (cutting || r'.progress.offset == |contents[r'.identity]|)
    && var content, end := contents[r'.identity], r'.progress.offset;
      if r.switching then
        && !r'.switching && current == Some(r'.identity)
        && lines == CompleteLines(content[..end]) && r'.progress.pending == Remainder(content[..end])
      else
        var before := r.progress.Rewound(|content|);
        && r'.identity == r.identity && before.offset <= end
        && if r'.switching then
             && current.Some? && current.value != r.identity && r'.progress.pending == []
             && lines == AllLines(before.Unread(content, end))
           else
             && (current.Some? ==> current.value == r.identity)
             && lines == before.LinesTo(content, end) && r'.progress == before.AdvancedTo(content, end)
  }

  // A failed switch is tried again, unless it got as far as opening the new file.
  ghost predicate PollFailed(r: Reader, r': Reader, current: Option<FileId>, contents: map<FileId, Bytes>) {
    if r.switching then
      r' == r || (current.Some? && r' == Reader(current.value, Progress(0, []), false))
    else
      r' == r || (r.identity in contents && r' == r.(progress := r.progress.Rewound(|contents[r.identity]|)))
  }

  // What reading the open file once does to the progress in it.
  ghost predicate ReadOnce(p: Progress, p': Progress, content: Bytes, cutting: bool, lines: seq<Bytes>) {
    var before := p.Rewound(|content|);
    && before.offset <= p'.offset <= |content| && (cutting || p'.offset == |content|)
    && lines == before.LinesTo(content, p'.offset) && p' == before.AdvancedTo(content, p'.offset)
  }

  lemma ReadOnIsPolled(r: Reader, p': Progress, current: Option<FileId>, contents: map<FileId, Bytes>,
                       cutting: bool, lines: seq<Bytes>)
    requires !r.switching && r.identity in contents && (current.Some? ==> current.value == r.identity)
    requires ReadOnce(r.progress, p', contents[r.identity], cutting, lines)
    ensures Polled(r, r.(progress := p'), current, contents, cutting, lines)
  {
    hide CompleteLines, Remainder;
  }

  lemma DrainedIsPolled(r: Reader, p': Progress, current: Option<FileId>, contents: map<FileId, Bytes>,
                        cutting: bool, lines: seq<Bytes>)
    requires !r.switching && r.identity in contents && current.Some? && current.value != r.identity
    requires ReadOnce(r.progress, p', contents[r.identity], cutting, lines)
    ensures var all := if p'.pending == [] then lines else lines + [p'.pending];
      Polled(r, Reader(r.identity, Progress(p'.offset, []), true), current, contents, cutting, all)
  {
    hide CompleteLines, Remainder;
  }

  lemma OpenedIsPolled(r: Reader, r': Reader, current: Option<FileId>, contents: map<FileId, Bytes>,
                       cutting: bool, lines: seq<Bytes>)
    requires r.switching && !r'.switching && current == Some(r'.identity) && r'.identity in contents
    requires ReadOnce(Progress(0, []), r'.progress, contents[r'.identity], cutting, lines)
    ensures Polled(r, r', current, contents, cutting, lines)
  {
    hide CompleteLines, Remainder;
    var content, end := contents[r'.identity], r'.progress.offset;
    assert [] + content[0..end] == content[..end];
  }

  lemma NothingNew(p: Progress, content: Bytes)
    requires p.Valid() && p.offset == |content|
    ensures p.LinesTo(content, p.offset) == [] && p.AdvancedTo(content, p.offset) == p
  {
    hide CompleteLines, Remainder;
    assert content[p.offset..p.offset] == [];
    assert p.pending + [] == p.pending;
    NoLine(p.pending);
  }

  // All of a file, read from its first byte.
  lemma ReadAnew(content: Bytes)
    ensures Progress(0, []).LinesTo(content, |content|) == CompleteLines(content)
    ensures Progress(0, []).AdvancedTo(content, |content|) == Progress(|content|, Remainder(content))
  {
    assert [] + content[0..|content|] == content;
  }

  class FileTailReader {
    const fs: FileSystem
    var file: Option<FileId>  // the open descriptor
    var progress: Progress
    var identity: FileId
    var switchOnNextRead: bool

    constructor (fs: FileSystem)
      ensures this.fs == fs && file == None && progress == Progress(0, []) && !switchOnNextRead
      ensures Valid()
    {
      this.fs, file, progress, switchOnNextRead := fs, None, Progress(0, []), false;
    }

    ghost predicate Valid()
      reads this
    {
      && progress.Valid()
      && (file.Some? ==> file.value == identity)
    }

    ghost function Abs(): Reader
      reads this
    {
      Reader(identity, progress, switchOnNextRead)
    }

    function CommittedOffset(): (n: nat)
      reads this
      requires Valid()
    {
      progress.Committed()
    }

    /** Opens the file the path names now; a checkpoint of another file counts for nothing. */
    method OpenCurrentFile(initialOffset: uint64, expectedDevice: uint64, expectedInode: uint64)
      returns (r: Result<(), ReaderError>)
      requires fs.Valid()
      modifies this`file, this`progress, this`identity
      ensures r.Ok? ==>
                && fs.current == file == Some(identity)
                && var matches :=
                     expectedDevice == 0 || expectedInode == 0 || identity == FileId(expectedDevice, expectedInode);
                  var fits := initialOffset <= |fs.contents[identity]|;
                  progress == Progress(if matches && fits then initialOffset else 0, [])
      ensures r.Ok? ==> Valid()
      ensures r.Err? ==> file == None && progress == old(progress) && identity == old(identity)
      ensures r.Err? ==> fs.current.None? || fs.faulty
    {
      file := None;
      var openFails := fs.Refuses();
      if fs.current.None? || openFails {
        return Err(CannotOpen);
      }
      var inspectFails := fs.Refuses();
      if inspectFails {
        return Err(CannotInspect);
      }
      file := fs.current;
      identity := file.value;
      var identityMatches := expectedDevice == 0 || expectedInode == 0 ||
        (expectedDevice == identity.device && expectedInode == identity.inode);
      var offset := if identityMatches then initialOffset else 0;
      if offset > |fs.contents[identity]| {
        offset := 0;
      }
      progress := Progress(offset, []);
      return Ok(());
    }

    // Reads what the file has grown by, in portions of any size, and splits off the complete lines.
    method ReadFromOpenFile() returns (r: Result<seq<Bytes>, ReaderError>)
      requires Valid() && (file.Some? ==> file.value in fs.contents)
      modifies this`progress
      ensures Valid()
      ensures r.Ok? ==>
                && file.Some?
                && ReadOnce(old(progress), progress, fs.contents[file.value], fs.cutting, r.value)
      ensures r.Err? && file.Some? ==> progress in {old(progress), old(progress).Rewound(|fs.contents[file.value]|)}
      ensures r.Err? && file.None? ==> progress == old(progress)
      ensures r.Err? ==> file.None? || fs.faulty
      // A file that has become shorter is read anew, all of it.
      ensures r.Ok? && |fs.contents[file.value]| < old(progress.offset) && !fs.cutting ==>
                && r.value == CompleteLines(fs.contents[file.value])
                && progress == Progress(|fs.contents[file.value]|, Remainder(fs.contents[file.value]))
    {
      hide CompleteLines, Remainder;
      var inspectFails := fs.Refuses();
      if file.None? || inspectFails {
        return Err(CannotInspect);
      }
      var content := fs.contents[file.value];
      ReadAnew(content);
      if |content| < progress.offset {
        progress := Progress(0, []);
      }
      if |content| == progress.offset {
        NothingNew(progress, content);
        return Ok([]);
      }
      ghost var before := progress;
      var chunk :- ReadChunk(file.value, progress.offset);
      var text := progress.pending + chunk;
      assert text == before.Unread(content, before.offset + |chunk|);
      var lines, lineStart := SplitLines(text);
      progress := Progress(progress.offset + |chunk|, text[lineStart..]);
      return Ok(lines);
    }

    // The pread loop, up to the size seen before it. A read of zero bytes means that the file has been cut.
    method ReadChunk(id: FileId, offset: nat) returns (r: Result<Bytes, ReaderError>)
      requires id in fs.contents && offset < |fs.contents[id]|
      ensures r.Ok? ==> offset + |r.value| <= |fs.contents[id]|
      ensures r.Ok? ==> r.value == fs.contents[id][offset..offset + |r.value|]
      ensures r.Ok? && !fs.cutting ==> offset + |r.value| == |fs.contents[id]|
      ensures r.Err? ==> r.error == CannotRead && fs.faulty
    {
      var size := |fs.contents[id]|;
      var chunk: Bytes := [];
      while offset + |chunk| < size
        invariant offset + |chunk| <= size
        invariant chunk == fs.contents[id][offset..offset + |chunk|]
        decreases size - offset - |chunk|
      {
        var more :- fs.Pread(id, offset + |chunk|, size - offset - |chunk|);
        if more == [] {
          break;
        }
        chunk := chunk + more;
      }
      return Ok(chunk);
    }

    static method SplitLines(text: Bytes) returns (lines: seq<Bytes>, lineStart: nat)
      ensures lines == CompleteLines(text)
      ensures lineStart <= |text| && text[lineStart..] == Remainder(text)
      ensures IsSplit(text, lines, text[lineStart..])
    {
      hide CompleteLines, Remainder, NewlineIndex;
      lines, lineStart := [], 0;
      assert text[0..] == text;
      while true
        invariant lineStart <= |text|
        invariant CompleteLines(text) == lines + CompleteLines(text[lineStart..])
        invariant Remainder(text) == Remainder(text[lineStart..])
        decreases |text| - lineStart
      {
        var newline := lineStart + NewlineIndex(text[lineStart..]);
        if newline == |text| {
          NoLine(text[lineStart..]);
          SplitIsExact(text, lines, text[lineStart..]);
          break;
        }
        FirstLine(text[lineStart..], newline - lineStart);
        var line := text[lineStart..newline];
        if line != [] && line[|line| - 1] == CARRIAGE_RETURN {
          line := line[..|line| - 1];
        }
        assert text[lineStart..][..newline - lineStart] == text[lineStart..newline];
        assert text[lineStart..][newline - lineStart + 1..] == text[newline + 1..];
        lines := lines + [line];
        lineStart := newline + 1;
      }
    }

    /** One polling round of the client. */
    method ReadNewLines() returns (r: Result<seq<Bytes>, ReaderError>)
      requires Valid() && fs.Valid() && (file.Some? ==> file.value in fs.contents)
      modifies this
      ensures Valid()
      ensures r.Ok? ==>
                && file == Some(identity)
                && Polled(old(Abs()), Abs(), fs.current, fs.contents, fs.cutting, r.value)
      ensures r.Ok? && !old(switchOnNextRead) ==> file == old(file)
      ensures r.Ok? ==> (switchOnNextRead <==>
                !old(switchOnNextRead) && fs.current.Some? && fs.current.value != old(identity))
      ensures r.Err? ==> PollFailed(old(Abs()), Abs(), fs.current, fs.contents)
      ensures r.Err? ==>
                file == if switchOnNextRead then None else if old(switchOnNextRead) then fs.current else old(file)
      ensures r.Err? ==> fs.faulty || old(file.None?) || (old(switchOnNextRead) && fs.current.None?)
    {
      hide CompleteLines, Remainder, Polled;
      ghost var before := Abs();
      if switchOnNextRead {
        file := None;
        var _ :- OpenCurrentFile(0, 0, 0);
        switchOnNextRead := false;
        r := ReadFromOpenFile();
        if r.Ok? {
          OpenedIsPolled(before, Abs(), fs.current, fs.contents, fs.cutting, r.value);
        }
        return;
      }
      var inspectFails := fs.Refuses();
      if fs.current.Some? {
        if inspectFails {
          return Err(CannotInspect);
        }
        if fs.current.value != identity {
          var lines :- ReadFromOpenFile();
          DrainedIsPolled(before, progress, fs.current, fs.contents, fs.cutting, lines);
          if progress.pending != [] {
            lines := lines + [progress.pending];
            progress := progress.(pending := []);
          }
          switchOnNextRead := true;
          return Ok(lines);
        }
      }
      r := ReadFromOpenFile();
      if r.Ok? {
        ReadOnIsPolled(before, progress, fs.current, fs.contents, fs.cutting, r.value);
      }
    }
  }

  // ---------- Any interleaving of writes, reads and restarts ----------

  datatype Event = Grow(more: Bytes) | Read(end: nat) | Restart

  /** A file that is only appended to, a reader of it, and every line the reader has returned. */
  datatype Tail = Tail(content: Bytes, progress: Progress, emitted: seq<Bytes>)

  ghost predicate Step(t: Tail, e: Event, t': Tail) {
    match e
    case Grow(more) => t' == t.(content := t.content + more)
    case Read(end) =>
      && t.progress.offset <= end <= |t.content|
      && t' == t.(progress := t.progress.AdvancedTo(t.content, end),
                  emitted := t.emitted + t.progress.LinesTo(t.content, end))
    case Restart =>
      t.progress.Valid() && t' == t.(progress := Progress(t.progress.Committed(), []))
  }

  ghost predicate Run(ts: seq<Tail>, es: seq<Event>, start: nat) {
    && |ts| == |es| + 1 && start <= |ts[0].content|
    && ts[0].progress == Progress(start, []) && ts[0].emitted == []
    && forall i | 0 <= i < |es| :: Step(ts[i], es[i], ts[i + 1])
  }

  ghost predicate Inv(t: Tail, start: nat) {
    && t.progress.Follows(t.content)
    && start <= t.progress.Committed()
    && t.emitted == CompleteLines(t.content[start..t.progress.Committed()])
    && Remainder(t.content[start..t.progress.Committed()]) == []
  }

  lemma GrowKeeps(t: Tail, start: nat, more: Bytes)
    requires Inv(t, start)
    ensures Inv(t.(content := t.content + more), start)
  {
    hide CompleteLines, Remainder;
    var content := t.content + more;
    var c, o := t.progress.Committed(), t.progress.offset;
    assert content[start..c] == t.content[start..c] && content[c..o] == t.content[c..o];
  }

  lemma ReadKeeps(t: Tail, start: nat, end: nat)
    requires Inv(t, start) && t.progress.offset <= end <= |t.content|
    ensures Inv(t.(progress := t.progress.AdvancedTo(t.content, end),
                   emitted := t.emitted + t.progress.LinesTo(t.content, end)), start)
  {
    hide CompleteLines, Remainder;
    var content, c, o := t.content, t.progress.Committed(), t.progress.offset;
    var done, unread, all := content[start..c], content[c..end], content[start..end];
    Join(content, c, o, end);
    Join(content, start, c, end);
    assert [] + unread == unread;
    SplitInPortions(done, unread);
    CutRemainder(all);
    RemainderIsSuffix(all);
    var k := |all| - |Remainder(unread)|;
    SubSlice(content, start, end, 0, k);
    SubSlice(content, start, end, k, |all|);
  }

  lemma RestartKeeps(t: Tail, start: nat)
    requires Inv(t, start)
    ensures Inv(t.(progress := Progress(t.progress.Committed(), [])), start)
  {
    hide CompleteLines, Remainder;
    NoLine([]);
  }

  /**
   The lines returned so far are the line split of the file up to the checkpoint, and the
   pending bytes are the unfinished line behind it.
   */
  lemma {:induction false} RunKeeps(ts: seq<Tail>, es: seq<Event>, start: nat, n: nat)
    requires Run(ts, es, start) && n < |ts|
    ensures Inv(ts[n], start)
  {
    if n == 0 {
      NoLine([]);
    } else {
      RunKeeps(ts, es, start, n - 1);
      hide Inv;
      assert Step(ts[n - 1], es[n - 1], ts[n]);
      match es[n - 1]
      case Grow(more) => GrowKeeps(ts[n - 1], start, more);
      case Read(end) => ReadKeeps(ts[n - 1], start, end);
      case Restart =>
        RestartKeeps(ts[n - 1], start);
    }
  }

  /** A reader restarted at the checkpoint returns the same lines as one that kept running. */
  lemma RestartIsInvisible(p: Progress, content: Bytes, end: nat)
    requires p.Follows(content) && p.offset <= end <= |content|
    ensures var restarted := Progress(p.Committed(), []);
      && restarted.LinesTo(content, end) == p.LinesTo(content, end)
      && restarted.AdvancedTo(content, end) == p.AdvancedTo(content, end)
  {
    hide CompleteLines, Remainder;
    var c := p.Committed();
    assert [] + content[c..end] == content[c..p.offset] + content[p.offset..end];
  }
}
