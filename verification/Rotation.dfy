/**
 The tail reader over whole runs in which any number of files grow, the watched path comes to name
 other files, rounds fail, checkpoints are saved, and the client crashes and restarts at the saved one.
 */
module Rotation {
  import opened Words
  import opened Lines
  import opened R = FileTailReader

  /**
   A stretch of one file that the reader is done with, and the lines it has returned from it.
   `drained` is the size of the file when the reader, having noticed a replacement, read it last.
   */
  datatype Segment = Segment(file: FileId, start: nat, end: nat, lines: seq<Bytes>, drained: Option<nat>)

  datatype Checkpoint = Checkpoint(file: FileId, offset: nat)

  /**
   `start`, `emitted` and, once the file is drained, `seen` belong to the stretch of the reader's
   file that is being read now. `again` are the lines of this stretch returned since the checkpoint
   on disk was saved, unless that is the checkpoint of an earlier stretch.
   */
  datatype World = World(
    current: Option<FileId>, contents: map<FileId, Bytes>, reader: Reader,
    start: nat, emitted: seq<Bytes>, seen: nat, finished: seq<Segment>,
    saved: Checkpoint, again: Option<seq<Bytes>>)

  datatype Event =
    | Grow(file: FileId, more: Bytes)
    | Create(file: FileId, content: Bytes)
    | Point(to: Option<FileId>)
    | Poll(lines: seq<Bytes>)
    | PollFails
    | Save
    | Restart

  predicate IsReal(file: FileId) {
    file.device != 0 && file.inode != 0
  }

  // What has been read of the file so far, as far as it forms the emitted lines.
  function Closed(w: World, drained: Option<nat>): Segment
    requires 0 <= w.reader.progress.Committed()
  {
    Segment(w.reader.identity, w.start, w.reader.progress.Committed(), w.emitted, drained)
  }

  function Plus(again: Option<seq<Bytes>>, lines: seq<Bytes>): Option<seq<Bytes>> {
    if again.Some? then Some(again.value + lines) else None
  }

  ghost predicate ReaderStep(w: World, r: Reader, lines: seq<Bytes>, w': World) {
    if w.reader.switching && !r.switching then
      && 0 <= w.reader.progress.Committed()
      && w' == w.(reader := r, start := 0, emitted := lines, again := None,
                  finished := w.finished + [Closed(w, Some(w.seen))])
    else
      && r.identity in w.contents
      && w' == w.(reader := r, emitted := w.emitted + lines, again := Plus(w.again, lines),
                  seen := if r.switching && !w.reader.switching then |w.contents[r.identity]| else w.seen)
  }

  // Where a client that starts again opens the file the path names.
  function ResumeAt(saved: Checkpoint, file: FileId, size: nat): nat {
    if (saved.file.device == 0 || saved.file.inode == 0 || saved.file == file) && saved.offset <= size
    then saved.offset else 0
  }

  ghost predicate Step(w: World, e: Event, w': World) {
    match e
    case Grow(file, more) => file in w.contents && w' == w.(contents := w.contents[file := w.contents[file] + more])
    case Create(file, content) =>
      file !in w.contents && IsReal(file) && w' == w.(contents := w.contents[file := content])
    case Point(to) => (to.Some? ==> to.value in w.contents) && w' == w.(current := to)
    case Poll(lines) =>
      Polled(w.reader, w'.reader, w.current, w.contents, false, lines) && ReaderStep(w, w'.reader, lines, w')
    case PollFails =>
      PollFailed(w.reader, w'.reader, w.current, w.contents) && ReaderStep(w, w'.reader, [], w')
    case Save =>
      && 0 <= w.reader.progress.Committed()
      && w' == w.(saved := Checkpoint(w.reader.identity, w.reader.progress.Committed()), again := Some([]))
    case Restart =>
      && w.current.Some? && w.current.value in w.contents && 0 <= w.reader.progress.Committed()
      && var file := w.current.value;
        var offset := ResumeAt(w.saved, file, |w.contents[file]|);
        w' == w.(reader := Reader(file, Progress(offset, []), false), start := offset, emitted := [],
                 again := if file == w.saved.file then Some([]) else None,
                 finished := w.finished + [Closed(w, None)])
  }

  ghost predicate Init(w: World) {
    && w.current == Some(w.reader.identity) && w.reader.identity in w.contents
    && (forall f | f in w.contents :: IsReal(f))
    && w.start <= |w.contents[w.reader.identity]|
    && w.reader.progress == Progress(w.start, []) && !w.reader.switching
    && w.emitted == [] && w.finished == []
    && w.saved == Checkpoint(w.reader.identity, w.start) && w.again == Some([])
  }

  // ---------- The invariant ----------

  /**
   The lines of a finished stretch are all lines of those bytes of that one file. If the file was
   replaced, they reach to its end as it was when the reader read it last.
   */
  ghost predicate Exact(s: Segment, contents: map<FileId, Bytes>) {
    && s.file in contents && s.start <= s.end <= |contents[s.file]|
    && s.lines == AllLines(contents[s.file][s.start..s.end])
    && (s.drained.Some? ==> s.drained.value == s.end)
  }

  // `lines` are what the reader has returned of its file from `start` on.
  ghost predicate Returned(w: World, start: nat, lines: seq<Bytes>)
    requires w.reader.identity in w.contents
  {
    var content := w.contents[w.reader.identity];
    && w.reader.progress.Follows(content) && start <= w.reader.progress.Committed()
    && if w.reader.switching then
         && w.reader.progress.pending == [] && w.reader.progress.offset == w.seen
         && lines == AllLines(content[start..w.seen])
       else
         R.Inv(Tail(content, w.reader.progress, lines), start)
  }

  /**
   The committed offset counts bytes of the file that the reader names, its pending bytes are the
   bytes of that file behind the offset, and the emitted lines are the line split up to it.
   */
  ghost predicate ReadingInv(w: World) {
    w.reader.identity in w.contents && Returned(w, w.start, w.emitted)
  }

  ghost predicate SavedInv(w: World)
    requires w.reader.identity in w.contents
  {
    && w.saved.file in w.contents && w.saved.offset <= |w.contents[w.saved.file]|
    && (w.again.Some? ==>
          && w.saved.file == w.reader.identity && w.start <= w.saved.offset
          && Returned(w, w.saved.offset, w.again.value)
          && (!w.reader.switching ==> Remainder(w.contents[w.saved.file][w.start..w.saved.offset]) == []))
  }

  ghost predicate Covers(s: Segment, file: FileId, offset: nat) {
    s.file == file && s.start <= offset <= s.end
  }

  // One of the first `n` stretches has come to this place.
  ghost predicate Reached(ss: seq<Segment>, n: nat, file: FileId, offset: nat) {
    exists j | 0 <= j < n && j < |ss| :: Covers(ss[j], file, offset)
  }

  /** Every stretch but the first starts a file at its beginning, or where an earlier stretch of it had come. */
  ghost predicate NoGaps(ss: seq<Segment>) {
    forall i | 0 < i < |ss| :: ss[i].start == 0 || Reached(ss, i, ss[i].file, ss[i].start)
  }

  function Stretches(w: World): seq<Segment>
    requires 0 <= w.reader.progress.Committed()
  {
    w.finished + [Closed(w, None)]
  }

  ghost predicate GapInv(w: World) {
    && 0 <= w.reader.progress.Committed()
    && NoGaps(Stretches(w))
    && Reached(Stretches(w), |w.finished| + 1, w.saved.file, w.saved.offset)
  }

  ghost predicate Inv(w: World) {
    && (w.current.Some? ==> w.current.value in w.contents)
    && (forall f | f in w.contents :: IsReal(f))
    && ReadingInv(w) && SavedInv(w) && GapInv(w)
    && forall s | s in w.finished :: Exact(s, w.contents)
  }

  // ---------- What has been returned ----------

  lemma AllOfComplete(s: Bytes)
    requires Remainder(s) == []
    ensures AllLines(s) == CompleteLines(s)
  {
  }

  lemma ClosedIsExact(w: World)
    requires ReadingInv(w)
    ensures Exact(Closed(w, None), w.contents)
    ensures w.reader.switching ==> Exact(Closed(w, Some(w.seen)), w.contents)
  {
    hide CompleteLines, Remainder, AllLines;
    if !w.reader.switching {
      AllOfComplete(w.contents[w.reader.identity][w.start..w.reader.progress.Committed()]);
    }
  }

  lemma ExactGrows(s: Segment, contents: map<FileId, Bytes>, file: FileId, more: Bytes)
    requires Exact(s, contents) && file in contents
    ensures Exact(s, contents[file := contents[file] + more])
  {
    hide AllLines;
    if s.file == file {
      assert (contents[file] + more)[s.start..s.end] == contents[file][s.start..s.end];
    }
  }

  lemma ReturnedGrows(w: World, start: nat, lines: seq<Bytes>, file: FileId, more: Bytes)
    requires w.reader.identity in w.contents && Returned(w, start, lines) && file in w.contents
    ensures Returned(w.(contents := w.contents[file := w.contents[file] + more]), start, lines)
  {
    hide CompleteLines, Remainder, AllLines, R.Inv;
    if file == w.reader.identity {
      var content, p := w.contents[file], w.reader.progress;
      assert (content + more)[p.Committed()..p.offset] == content[p.Committed()..p.offset];
      if w.reader.switching {
        assert (content + more)[start..p.offset] == content[start..p.offset];
      } else {
        R.GrowKeeps(Tail(content, p, lines), start, more);
      }
    }
  }

  /** The drain returns everything of the old file that the reader had not returned yet, and its tail. */
  lemma DrainedIsAll(content: Bytes, start: nat, c: nat, o: nat, emitted: seq<Bytes>, pending: Bytes)
    requires start <= c <= o <= |content| && pending == content[c..o]
    requires emitted == CompleteLines(content[start..c]) && Remainder(content[start..c]) == []
    ensures emitted + AllLines(pending + content[o..]) == AllLines(content[start..])
  {
    hide CompleteLines, Remainder;
    var end := |content|;
    var done, unread := content[start..c], content[c..end];
    Join(content, c, o, end);
    Join(content, start, c, end);
    assert content[o..end] == content[o..] && content[start..end] == content[start..];
    assert [] + unread == unread;
    SplitInPortions(done, unread);
  }

  // A round on the same file extends what has been returned from any place on.
  lemma RoundReturns(w: World, lines: seq<Bytes>, w': World, start: nat, before: seq<Bytes>)
    requires w.reader.identity in w.contents && !w.reader.switching && Returned(w, start, before)
    requires Step(w, Poll(lines), w')
    ensures Returned(w', start, before + lines)
    ensures w'.reader.progress.Committed() >= w.reader.progress.Committed()
  {
    hide CompleteLines, Remainder, AllLines;
    var content, p, end := w.contents[w.reader.identity], w.reader.progress, w'.reader.progress.offset;
    assert p.Rewound(|content|) == p;
    RemainderIsSuffix(p.Unread(content, end));
    if w'.reader.switching {
      DrainedIsAll(content, start, p.Committed(), p.offset, before, p.pending);
      assert content[p.offset..end] == content[p.offset..] && content[start..end] == content[start..];
      assert content[end..end] == [];
    } else {
      R.ReadKeeps(Tail(content, p, before), start, end);
    }
  }

  // The first round on a file begins at its first byte.
  lemma FreshFile(contents: map<FileId, Bytes>, r: Reader, lines: seq<Bytes>)
    requires r.identity in contents && r.progress.offset <= |contents[r.identity]| && !r.switching
    requires lines == CompleteLines(contents[r.identity][..r.progress.offset])
    requires r.progress.pending == Remainder(contents[r.identity][..r.progress.offset])
    ensures r.progress.Follows(contents[r.identity])
    ensures R.Inv(Tail(contents[r.identity], r.progress, lines), 0)
  {
    hide CompleteLines, Remainder;
    var content, end := contents[r.identity], r.progress.offset;
    assert content[0..0] == [] && [] + content[0..end] == content[..end];
    NoLine([]);
    var t := Tail(content, Progress(0, []), []);
    R.ReadKeeps(t, 0, end);
    assert t.emitted + lines == lines;
  }

  lemma NothingReturned(w: World)
    requires w.reader.identity in w.contents && !w.reader.switching
    requires w.reader.progress.pending == [] && w.reader.progress.offset <= |w.contents[w.reader.identity]|
    ensures Returned(w, w.reader.progress.offset, [])
  {
    hide CompleteLines, Remainder;
    NoLine([]);
  }

  // ---------- No gaps ----------

  // The last stretch has got longer.
  ghost predicate Longer(ss: seq<Segment>, ss': seq<Segment>) {
    && |ss'| == |ss| > 0 && ss'[..|ss| - 1] == ss[..|ss| - 1]
    && ss'[|ss| - 1].file == ss[|ss| - 1].file && ss'[|ss| - 1].start == ss[|ss| - 1].start
    && ss'[|ss| - 1].end >= ss[|ss| - 1].end
  }

  lemma ReachedStays(ss: seq<Segment>, ss': seq<Segment>, n: nat, file: FileId, offset: nat)
    requires Longer(ss, ss') && Reached(ss, n, file, offset)
    ensures Reached(ss', n, file, offset)
  {
    var j :| 0 <= j < n && j < |ss| && Covers(ss[j], file, offset);
    if j < |ss| - 1 {
      assert ss'[j] == ss'[..|ss| - 1][j] == ss[..|ss| - 1][j] == ss[j];
    }
    assert Covers(ss'[j], file, offset);
  }

  lemma LongerKeeps(ss: seq<Segment>, ss': seq<Segment>)
    requires Longer(ss, ss') && NoGaps(ss)
    ensures NoGaps(ss')
  {
    hide Reached, Covers;
    forall i | 0 < i < |ss'| ensures ss'[i].start == 0 || Reached(ss', i, ss'[i].file, ss'[i].start) {
      if i < |ss| - 1 {
        assert ss'[i] == ss'[..|ss| - 1][i] == ss[..|ss| - 1][i] == ss[i];
      }
      if ss[i].start != 0 {
        ReachedStays(ss, ss', i, ss[i].file, ss[i].start);
      }
    }
  }

  lemma NextStretchKeeps(ss: seq<Segment>, last: Segment, next: Segment)
    requires NoGaps(ss) && |ss| > 0 && last == ss[|ss| - 1].(drained := last.drained)
    requires next.start == 0 || Reached(ss, |ss|, next.file, next.start)
    ensures NoGaps(ss[..|ss| - 1] + [last] + [next])
    ensures forall file, offset | Reached(ss, |ss|, file, offset) ::
              Reached(ss[..|ss| - 1] + [last] + [next], |ss| + 1, file, offset)
  {
    var closed := ss[..|ss| - 1] + [last];
    var ss' := closed + [next];
    assert Longer(ss, closed);
    LongerKeeps(ss, closed);
    forall n: nat, file, offset | n <= |ss| && Reached(ss, n, file, offset) ensures Reached(ss', n, file, offset) {
      ReachedStays(ss, closed, n, file, offset);
      var j :| 0 <= j < n && j < |closed| && Covers(closed[j], file, offset);
      assert Covers(ss'[j], file, offset);
    }
    hide Reached, Covers;
    forall i | 0 < i < |ss'| ensures ss'[i].start == 0 || Reached(ss', i, ss'[i].file, ss'[i].start) {
      assert i < |ss| ==> ss'[i].file == ss[i].file && ss'[i].start == ss[i].start;
    }
    MoreStretches(ss', |ss|);
  }

  lemma MoreStretches(ss: seq<Segment>, n: nat)
    ensures forall file, offset | Reached(ss, n, file, offset) :: Reached(ss, n + 1, file, offset)
  {
  }

  // The reader has gone on in its file.
  lemma GoesOn(w: World, w': World)
    requires GapInv(w) && w'.finished == w.finished && w'.saved == w.saved && w'.start == w.start
    requires w'.reader.identity == w.reader.identity
    requires w'.reader.progress.Committed() >= w.reader.progress.Committed()
    ensures GapInv(w')
  {
    hide NoGaps, Reached;
    var ss, ss' := Stretches(w), Stretches(w');
    assert ss[..|ss| - 1] == w.finished == ss'[..|ss'| - 1];
    LongerKeeps(ss, ss');
    ReachedStays(ss, ss', |ss|, w.saved.file, w.saved.offset);
  }

  // The reader has begun a new stretch.
  lemma BeginsNext(w: World, w': World, drained: Option<nat>)
    requires GapInv(w) && w'.saved == w.saved && w'.finished == w.finished + [Closed(w, drained)]
    requires 0 <= w'.reader.progress.Committed()
    requires w'.start == 0 || (w'.reader.identity == w.saved.file && w'.start == w.saved.offset)
    ensures GapInv(w')
  {
    var ss := Stretches(w);
    hide NoGaps, Reached;
    assert ss[..|ss| - 1] == w.finished;
    NextStretchKeeps(ss, Closed(w, drained), Closed(w', None));
    assert Stretches(w') == ss[..|ss| - 1] + [Closed(w, drained)] + [Closed(w', None)];
  }

  // ---------- One step ----------

  lemma GrowKeeps(w: World, file: FileId, more: Bytes, w': World)
    requires Inv(w) && Step(w, Event.Grow(file, more), w')
    ensures Inv(w')
  {
    hide CompleteLines, Remainder, AllLines, Exact, NoGaps, Reached, Returned;
    forall s | s in w.finished ensures Exact(s, w'.contents) {
      ExactGrows(s, w.contents, file, more);
    }
    ReturnedGrows(w, w.start, w.emitted, file, more);
    if w.again.Some? {
      ReturnedGrows(w, w.saved.offset, w.again.value, file, more);
      var content := w.contents[w.saved.file];
      assert (content + more)[w.start..w.saved.offset] == content[w.start..w.saved.offset];
    }
    GoesOn(w, w');
  }

  lemma CreateKeeps(w: World, file: FileId, content: Bytes, w': World)
    requires Inv(w) && Step(w, Create(file, content), w')
    ensures Inv(w')
  {
    hide CompleteLines, Remainder, AllLines, NoGaps, Reached, R.Inv;
    GoesOn(w, w');
  }

  lemma PointKeeps(w: World, to: Option<FileId>, w': World)
    requires Inv(w) && Step(w, Point(to), w')
    ensures Inv(w')
  {
    hide CompleteLines, Remainder, AllLines, NoGaps, Reached, R.Inv, Exact;
    GoesOn(w, w');
  }

  // A round on the same file.
  lemma ReadOnKeeps(w: World, lines: seq<Bytes>, w': World)
    requires Inv(w) && Step(w, Poll(lines), w') && !w.reader.switching
    ensures Inv(w')
  {
    hide CompleteLines, Remainder, AllLines, Exact, NoGaps, Reached, Returned;
    RoundReturns(w, lines, w', w.start, w.emitted);
    if w.again.Some? {
      RoundReturns(w, lines, w', w.saved.offset, w.again.value);
    }
    hide Polled;
    assert w'.reader.identity == w.reader.identity by {
      SameFile(w, lines, w');
    }
    GoesOn(w, w');
  }

  lemma SameFile(w: World, lines: seq<Bytes>, w': World)
    requires Step(w, Poll(lines), w') && !w.reader.switching
    ensures w'.reader.identity == w.reader.identity && w'.contents == w.contents && w'.current == w.current
  {
    hide AllLines, CompleteLines, Remainder;
  }

  // The switch to the new file, whether or not its first round succeeds.
  lemma SwitchKeeps(w: World, lines: seq<Bytes>, w': World)
    requires Inv(w) && w.reader.switching && !w'.reader.switching && ReaderStep(w, w'.reader, lines, w')
    requires w'.reader.identity in w.contents && Returned(w', 0, lines)
    ensures Inv(w')
  {
    ClosedIsExact(w);
    hide CompleteLines, Remainder, AllLines, Exact, NoGaps, Reached;
    BeginsNext(w, w', Some(w.seen));
  }

  lemma PollKeeps(w: World, lines: seq<Bytes>, w': World)
    requires Inv(w) && Step(w, Poll(lines), w')
    ensures Inv(w')
  {
    hide Inv;
    if w.reader.switching {
      hide CompleteLines, Remainder, AllLines, R.Inv;
      FreshFile(w.contents, w'.reader, lines);
      SwitchKeeps(w, lines, w');
    } else {
      ReadOnKeeps(w, lines, w');
    }
  }

  lemma PollFailsKeeps(w: World, w': World)
    requires Inv(w) && Step(w, PollFails, w')
    ensures Inv(w')
  {
    hide CompleteLines, Remainder, AllLines, Exact, NoGaps, Reached;
    if w.reader.switching && !w'.reader.switching {
      NoLine([]);
      FreshFile(w.contents, w'.reader, []);
      SwitchKeeps(w, [], w');
    } else {
      hide R.Inv;
      assert w.emitted + [] == w.emitted && w'.reader == w.reader;
      assert w.again.Some? ==> w.again.value + [] == w.again.value;
      GoesOn(w, w');
    }
  }

  lemma SaveKeeps(w: World, w': World)
    requires Inv(w) && Step(w, Save, w')
    ensures Inv(w')
  {
    SavedHere(w);
    hide CompleteLines, Remainder, AllLines, Exact, NoGaps;
    assert Covers(Stretches(w')[|w.finished|], w'.saved.file, w'.saved.offset);
    assert Stretches(w') == Stretches(w);
  }

  // Nothing has been returned since the place the reader is at.
  lemma SavedHere(w: World)
    requires ReadingInv(w)
    ensures Returned(w, w.reader.progress.Committed(), [])
  {
    var c, content := w.reader.progress.Committed(), w.contents[w.reader.identity];
    assert content[c..c] == [];
    NoLine([]);
  }

  lemma RestartKeeps(w: World, w': World)
    requires Inv(w) && Step(w, Event.Restart, w')
    ensures Inv(w')
  {
    ClosedIsExact(w);
    hide CompleteLines, AllLines, Exact, NoGaps, Reached;
    NothingReturned(w');
    hide Returned;
    NoLine([]);
    var content := w.contents[w'.reader.identity];
    assert content[w'.start..w'.start] == [];
    BeginsNext(w, w', None);
  }

  lemma StepKeeps(w: World, e: Event, w': World)
    requires Inv(w) && Step(w, e, w')
    ensures Inv(w')
  {
    hide Inv, Step;
    match e
    case Grow(file, more) => GrowKeeps(w, file, more, w');
    case Create(file, content) => CreateKeeps(w, file, content, w');
    case Point(to) => PointKeeps(w, to, w');
    case Poll(lines) => PollKeeps(w, lines, w');
    case PollFails => PollFailsKeeps(w, w');
    case Save => SaveKeeps(w, w');
    case Restart => RestartKeeps(w, w');
  }

  // ---------- Whole runs ----------

  ghost predicate Run(ws: seq<World>, es: seq<Event>) {
    && |ws| == |es| + 1 && Init(ws[0])
    && forall i | 0 <= i < |es| :: Step(ws[i], es[i], ws[i + 1])
  }

  lemma InitHolds(w: World)
    requires Init(w)
    ensures Inv(w)
  {
    SavedAtStart(w);
    hide CompleteLines, AllLines;
    NoLine([]);
    assert w.contents[w.reader.identity][w.start..w.start] == [];
    assert Covers(Stretches(w)[0], w.saved.file, w.saved.offset);
  }

  lemma SavedAtStart(w: World)
    requires Init(w)
    ensures Returned(w, w.start, [])
  {
    NothingReturned(w);
  }

  /** No checkpoint spans two files, no line mixes them, and no file is skipped into, through anything that happens. */
  lemma {:induction false} RunKeeps(ws: seq<World>, es: seq<Event>, n: nat)
    requires Run(ws, es) && n < |ws|
    ensures Inv(ws[n])
  {
    hide Inv, Step, Init;
    if n == 0 {
      InitHolds(ws[0]);
    } else {
      RunKeeps(ws, es, n - 1);
      StepKeeps(ws[n - 1], es[n - 1], ws[n]);
    }
  }

  /**
   When a replacement is noticed, the round completes the old file: with what was returned before,
   these are all its lines from the start of the stretch to its end as present then, and its tail.
   */
  lemma ReplacedFileIsComplete(ws: seq<World>, es: seq<Event>, n: nat)
    requires Run(ws, es) && n < |es| && es[n].Poll? && !ws[n].reader.switching && ws[n + 1].reader.switching
    ensures var w, w' := ws[n], ws[n + 1];
      && w.reader.identity in w.contents && w.start <= |w.contents[w.reader.identity]|
      && w'.reader.identity == w.reader.identity
      && w.emitted + es[n].lines == w'.emitted == AllLines(w.contents[w.reader.identity][w.start..])
      && w'.reader.progress.Committed() == |w.contents[w.reader.identity]|
  {
    RunKeeps(ws, es, n);
    RunKeeps(ws, es, n + 1);
    assert Step(ws[n], es[n], ws[n + 1]);
    hide Run, AllLines, CompleteLines, Remainder, R.Inv, Exact, NoGaps, Reached, SavedInv;
    var content := ws[n].contents[ws[n].reader.identity];
    assert content[ws[n].start..|content|] == content[ws[n].start..];
  }

  /**
   The switch after that closes the stretch with just these lines, and the new file starts at its first byte.
   */
  lemma SwitchClosesDrained(ws: seq<World>, es: seq<Event>, n: nat)
    requires Run(ws, es) && n < |es| && ws[n].reader.switching && !ws[n + 1].reader.switching && !es[n].Restart?
    ensures ws[n + 1].finished == ws[n].finished + [Closed(ws[n], Some(ws[n].seen))] && ws[n + 1].start == 0
    ensures Closed(ws[n], None).end == ws[n].seen && Closed(ws[n], None).lines == ws[n].emitted
  {
    RunKeeps(ws, es, n);
    assert Step(ws[n], es[n], ws[n + 1]);
    hide Run, AllLines, CompleteLines, Remainder, Exact, NoGaps, Reached, SavedInv, Polled;
  }

  /**
   Which lines a restart on the same file reads again: exactly those returned since the checkpoint
   was saved. Those before it are not returned again.
   */
  lemma RestartReadsAgain(ws: seq<World>, es: seq<Event>, n: nat)
    requires Run(ws, es) && n < |es| && es[n].Restart?
    requires ws[n].again.Some? && !ws[n].reader.switching && ws[n].current == Some(ws[n].reader.identity)
    ensures var w, w' := ws[n], ws[n + 1];
      && w.reader.identity in w.contents
      && var content, c := w.contents[w.reader.identity], w.reader.progress.Committed();
        && w'.start == w.saved.offset && w.start <= w'.start <= c <= |content|
        && w'.reader.progress.LinesTo(content, c) == w.again.value
        && w.emitted == CompleteLines(content[w.start..w'.start]) + w.again.value
  {
    RunKeeps(ws, es, n);
    assert Step(ws[n], es[n], ws[n + 1]);
    hide Run, CompleteLines, Remainder, AllLines, Exact, NoGaps, Reached;
    var w := ws[n];
    var content, s, c := w.contents[w.reader.identity], w.saved.offset, w.reader.progress.Committed();
    assert [] + content[s..c] == content[s..c];
    Join(content, w.start, s, c);
    SplitInPortions(content[w.start..s], content[s..c]);
  }

  /** A restart on another file than the checkpoint's reads that file from its first byte. */
  lemma RestartOnOtherFile(ws: seq<World>, es: seq<Event>, n: nat)
    requires Run(ws, es) && n < |es| && es[n].Restart?
    ensures ws[n].current.Some?
    ensures ws[n].current != Some(ws[n].saved.file) ==> ws[n + 1].start == 0
    ensures ws[n].current == Some(ws[n].saved.file) ==> ws[n + 1].start == ws[n].saved.offset
  {
    RunKeeps(ws, es, n);
    assert Step(ws[n], es[n], ws[n + 1]);
    hide Run, ReadingInv, Exact, NoGaps, Reached, Returned, Remainder;
  }
}
