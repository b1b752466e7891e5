/** The server's persistent watermarks: per client, the highest id it has finished with. */
module DedupStore {
  import opened Words
  import opened Lines
  import opened Persistence
  import opened Text

  type Watermarks = map<Bytes, uint64>

  datatype DedupError = InvalidArgument | InvalidFile | IoFailure

  const DEDUP_MAGIC: Bytes := [76, 71, 66, 68, 69, 68, 85, 80, 49]  // LGBDEDUP1

  function Highest(marks: Watermarks, clientId: Bytes): uint64 {
    if clientId in marks then marks[clientId] else 0
  }

  function Max(a: uint64, b: uint64): uint64 {
    if a > b then a else b
  }

  // The watermarks once everything up to `id` has been confirmed for the client.
  function Raised(marks: Watermarks, clientId: Bytes, id: uint64): Watermarks {
    if id <= Highest(marks, clientId) then marks else marks[clientId := id]
  }

  // ---------- The text of the state file ----------

  function RenderEntry(clientId: Bytes, id: uint64): Bytes {
    clientId + [SPACE] + Decimal(id) + [NEWLINE]
  }

  function RenderEntries(entries: seq<(Bytes, uint64)>): Bytes {
    if entries == [] then []
    else RenderEntries(entries[..|entries| - 1]) + RenderEntry(entries[|entries| - 1].0, entries[|entries| - 1].1)
  }

  function Render(entries: seq<(Bytes, uint64)>): Bytes {
    DEDUP_MAGIC + [NEWLINE] + RenderEntries(entries)
  }

  // One extraction of the loading loop: the next record, the end, or a failure.
  datatype Next = Record(clientId: Bytes, id: uint64, rest: Bytes) | End | Garbage

  function NextRecord(s: Bytes): (r: Next)
    ensures r.Record? ==> |r.rest| < |s|
  {
    match ExtractWord(s)
    case Failed(_) => End
    case Value(clientId, s1) =>
      match ExtractNumber(s1)
      case Failed(atEnd) => if atEnd then End else Garbage
      case Value(id, s2) => Record(clientId, id, s2)
  }

  /** The records of the rest of the file, added to `marks`; None if any of them is unacceptable. */
  function ParseEntries(s: Bytes, marks: Watermarks): Option<Watermarks>
    decreases |s|
  {
    match NextRecord(s)
    case End => Some(marks)
    case Garbage => None
    case Record(clientId, id, rest) =>
      if id == 0 || clientId in marks then None
      else ParseEntries(rest, marks[clientId := id])
  }

  function Parse(text: Bytes): Option<Watermarks> {
    match GetLine(text)
    case None => None
    case Some((magic, rest)) => if magic != DEDUP_MAGIC then None else ParseEntries(rest, map[])
  }

  // The watermarks that the text format can carry.
  ghost predicate Printable(marks: Watermarks) {
    forall c | c in marks :: c != [] && SpaceFree(c) && marks[c] >= 1
  }

  // A listing of the map in some order, each client once.
  ghost predicate Lists(entries: seq<(Bytes, uint64)>, marks: Watermarks) {
    && (forall i, j | 0 <= i < j < |entries| :: entries[i].0 != entries[j].0)
    && (forall i | 0 <= i < |entries| :: entries[i].0 in marks && marks[entries[i].0] == entries[i].1)
    && (forall c | c in marks :: exists i | 0 <= i < |entries| :: entries[i].0 == c)
  }

  function MapOf(entries: seq<(Bytes, uint64)>, marks: Watermarks): Watermarks {
    if entries == [] then marks else MapOf(entries[1..], marks[entries[0].0 := entries[0].1])
  }

  // Entries from the front, which is how they are read.
  function RenderFront(entries: seq<(Bytes, uint64)>): Bytes {
    if entries == [] then [] else RenderEntry(entries[0].0, entries[0].1) + RenderFront(entries[1..])
  }

  lemma {:induction false} RenderFrontSnoc(entries: seq<(Bytes, uint64)>, e: (Bytes, uint64))
    ensures RenderFront(entries + [e]) == RenderFront(entries) + RenderEntry(e.0, e.1)
  {
    hide RenderEntry;
    if entries == [] {
      assert (entries + [e])[1..] == [];
    } else {
      assert (entries + [e])[1..] == entries[1..] + [e];
      RenderFrontSnoc(entries[1..], e);
    }
  }

  lemma {:induction false} RenderEitherWay(entries: seq<(Bytes, uint64)>)
    ensures RenderEntries(entries) == RenderFront(entries)
  {
    hide RenderEntry;
    if entries != [] {
      var init, last := entries[..|entries| - 1], entries[|entries| - 1];
      RenderEitherWay(init);
      RenderFrontSnoc(init, last);
      assert entries == init + [last];
    }
  }

  lemma NextRecordOf(clientId: Bytes, id: uint64, rest: Bytes)
    requires clientId != [] && SpaceFree(clientId)
    ensures NextRecord(RenderEntry(clientId, id) + rest) == Record(clientId, id, [NEWLINE] + rest)
  {
    var after := Decimal(id) + [NEWLINE] + rest;
    assert RenderEntry(clientId, id) + rest == clientId + [SPACE] + after;
    ExtractWordOf(clientId, after);
    assert [SPACE] + after == [SPACE] + Decimal(id) + [NEWLINE] + rest;
    ExtractNumberOf(id, rest);
    hide ExtractWord, ExtractNumber, Decimal;
  }

  // Leading white space, such as the newline of the record before, changes nothing.
  lemma NextRecordSkips(s: Bytes)
    ensures NextRecord([NEWLINE] + s) == NextRecord(s)
  {
    assert ([NEWLINE] + s)[1..] == s;
    hide ExtractNumber;
  }

  lemma ParseSkips(s: Bytes, marks: Watermarks)
    ensures ParseEntries([NEWLINE] + s, marks) == ParseEntries(s, marks)
  {
    NextRecordSkips(s);
    hide NextRecord;
  }

  lemma {:induction false} EntriesRoundTrip(entries: seq<(Bytes, uint64)>, marks: Watermarks)
    requires forall i | 0 <= i < |entries| :: entries[i].0 != [] && SpaceFree(entries[i].0) && entries[i].1 >= 1
    requires forall i | 0 <= i < |entries| :: entries[i].0 !in marks
    requires forall i, j | 0 <= i < j < |entries| :: entries[i].0 != entries[j].0
    ensures ParseEntries(RenderFront(entries), marks) == Some(MapOf(entries, marks))
  {
    hide NextRecord, SpaceFree, RenderEntry;
    if entries == [] {
      EmptyEnds();
    } else {
      var (c, id) := entries[0];
      var rest := RenderFront(entries[1..]);
      NextRecordOf(c, id, rest);
      ParseSkips(rest, marks[c := id]);
      EntriesRoundTrip(entries[1..], marks[c := id]);
      assert RenderFront(entries) == RenderEntry(c, id) + rest;
    }
  }

  /** A record of a client that was there before, or with a zero id, makes the whole file unacceptable. */
  lemma {:induction false} BadRecordIsRejected(entries: seq<(Bytes, uint64)>, marks: Watermarks, clientId: Bytes,
                                               id: uint64, rest: Bytes)
    requires forall i | 0 <= i < |entries| :: entries[i].0 != [] && SpaceFree(entries[i].0) && entries[i].1 >= 1
    requires clientId != [] && SpaceFree(clientId)
    requires id == 0 || clientId in marks || exists i | 0 <= i < |entries| :: entries[i].0 == clientId
    ensures ParseEntries(RenderFront(entries) + (RenderEntry(clientId, id) + rest), marks) == None
  {
    hide NextRecord, SpaceFree, RenderEntry;
    var bad := RenderEntry(clientId, id) + rest;
    if entries == [] {
      NextRecordOf(clientId, id, rest);
      assert RenderFront(entries) + bad == bad;
    } else {
      var (c, n) := entries[0];
      var more := RenderFront(entries[1..]) + bad;
      NextRecordOf(c, n, more);
      ParseSkips(more, marks[c := n]);
      if id != 0 && clientId !in marks && clientId != c {
        var i :| 0 <= i < |entries| && entries[i].0 == clientId;
        assert entries[1..][i - 1].0 == clientId;
      }
      BadRecordIsRejected(entries[1..], marks[c := n], clientId, id, rest);
      assert RenderFront(entries) + bad == RenderEntry(c, n) + more;
    }
  }

  /** So does a record whose number is none. */
  lemma {:induction false} GarbageIsRejected(entries: seq<(Bytes, uint64)>, marks: Watermarks, clientId: Bytes,
                                             x: byte, rest: Bytes)
    requires forall i | 0 <= i < |entries| :: entries[i].0 != [] && SpaceFree(entries[i].0) && entries[i].1 >= 1
    requires clientId != [] && SpaceFree(clientId) && !IsSpace(x) && !IsDigit(x) && x !in {PLUS, MINUS}
    ensures ParseEntries(RenderFront(entries) + (clientId + [SPACE] + ([x] + rest)), marks) == None
  {
    hide NextRecord, SpaceFree, RenderEntry, IsSpace, IsDigit;
    var bad := clientId + [SPACE] + ([x] + rest);
    if entries == [] {
      NextIsGarbage(clientId, x, rest);
      assert RenderFront(entries) + bad == bad;
    } else {
      var (c, n) := entries[0];
      var more := RenderFront(entries[1..]) + bad;
      NextRecordOf(c, n, more);
      ParseSkips(more, marks[c := n]);
      GarbageIsRejected(entries[1..], marks[c := n], clientId, x, rest);
      assert RenderFront(entries) + bad == RenderEntry(c, n) + more;
    }
  }

  /** But a file that ends with a client's name alone loads as if that were not there. */
  lemma {:induction false} CutRecordIsIgnored(entries: seq<(Bytes, uint64)>, marks: Watermarks, clientId: Bytes)
    requires forall i | 0 <= i < |entries| :: entries[i].0 != [] && SpaceFree(entries[i].0) && entries[i].1 >= 1
    requires forall i | 0 <= i < |entries| :: entries[i].0 !in marks
    requires forall i, j | 0 <= i < j < |entries| :: entries[i].0 != entries[j].0
    requires clientId != [] && SpaceFree(clientId)
    ensures ParseEntries(RenderFront(entries) + clientId, marks) == Some(MapOf(entries, marks))
  {
    hide NextRecord, SpaceFree, RenderEntry;
    if entries == [] {
      assert RenderFront(entries) + clientId == clientId;
      NextEnds(clientId);
    } else {
      var (c, n) := entries[0];
      var more := RenderFront(entries[1..]) + clientId;
      NextRecordOf(c, n, more);
      ParseSkips(more, marks[c := n]);
      CutRecordIsIgnored(entries[1..], marks[c := n], clientId);
      assert RenderFront(entries) + clientId == RenderEntry(c, n) + more;
    }
  }

  lemma NextEnds(clientId: Bytes)
    requires clientId != [] && SpaceFree(clientId)
    ensures NextRecord(clientId) == End
  {
    WordOf(clientId, []);
    assert clientId + [] == clientId;
    assert SkipSpace(clientId) == clientId;
    assert clientId[|clientId|..] == [];
    assert ExtractNumber([]) == Failed(true);
  }

  lemma NextIsGarbage(clientId: Bytes, x: byte, rest: Bytes)
    requires clientId != [] && SpaceFree(clientId) && !IsSpace(x) && !IsDigit(x) && x !in {PLUS, MINUS}
    ensures NextRecord(clientId + [SPACE] + ([x] + rest)) == Garbage
  {
    hide SpaceFree, ExtractWord, ExtractNumber;
    ExtractWordOf(clientId, [x] + rest);
    NoNumber(x, rest);
  }

  lemma NoNumber(x: byte, rest: Bytes)
    requires !IsSpace(x) && !IsDigit(x) && x !in {PLUS, MINUS}
    ensures ExtractNumber([SPACE] + ([x] + rest)) == Failed(false)
  {
    assert ([SPACE] + ([x] + rest))[1..] == [x] + rest;
    assert SkipSpace([SPACE] + ([x] + rest)) == [x] + rest;
    assert Digits([x] + rest) == 0;
  }

  lemma EmptyEnds()
    ensures NextRecord([]) == End
  {
  }

  lemma {:induction false} MapOfLists(entries: seq<(Bytes, uint64)>, marks: Watermarks, all: Watermarks)
    requires forall i | 0 <= i < |entries| :: entries[i].0 in all && all[entries[i].0] == entries[i].1
    requires forall c | c in marks :: c in all && all[c] == marks[c]
    requires forall c | c in all :: c in marks || exists i | 0 <= i < |entries| :: entries[i].0 == c
    ensures MapOf(entries, marks) == all
  {
    if entries == [] {
      assert marks == all;
    } else {
      var marks' := marks[entries[0].0 := entries[0].1];
      forall c | c in all && c !in marks' ensures exists i | 0 <= i < |entries[1..]| :: entries[1..][i].0 == c {
        var i :| 0 <= i < |entries| && entries[i].0 == c;
        assert entries[1..][i - 1].0 == c;
      }
      MapOfLists(entries[1..], marks', all);
    }
  }

  lemma {:induction false} EntriesArePrintable(s: Bytes, marks: Watermarks)
    requires Printable(marks) && ParseEntries(s, marks).Some?
    ensures Printable(ParseEntries(s, marks).value)
    decreases |s|
  {
    var next := NextRecord(s);
    RecordIsPrintable(s);
    hide NextRecord;
    if next.Record? {
      EntriesArePrintable(next.rest, marks[next.clientId := next.id]);
    }
  }

  lemma RecordIsPrintable(s: Bytes)
    ensures NextRecord(s).Record? ==> NextRecord(s).clientId != [] && SpaceFree(NextRecord(s).clientId)
  {
    WordIsSpaceFree(SkipSpace(s));
    hide ExtractNumber, SkipSpace;
  }

  lemma {:induction false} WordIsSpaceFree(s: Bytes)
    ensures SpaceFree(s[..WordLength(s)])
  {
    if s != [] && !IsSpace(s[0]) {
      WordIsSpaceFree(s[1..]);
      assert s[..WordLength(s)] == [s[0]] + s[1..][..WordLength(s[1..])];
    }
  }

  /**
   What persist() writes, in whatever order it lists the clients, load() restores, if and only
   if no client id is empty or contains white space and no watermark is zero.
   */
  lemma DedupRoundTrip(entries: seq<(Bytes, uint64)>, marks: Watermarks)
    requires Lists(entries, marks)
    ensures Parse(Render(entries)) == Some(marks) <==> Printable(marks)
  {
    hide ParseEntries, RenderEntries, RenderFront, GetLine;
    GetLineOf(DEDUP_MAGIC, RenderEntries(entries));
    RenderEitherWay(entries);
    if Printable(marks) {
      EntriesRoundTrip(entries, map[]);
      MapOfLists(entries, map[], marks);
    }
    if Parse(Render(entries)) == Some(marks) {
      EntriesArePrintable(RenderEntries(entries), map[]);
    }
  }

  lemma {:induction false} ListKeys(keys: set<Bytes>, marks: Watermarks) returns (entries: seq<(Bytes, uint64)>)
    requires keys <= marks.Keys
    ensures forall i, j | 0 <= i < j < |entries| :: entries[i].0 != entries[j].0
    ensures forall i | 0 <= i < |entries| :: entries[i].0 in keys && marks[entries[i].0] == entries[i].1
    ensures forall c | c in keys :: exists i | 0 <= i < |entries| :: entries[i].0 == c
  {
    entries := [];
    if keys != {} {
      var c :| c in keys;
      var listed := ListKeys(keys - {c}, marks);
      entries := listed + [(c, marks[c])];
      forall d | d in keys ensures exists i | 0 <= i < |entries| :: entries[i].0 == d {
        if d == c {
          assert entries[|listed|].0 == c;
        } else {
          assert d in keys - {c};
          var i :| 0 <= i < |listed| && listed[i].0 == d;
          assert entries[i].0 == d;
        }
      }
    }
  }

  lemma SomeListing(marks: Watermarks) returns (entries: seq<(Bytes, uint64)>)
    ensures Lists(entries, marks)
  {
    entries := ListKeys(marks.Keys, marks);
  }

  /** A restart loads `loaded` from the text that was written for `stored`, in some order of the clients. */
  ghost predicate Reloads(stored: Watermarks, loaded: Watermarks) {
    exists entries :: Lists(entries, stored) && Parse(Render(entries)) == Some(loaded)
  }

  /** A restart finds the watermarks it left if and only if the text format can carry them. */
  lemma ReloadIsExact(stored: Watermarks)
    ensures Reloads(stored, stored) <==> Printable(stored)
    ensures forall loaded | Reloads(stored, loaded) && Printable(stored) :: loaded == stored
  {
    hide Parse, Render, Printable, Lists;
    forall entries | Lists(entries, stored)
      ensures Parse(Render(entries)) == Some(stored) <==> Printable(stored)
    {
      DedupRoundTrip(entries, stored);
    }
    var entries := SomeListing(stored);
  }

  // A client id that reads, in the state file, like the end of one record and the start of another.
  function SplitId(first: Bytes, id: uint64, other: Bytes): Bytes {
    first + [SPACE] + Decimal(id) + [NEWLINE] + other
  }

  /** What a client id with white space can do: one record is written, two others are loaded. */
  lemma SplitRecord(first: Bytes, id: uint64, other: Bytes, mark: uint64)
    requires first != [] && SpaceFree(first) && other != [] && SpaceFree(other) && first != other
    requires id >= 1 && mark >= 1
    ensures Reloads(map[SplitId(first, id, other) := mark], map[first := id, other := mark])
  {
    hide Decimal, SpaceFree, ParseEntries, GetLine;
    var split := SplitId(first, id, other);
    var written: seq<(Bytes, uint64)> := [(split, mark)];
    var read: seq<(Bytes, uint64)> := [(first, id), (other, mark)];
    var last: seq<(Bytes, uint64)> := [(other, mark)];
    assert written[0].0 == split;
    assert Lists(written, map[split := mark]);
    assert read[1..] == last && last[1..] == [];
    assert RenderFront(last) == RenderEntry(other, mark) + RenderFront(last[1..]);
    assert RenderFront(read) == RenderEntry(first, id) + RenderFront(last);
    assert written[..0] == [];
    assert RenderEntries(written) == [] + RenderEntry(split, mark);
    assert RenderEntry(split, mark) == RenderFront(read);
    assert RenderEntries(written) == RenderFront(read);
    EntriesRoundTrip(read, map[]);
    GetLineOf(DEDUP_MAGIC, RenderEntries(written));
    MagicIsOneLine();
    assert MapOf(last, map[first := id]) == MapOf(last[1..], map[first := id, other := mark]);
    assert MapOf(read, map[]) == MapOf(last, map[first := id]);
    assert MapOf(read, map[]) == map[first := id, other := mark];
    hide RenderFront, RenderEntries, MapOf, RenderEntry;
    assert GetLine(Render(written)) == Some((DEDUP_MAGIC, RenderEntries(written)));
    assert Parse(Render(written)) == Some(map[first := id, other := mark]);
  }

  lemma MagicIsOneLine()
    ensures OneLine(DEDUP_MAGIC)
  {
  }

  /** The text of one file, byte by byte: client "a" at 12. */
  lemma DedupText()
    ensures Render([([97], 12)]) == [76, 71, 66, 68, 69, 68, 85, 80, 49, 10, 97, 32, 49, 50, 10]
  {
    assert Decimal(12) == Decimal(1) + [50] == [49, 50];
    hide Decimal;
    var none: seq<(Bytes, uint64)> := [];
    assert [([97], 12)][..0] == none;
  }

  // ---------- The store ----------

  /** `memory` is what the server acts on, `stored` what a restarted server would load. */
  datatype Store = Store(memory: Watermarks, stored: Watermarks)

  ghost predicate ConfirmStep(s: Store, clientId: Bytes, id: uint64, s': Store, ok: bool) {
    var updated := s.memory[clientId := id];
    if clientId == [] || id == 0 then !ok && s' == s
    else if id <= Highest(s.memory, clientId) then ok && s' == s
    else if ok then s' == Store(updated, updated)
    else s'.memory == s.memory && s'.stored in {s.stored, updated}
  }

  ghost predicate Holds(text: Bytes, stored: Watermarks) {
    Parse(text) == Some(stored) || exists entries :: Lists(entries, stored) && text == Render(entries)
  }

  /** What the file then loads as is what Reloads says. */
  lemma HeldIsReloaded(text: Bytes, stored: Watermarks, loaded: Watermarks)
    requires Holds(text, stored) && Parse(text) == Some(loaded)
    ensures Reloads(stored, loaded) || loaded == stored
    ensures Printable(stored) ==> loaded == stored
  {
    hide Parse, Render, Printable, Lists;
    if Parse(text) != Some(stored) {
      ReloadIsExact(stored);
    }
  }

  // The file was written for `stored`, or loads as it; a missing file holds nothing.
  ghost predicate Keeps(files: Files, path: Path, stored: Watermarks) {
    if path in files then Holds(files[path], stored) else stored == map[]
  }

  // The process dies here: the file holds what a failed confirmation may leave.
  ghost predicate CutConfirm(files: Files, path: Path, s: Store, clientId: Bytes, id: uint64) {
    exists s' :: ConfirmStep(s, clientId, id, s', false) && Keeps(files, path, s'.stored)
  }

  lemma ConfirmIsCut(files: Files, path: Path, s: Store, clientId: Bytes, id: uint64)
    requires clientId != [] && id > Highest(s.memory, clientId)
    requires Keeps(files, path, s.stored) || Keeps(files, path, s.memory[clientId := id])
    ensures CutConfirm(files, path, s, clientId, id)
  {
    hide Keeps, Highest;
    assert ConfirmStep(s, clientId, id, s, false);
    assert ConfirmStep(s, clientId, id, s.(stored := s.memory[clientId := id]), false);
  }

  class DedupStore {
    const disk: Disk
    const path: Path
    var confirmed: Watermarks
    ghost var stored: Watermarks

    constructor (disk: Disk, path: Path)
      ensures this.disk == disk && this.path == path && confirmed == map[] && stored == map[]
    {
      this.disk, this.path, confirmed, stored := disk, path, map[], map[];
    }

    ghost predicate Valid()
      reads this, disk
    {
      Keeps(disk.files, path, stored)
    }

    ghost function Abs(): Store
      reads this
    {
      Store(confirmed, stored)
    }

    method HighestConfirmed(clientId: Bytes) returns (id: uint64)
      ensures id == Highest(confirmed, clientId)
    {
      id := if clientId in confirmed then confirmed[clientId] else 0;
    }

    /** Persists a copy with the new watermark and adopts it only once that has succeeded. */
    method Confirm(clientId: Bytes, confirmedId: uint64) returns (r: Result<uint64, DedupError>)
      requires Valid()
      modifies this, disk
      ensures Valid() && ConfirmStep(old(Abs()), clientId, confirmedId, Abs(), r.Ok?)
      ensures r.Ok? ==> r.value == Highest(confirmed, clientId) == Max(confirmedId, Highest(old(confirmed), clientId))
      ensures forall c | c != clientId :: Highest(confirmed, c) == Highest(old(confirmed), c)
      ensures r == Err(InvalidArgument) <==> clientId == [] || confirmedId == 0
      ensures r.Err? ==> confirmed == old(confirmed) && r.error in {InvalidArgument, IoFailure}
      ensures r == Err(IoFailure) ==> disk.faulty
      ensures old(disk.trail) <= disk.trail
      ensures forall i | |old(disk.trail)| <= i < |disk.trail| ::
                CutConfirm(disk.trail[i], path, old(Abs()), clientId, confirmedId)
      ensures confirmedId <= Highest(old(confirmed), clientId) ==> disk.trail == old(disk.trail)
    {
      hide Parse, Printable, Holds, CutConfirm;
      if clientId == [] || confirmedId == 0 {
        return Err(InvalidArgument);
      }
      var current := if clientId in confirmed then confirmed[clientId] else 0;
      if confirmedId <= current {
        return Ok(current);
      }
      var updated := confirmed[clientId := confirmedId];
      ghost var s := Abs();
      var persisted := Persist(updated);
      forall i | |old(disk.trail)| <= i < |disk.trail|
        ensures CutConfirm(disk.trail[i], path, s, clientId, confirmedId)
      {
        ConfirmIsCut(disk.trail[i], path, s, clientId, confirmedId);
      }
      if persisted.Err? {
        return Err(persisted.error);
      }
      confirmed := updated;
      return Ok(confirmedId);
    }

    method Persist(values: Watermarks) returns (r: Result<(), DedupError>)
      requires Valid()
      modifies this`stored, disk
      ensures Valid()
      ensures r.Ok? ==> stored == values
      ensures r.Err? ==> r.error == IoFailure && disk.faulty && stored in {old(stored), values}
      ensures old(disk.trail) <= disk.trail
      ensures forall i | |old(disk.trail)| <= i < |disk.trail| ::
                Keeps(disk.trail[i], path, old(stored)) || Keeps(disk.trail[i], path, values)
    {
      hide Parse, RenderEntries;
      var entries := List(values);
      DedupRoundTrip(entries, values);
      var written := WriteAtomically(disk, path, Render(entries));
      if Lookup(disk.files, path) != old(Lookup(disk.files, path)) || written.Ok? {
        stored := values;
      }
      if written.Err? {
        return Err(IoFailure);
      }
      return Ok(());
    }

    static method List(values: Watermarks) returns (entries: seq<(Bytes, uint64)>)
      ensures Lists(entries, values)
    {
      entries := [];
      var rest := values.Keys;
      while rest != {}
        invariant rest <= values.Keys
        invariant forall i, j | 0 <= i < j < |entries| :: entries[i].0 != entries[j].0
        invariant forall i | 0 <= i < |entries| ::
                    entries[i].0 in values && entries[i].0 !in rest && values[entries[i].0] == entries[i].1
        invariant forall c | c in values && c !in rest :: exists i | 0 <= i < |entries| :: entries[i].0 == c
        decreases rest
      {
        var c :| c in rest;
        ghost var before := entries;
        entries := entries + [(c, values[c])];
        rest := rest - {c};
        forall d | d in values && d !in rest ensures exists i | 0 <= i < |entries| :: entries[i].0 == d {
          if d == c {
            assert entries[|before|].0 == c;
          } else {
            var i :| 0 <= i < |before| && before[i].0 == d;
            assert entries[i].0 == d;
          }
        }
      }
    }

    /** Loads the file; `left` are the watermarks for which an earlier run has written it. */
    method Load(ghost left: Watermarks) returns (r: Result<(), DedupError>)
      requires confirmed == map[]
      modifies this
      ensures r.Ok? ==> Valid() && stored == confirmed
      ensures r.Ok? && path in disk.files && Holds(disk.files[path], left) ==>
                && (Reloads(left, confirmed) || confirmed == left)
                && (Printable(left) ==> confirmed == left)
      ensures r.Ok? && path in disk.files ==> Parse(disk.files[path]) == Some(confirmed) && stored == confirmed
      ensures r.Ok? && path !in disk.files ==> confirmed == map[] == stored
      ensures r == Err(InvalidFile) ==> path in disk.files && Parse(disk.files[path]) == None
      ensures r.Err? ==> r.error in {InvalidFile, IoFailure} && (r.error == IoFailure ==> disk.faulty)
    {
      if path !in disk.files {
        stored := map[];
        return Ok(());
      }
      var data := ReadFile(disk, path);
      if data.Err? {
        return Err(IoFailure);
      }
      hide NextRecord, Holds, Reloads, Printable;
      var line := GetLine(data.value);
      if line.None? || line.value.0 != DEDUP_MAGIC {
        return Err(InvalidFile);
      }
      var input := line.value.1;
      var next := NextRecord(input);
      while next.Record?
        invariant next == NextRecord(input)
        invariant ParseEntries(line.value.1, map[]) == ParseEntries(input, confirmed)
        decreases |input|
      {
        if next.id == 0 || next.clientId in confirmed {
          return Err(InvalidFile);
        }
        confirmed := confirmed[next.clientId := next.id];
        input := next.rest;
        next := NextRecord(input);
      }
      if next == Garbage {
        return Err(InvalidFile);
      }
      stored := confirmed;
      if Holds(data.value, left) {
        HeldIsReloaded(data.value, left, confirmed);
      }
      return Ok(());
    }
  }
}
