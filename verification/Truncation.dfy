/**
 The tail reader while another process truncates and rewrites the very file it reads. Such a file
 is read from its first byte again, if it is shorter than what has been read of it by then.
 */
module Truncation {
  import opened Words
  import opened Lines
  import opened R = FileTailReader

  /**
   `emitted` are the lines returned since the reader last began the content at hand, at `from`;
   `upToDate` says that what has been read is a part of that content.
   */
  datatype World = World(content: Bytes, progress: Progress, from: nat, emitted: seq<Bytes>, upToDate: bool)

  datatype Event = Append(more: Bytes) | Rewrite(content: Bytes) | Poll(lines: seq<Bytes>) | Resume

  ghost predicate Step(w: World, e: Event, w': World) {
    match e
    case Append(more) => w' == w.(content := w.content + more)
    case Rewrite(content) => w' == w.(content := content, upToDate := false)
    case Poll(lines) =>
      && ReadOnce(w.progress, w'.progress, w.content, false, lines)
      && w' == if |w.content| < w.progress.offset
               then w.(progress := w'.progress, from := 0, emitted := lines, upToDate := true)
               else w.(progress := w'.progress, emitted := w.emitted + lines)
    case Resume =>
      && w.progress.Valid()
      && w' == if w.progress.Committed() <= |w.content|
               then w.(progress := Progress(w.progress.Committed(), []))
               else World(w.content, Progress(0, []), 0, [], true)
  }

  ghost predicate Init(w: World) {
    && w.from <= |w.content| && w.progress == Progress(w.from, []) && w.emitted == [] && w.upToDate
  }

  ghost predicate Run(ws: seq<World>, es: seq<Event>) {
    && |ws| == |es| + 1 && Init(ws[0])
    && forall i | 0 <= i < |es| :: Step(ws[i], es[i], ws[i + 1])
  }

  ghost predicate Inv(w: World) {
    w.progress.Valid() && (w.upToDate ==> R.Inv(Tail(w.content, w.progress, w.emitted), w.from))
  }

  lemma ReadKeepsValid(p: Progress, content: Bytes, end: nat)
    requires p.Valid() && p.offset <= end <= |content|
    ensures p.AdvancedTo(content, end).Valid()
  {
    hide Remainder;
  }

  lemma NothingRead(content: Bytes, from: nat)
    requires from <= |content|
    ensures R.Inv(Tail(content, Progress(from, []), []), from)
  {
    assert content[from..from] == [];
    NoLine([]);
  }

  lemma ReadKeepsInv(w: World, lines: seq<Bytes>, w': World)
    requires Inv(w) && Step(w, Poll(lines), w')
    ensures Inv(w')
  {
    hide CompleteLines, Remainder;
    var end := w'.progress.offset;
    if |w.content| < w.progress.offset {
      NothingRead(w.content, 0);
      ReadKeeps(Tail(w.content, Progress(0, []), []), 0, end);
      ReadKeepsValid(Progress(0, []), w.content, end);
      assert [] + lines == lines;
    } else {
      ReadKeepsValid(w.progress, w.content, end);
      if w.upToDate {
        ReadKeeps(Tail(w.content, w.progress, w.emitted), w.from, end);
      }
    }
  }

  lemma StepKeeps(w: World, e: Event, w': World)
    requires Inv(w) && Step(w, e, w')
    ensures Inv(w')
  {
    match e
    case Append(more) =>
      hide R.Inv;
      if w.upToDate {
        GrowKeeps(Tail(w.content, w.progress, w.emitted), w.from, more);
      }
    case Rewrite(_) =>
    case Poll(lines) => ReadKeepsInv(w, lines, w');
    case Resume =>
      hide R.Inv;
      NothingRead(w.content, 0);
      if w.upToDate && w.progress.Committed() <= |w.content| {
        RestartKeeps(Tail(w.content, w.progress, w.emitted), w.from);
      }
  }

  /**
   Whatever is written, truncated and read: as long as what has been read belongs to the content
   at hand, the lines returned of it are its line split from where the reader began it.
   */
  lemma {:induction false} RunKeeps(ws: seq<World>, es: seq<Event>, n: nat)
    requires Run(ws, es) && n < |ws|
    ensures Inv(ws[n])
  {
    if n == 0 {
      NothingRead(ws[0].content, ws[0].from);
    } else {
      RunKeeps(ws, es, n - 1);
      hide Inv, Step;
      StepKeeps(ws[n - 1], es[n - 1], ws[n]);
    }
  }

  /**
   The first read after a rewrite notices it if and only if the new content is shorter than what
   had been read of the old one. It then returns all of it, from its first byte.
   */
  lemma NoticedIffShorter(ws: seq<World>, es: seq<Event>, n: nat)
    requires Run(ws, es) && n < |es| && es[n].Poll? && !ws[n].upToDate
    ensures ws[n + 1].upToDate <==> |ws[n].content| < ws[n].progress.offset
    ensures ws[n + 1].upToDate ==>
              && es[n].lines == CompleteLines(ws[n].content) == ws[n + 1].emitted
              && ws[n + 1].progress == Progress(|ws[n].content|, Remainder(ws[n].content))
    ensures !ws[n + 1].upToDate ==>
              es[n].lines == CompleteLines(ws[n].progress.pending + ws[n].content[ws[n].progress.offset..])
  {
    assert Step(ws[n], es[n], ws[n + 1]);
    hide Run, CompleteLines, Remainder;
    var w := ws[n];
    ReadAnew(w.content);
    if w.progress.offset <= |w.content| {
      assert w.content[w.progress.offset..|w.content|] == w.content[w.progress.offset..];
    }
  }

  /** From then on, until the next rewrite, the lines returned are the line split of the new content from byte 0. */
  lemma {:induction false} RewrittenIsReadAnew(ws: seq<World>, es: seq<Event>, n: nat, k: nat)
    requires Run(ws, es) && n < k < |ws| && es[n].Poll? && !ws[n].upToDate && ws[n + 1].upToDate
    requires forall i | n < i < k :: !es[i].Rewrite?
    ensures ws[k].upToDate && ws[k].from == 0
    ensures 0 <= ws[k].progress.Committed() <= |ws[k].content|
    ensures ws[k].emitted == CompleteLines(ws[k].content[..ws[k].progress.Committed()])
  {
    RunKeeps(ws, es, k);
    assert Step(ws[k - 1], es[k - 1], ws[k]);
    if k > n + 1 {
      RewrittenIsReadAnew(ws, es, n, k - 1);
    }
    hide Run, CompleteLines, Remainder;
    var c := ws[k].progress.Committed();
    assert ws[k].upToDate && ws[k].from == 0;
    assert ws[k].content[0..c] == ws[k].content[..c];
  }

  // The two texts of the example, and what a reader returns of them.
  lemma Texts()
    ensures CompleteLines([65, NEWLINE]) == [[65]] && Remainder([65, NEWLINE]) == []
    ensures CompleteLines([NEWLINE, 68, NEWLINE]) == [[], [68]] && Remainder([NEWLINE, 68, NEWLINE]) == []
  {
    hide CompleteLines, Remainder;
    NoLine([]);
    LineEnds([65], []);
    LineEnds([68], []);
    LineEnds([], [68, NEWLINE]);
    assert [65] + [NEWLINE] + [] == [65, NEWLINE];
    assert [68] + [NEWLINE] + [] == [68, NEWLINE];
    assert [] + [NEWLINE] + [68, NEWLINE] == [NEWLINE, 68, NEWLINE];
  }

  lemma ReadsTo(w: World, text: Bytes, w': World)
    requires w.progress.offset <= |w.content| && w.progress.pending == [] && Remainder(text) == []
    requires text == w.content[w.progress.offset..]
    requires w' == w.(progress := Progress(|w.content|, []), emitted := w.emitted + CompleteLines(text))
    ensures Step(w, Poll(CompleteLines(text)), w')
  {
    hide CompleteLines, Remainder;
    assert [] + w.content[w.progress.offset..|w.content|] == text;
  }

  /** What goes unnoticed: "A\n" has been read, "BC\nD\n" takes its place, and the line "BC" is never returned. */
  lemma LongerIsUnnoticed() returns (ws: seq<World>, es: seq<Event>)
    ensures Run(ws, es) && es == [Poll([[65]]), Rewrite([66, 67, NEWLINE, 68, NEWLINE]), Poll([[], [68]])]
    ensures !ws[3].upToDate && ws[3].progress == Progress(5, [])
  {
    Texts();
    var before, after: Bytes := [65, NEWLINE], [66, 67, NEWLINE, 68, NEWLINE];
    var w0 := World(before, Progress(0, []), 0, [], true);
    var w1 := w0.(progress := Progress(2, []), emitted := w0.emitted + CompleteLines(before));
    var w2 := w1.(content := after, upToDate := false);
    var w3 := w2.(progress := Progress(5, []), emitted := w2.emitted + CompleteLines([NEWLINE, 68, NEWLINE]));
    assert before[0..] == before && after[2..] == [NEWLINE, 68, NEWLINE];
    ReadsTo(w0, before, w1);
    ReadsTo(w2, [NEWLINE, 68, NEWLINE], w3);
    assert Step(w1, Rewrite(after), w2);
    hide Step, CompleteLines, Remainder;
    ws := [w0, w1, w2, w3];
    es := [Poll([[65]]), Rewrite(after), Poll([[], [68]])];
  }
}
