/** Splitting bytes into complete lines, all at once; the incremental reader is measured against it. */
module Lines {
  import opened Words

  const NEWLINE: byte := 10
  const CARRIAGE_RETURN: byte := 13

  // std::string::find; the length if there is no newline.
  function NewlineIndex(s: Bytes): (k: nat)
    ensures k <= |s| && (forall i | 0 <= i < k :: s[i] != NEWLINE) && (k < |s| ==> s[k] == NEWLINE)
  {
    if s == [] || s[0] == NEWLINE then 0 else 1 + NewlineIndex(s[1..])
  }

  function StripReturn(line: Bytes): Bytes {
    if line != [] && line[|line| - 1] == CARRIAGE_RETURN then line[..|line| - 1] else line
  }

  /** The lines of `s` that end in a newline, without it and without a carriage return before it. */
  function CompleteLines(s: Bytes): seq<Bytes> {
    var k := NewlineIndex(s);
    if k == |s| then [] else [StripReturn(s[..k])] + CompleteLines(s[k + 1..])
  }

  /** What follows the last newline. */
  function Remainder(s: Bytes): (r: Bytes)
    ensures |r| <= |s| && NEWLINE !in r
  {
    var k := NewlineIndex(s);
    if k == |s| then s else Remainder(s[k + 1..])
  }

  /** The first line and the rest are split off at any newline that no other precedes. */
  lemma FirstLine(s: Bytes, k: nat)
    requires k < |s| && s[k] == NEWLINE && forall i | 0 <= i < k :: s[i] != NEWLINE
    ensures CompleteLines(s) == [StripReturn(s[..k])] + CompleteLines(s[k + 1..])
    ensures Remainder(s) == Remainder(s[k + 1..])
  {
    assert NewlineIndex(s) == k;
  }

  lemma NoLine(s: Bytes)
    requires forall i | 0 <= i < |s| :: s[i] != NEWLINE
    ensures CompleteLines(s) == [] && Remainder(s) == s
  {
    assert NewlineIndex(s) == |s|;
  }

  // A line as it is returned: no newline in it, and no carriage return at its end.
  predicate Plain(x: Bytes) {
    NEWLINE !in x && (x == [] || x[|x| - 1] != CARRIAGE_RETURN)
  }

  /**
   The two line ends mean the same, and just one carriage return belongs to the second: any further
   one before it is part of the line.
   */
  lemma LineEnds(x: Bytes, rest: Bytes)
    requires NEWLINE !in x
    ensures CompleteLines(x + [CARRIAGE_RETURN, NEWLINE] + rest) == [x] + CompleteLines(rest)
    ensures Plain(x) ==> CompleteLines(x + [NEWLINE] + rest) == [x] + CompleteLines(rest)
    ensures Remainder(x + [CARRIAGE_RETURN, NEWLINE] + rest) == Remainder(rest) == Remainder(x + [NEWLINE] + rest)
  {
    hide CompleteLines, Remainder;
    var s, s' := x + [CARRIAGE_RETURN, NEWLINE] + rest, x + [NEWLINE] + rest;
    assert s[..|x| + 1] == x + [CARRIAGE_RETURN] && s[|x| + 2..] == rest && s[|x| + 1] == NEWLINE;
    assert forall i | 0 <= i < |x| :: s[i] == x[i];
    FirstLine(s, |x| + 1);
    assert s'[..|x|] == x && s'[|x| + 1..] == rest && s'[|x|] == NEWLINE;
    FirstLine(s', |x|);
  }

  /**
   `s` is these lines, each with one of the two line ends, followed by `r`. A line that ends in a
   carriage return of its own needs the longer end.
   */
  ghost predicate IsSplit(s: Bytes, lines: seq<Bytes>, r: Bytes)
    decreases |lines|
  {
    if lines == [] then s == r && NEWLINE !in r
    else
      && NEWLINE !in lines[0]
      && exists rest :: IsSplit(rest, lines[1..], r) && StartsWithLine(s, lines[0], rest)
  }

  predicate StartsWithLine(s: Bytes, line: Bytes, rest: Bytes) {
    s == line + [CARRIAGE_RETURN, NEWLINE] + rest || (Plain(line) && s == line + [NEWLINE] + rest)
  }

  /** What splitting means, said without the scanner: a text has exactly one split, and this is it. */
  lemma {:induction false} SplitIsExact(s: Bytes, lines: seq<Bytes>, r: Bytes)
    ensures IsSplit(s, lines, r) <==> lines == CompleteLines(s) && r == Remainder(s)
    decreases |lines|
  {
    hide CompleteLines, Remainder;
    if lines == [] {
      if NEWLINE !in s {
        NoLine(s);
      } else {
        var first, rest := FirstOf(s);
        LineFirst(s, first, rest);
      }
    } else {
      forall rest | StartsWithLine(s, lines[0], rest) && NEWLINE !in lines[0]
        ensures IsSplit(rest, lines[1..], r) <==> lines == CompleteLines(s) && r == Remainder(s)
      {
        SplitIsExact(rest, lines[1..], r);
        LineFirst(s, lines[0], rest);
        assert [lines[0]] + lines[1..] == lines;
      }
      if lines == CompleteLines(s) {
        if NEWLINE !in s {
          NoLine(s);
        } else {
          var first, rest := FirstOf(s);
          LineFirst(s, first, rest);
        }
      }
    }
  }

  lemma LineFirst(s: Bytes, line: Bytes, rest: Bytes)
    requires NEWLINE !in line && StartsWithLine(s, line, rest)
    ensures CompleteLines(s) == [line] + CompleteLines(rest) && Remainder(s) == Remainder(rest)
  {
    hide CompleteLines, Remainder;
    LineEnds(line, rest);
  }

  // A text with a newline starts with a line.
  lemma FirstOf(s: Bytes) returns (line: Bytes, rest: Bytes)
    requires NEWLINE in s
    ensures NEWLINE !in line && StartsWithLine(s, line, rest)
  {
    var k := NewlineIndex(s);
    line, rest := s[..k], s[k + 1..];
    assert s == line + [NEWLINE] + rest;
    if line != [] && line[k - 1] == CARRIAGE_RETURN {
      line := s[..k - 1];
      assert s == line + [CARRIAGE_RETURN, NEWLINE] + rest;
    }
  }

  lemma DropTwice(s: Bytes, a: nat, b: nat)
    requires a + b <= |s|
    ensures s[a..][b..] == s[a + b..]
  {
  }

  lemma {:induction false} RemainderIsSuffix(s: Bytes)
    ensures s[|s| - |Remainder(s)|..] == Remainder(s)
  {
    var k := NewlineIndex(s);
    hide NewlineIndex, Remainder;
    if k < |s| {
      var rest := s[k + 1..];
      RemainderIsSuffix(rest);
      FirstLine(s, k);
      DropTwice(s, k + 1, |rest| - |Remainder(rest)|);
    } else {
      NoLine(s);
    }
  }

  /** Splitting in two portions is splitting at once: the first portion's remainder moves to the second. */
  lemma {:induction false} SplitInPortions(a: Bytes, b: Bytes)
    ensures CompleteLines(a + b) == CompleteLines(a) + CompleteLines(Remainder(a) + b)
    ensures Remainder(a + b) == Remainder(Remainder(a) + b)
  {
    var k := NewlineIndex(a);
    hide NewlineIndex, CompleteLines, Remainder;
    if k == |a| {
      NoLine(a);
      assert [] + CompleteLines(a + b) == CompleteLines(a + b);
    } else {
      var rest := a[k + 1..];
      FirstLine(a, k);
      assert (a + b)[..k] == a[..k] && (a + b)[k + 1..] == rest + b;
      FirstLine(a + b, k);
      SplitInPortions(rest, b);
    }
  }

  /** Cutting off the remainder loses no line and leaves a line boundary. */
  lemma {:induction false} CutRemainder(s: Bytes)
    ensures var cut := s[..|s| - |Remainder(s)|]; CompleteLines(cut) == CompleteLines(s) && Remainder(cut) == []
  {
    var k := NewlineIndex(s);
    hide NewlineIndex, CompleteLines, Remainder;
    if k == |s| {
      NoLine(s);
      NoLine([]);
    } else {
      var rest := s[k + 1..];
      CutRemainder(rest);
      FirstLine(s, k);
      var cut := s[..|s| - |Remainder(rest)|];
      assert cut[..k] == s[..k] && cut[k + 1..] == rest[..|rest| - |Remainder(rest)|];
      FirstLine(cut, k);
    }
  }
}
