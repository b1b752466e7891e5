/** Decimal numbers and the stream extractions with which the two state files are read back. */
module Text {
  import opened Words
  import opened Lines

  const SPACE: byte := 32
  const MINUS: byte := 45
  const PLUS: byte := 43
  const ZERO: byte := 48

  predicate IsDigit(c: byte) {
    ZERO <= c < ZERO + 10
  }

  predicate IsSpace(c: byte) {
    c == SPACE || 9 <= c <= 13
  }

  predicate AllDigits(s: Bytes) {
    forall i | 0 <= i < |s| :: IsDigit(s[i])
  }

  predicate SpaceFree(s: Bytes) {
    forall i | 0 <= i < |s| :: !IsSpace(s[i])
  }

  predicate OneLine(s: Bytes) {
    forall i | 0 <= i < |s| :: s[i] != NEWLINE
  }

  // operator<< for an unsigned integer.
  function Decimal(n: nat): (s: Bytes)
    ensures s != [] && AllDigits(s)
  {
    if n < 10 then [ZERO + n] else Decimal(n / 10) + [ZERO + n % 10]
  }

  function FromDecimal(s: Bytes): nat
    requires AllDigits(s)
  {
    if s == [] then 0 else FromDecimal(s[..|s| - 1]) * 10 + (s[|s| - 1] - ZERO)
  }

  lemma {:induction false} DecimalRoundTrip(n: nat)
    ensures FromDecimal(Decimal(n)) == n
  {
    if n >= 10 {
      DecimalRoundTrip(n / 10);
      assert Decimal(n)[..|Decimal(n)| - 1] == Decimal(n / 10);
    } else {
      assert Decimal(n)[..0] == [];
    }
  }

  // The number of leading characters of the given kind.
  function Digits(s: Bytes): (k: nat)
    ensures k <= |s| && AllDigits(s[..k]) && (k < |s| ==> !IsDigit(s[k]))
  {
    if s == [] || !IsDigit(s[0]) then 0
    else
      assert s[..1 + Digits(s[1..])] == [s[0]] + s[1..][..Digits(s[1..])];
      1 + Digits(s[1..])
  }

  function SkipSpace(s: Bytes): (r: Bytes)
    ensures |r| <= |s| && (r != [] ==> !IsSpace(r[0]))
  {
    if s != [] && IsSpace(s[0]) then SkipSpace(s[1..]) else s
  }

  function WordLength(s: Bytes): (k: nat)
    ensures k <= |s| && (k < |s| ==> IsSpace(s[k])) && (s != [] && !IsSpace(s[0]) ==> k > 0)
  {
    if s == [] || IsSpace(s[0]) then 0 else 1 + WordLength(s[1..])
  }

  // A digit string with an optional sign, as strtoull and num_get convert it.
  function Convert(negative: bool, digits: Bytes): Option<uint64>
    requires AllDigits(digits)
  {
    if digits == [] || FromDecimal(digits) > MAX_UINT64 then None
    else if negative && FromDecimal(digits) > 0 then Some(0x1_0000_0000_0000_0000 - FromDecimal(digits))
    else Some(FromDecimal(digits))
  }

  /** parseUint64: the whole text must be one number. */
  function ParseUint64(text: Bytes): Option<uint64> {
    if text == [] || text[0] == MINUS then None
    else
      var s := SkipSpace(text);
      var signed := s != [] && s[0] in {MINUS, PLUS};
      var digits := if signed then s[1..] else s;
      if AllDigits(digits) then Convert(signed && s[0] == MINUS, digits) else None
  }

  /** std::getline: a line and what follows it, or None at the end of the input. */
  function GetLine(s: Bytes): (r: Option<(Bytes, Bytes)>)
    ensures r.None? <==> s == []
    ensures r.Some? ==> OneLine(r.value.0) && |r.value.1| < |s|
  {
    if s == [] then None
    else
      var k := NewlineIndex(s);
      Some((s[..k], if k < |s| then s[k + 1..] else []))
  }

  datatype Extracted<T> = Value(value: T, rest: Bytes) | Failed(atEnd: bool)

  // input >> string
  function ExtractWord(s: Bytes): (r: Extracted<Bytes>)
    ensures r.Value? ==> |r.rest| < |s| && r.value != []
  {
    var t := SkipSpace(s);
    if t == [] then Failed(true) else Value(t[..WordLength(t)], t[WordLength(t)..])
  }

  // input >> std::uint64_t
  function ExtractNumber(s: Bytes): (r: Extracted<uint64>)
    ensures r.Value? ==> |r.rest| < |s|
  {
    var t := SkipSpace(s);
    var signed := t != [] && t[0] in {MINUS, PLUS};
    var body := if signed then t[1..] else t;
    var k := Digits(body);
    match Convert(signed && t[0] == MINUS, body[..k])
    case Some(n) => Value(n, body[k..])
    case None => Failed(k == |body|)
  }

  // ---------- What is printed is read back ----------

  lemma DecimalHead(n: nat)
    ensures IsDigit(Decimal(n)[0]) && !IsSpace(Decimal(n)[0])
    ensures Decimal(n)[0] !in {MINUS, PLUS}
  {
  }

  lemma ParseDecimal(n: uint64)
    ensures ParseUint64(Decimal(n)) == Some(n)
  {
    DecimalHead(n);
    DecimalRoundTrip(n);
    assert SkipSpace(Decimal(n)) == Decimal(n);
  }

  // The text is white space, perhaps a sign, and digits, which stand for `n`; a minus sign counts modulo 2^64.
  ghost predicate Numeral(text: Bytes, blanks: Bytes, sign: Bytes, digits: Bytes, n: uint64) {
    && text == blanks + sign + digits
    && (forall i | 0 <= i < |blanks| :: IsSpace(blanks[i]))
    && sign in {[], [PLUS], [MINUS]}
    && digits != [] && AllDigits(digits) && FromDecimal(digits) <= MAX_UINT64
    && n == if sign == [MINUS] && FromDecimal(digits) > 0 then 0x1_0000_0000_0000_0000 - FromDecimal(digits)
            else FromDecimal(digits)
  }

  lemma {:induction false} SkipsBlanks(blanks: Bytes, rest: Bytes)
    requires (forall i | 0 <= i < |blanks| :: IsSpace(blanks[i])) && (rest == [] || !IsSpace(rest[0]))
    ensures SkipSpace(blanks + rest) == rest
  {
    if blanks == [] {
      assert blanks + rest == rest;
    } else {
      assert (blanks + rest)[1..] == blanks[1..] + rest;
      SkipsBlanks(blanks[1..], rest);
    }
  }

  lemma {:induction false} BlanksBefore(s: Bytes) returns (blanks: Bytes)
    ensures s == blanks + SkipSpace(s) && forall i | 0 <= i < |blanks| :: IsSpace(blanks[i])
  {
    if s == [] || !IsSpace(s[0]) {
      blanks := [];
    } else {
      var rest := BlanksBefore(s[1..]);
      blanks := [s[0]] + rest;
    }
  }

  /** Which texts parseUint64 accepts, and as what: a whole numeral that does not begin with a minus sign. */
  lemma ParseIsExact(text: Bytes, n: uint64)
    ensures ParseUint64(text) == Some(n)
       <==> text != [] && text[0] != MINUS && exists blanks, sign, digits :: Numeral(text, blanks, sign, digits, n)
  {
    if ParseUint64(text) == Some(n) {
      var blanks, sign, digits := ParsedNumeral(text, n);
    }
    if text != [] && text[0] != MINUS {
      forall blanks, sign, digits | Numeral(text, blanks, sign, digits, n)
        ensures ParseUint64(text) == Some(n)
      {
        NumeralParses(text, blanks, sign, digits, n);
      }
    }
  }

  lemma ParsedNumeral(text: Bytes, n: uint64) returns (blanks: Bytes, sign: Bytes, digits: Bytes)
    requires ParseUint64(text) == Some(n)
    ensures text != [] && text[0] != MINUS && Numeral(text, blanks, sign, digits, n)
  {
    hide FromDecimal, SkipSpace, IsSpace, IsDigit, AllDigits;
    blanks := BlanksBefore(text);
    var s := SkipSpace(text);
    assert s != [];
    if s[0] in {MINUS, PLUS} {
      sign, digits := [s[0]], s[1..];
    } else {
      sign, digits := [], s;
    }
    assert s == sign + digits;
    assert blanks + (sign + digits) == blanks + sign + digits;
  }

  lemma NumeralParses(text: Bytes, blanks: Bytes, sign: Bytes, digits: Bytes, n: uint64)
    requires text != [] && text[0] != MINUS && Numeral(text, blanks, sign, digits, n)
    ensures ParseUint64(text) == Some(n)
  {
    hide FromDecimal, SkipSpace;
    var s := sign + digits;
    assert text == blanks + s;
    assert IsDigit(digits[0]);
    if sign == [] {
      assert s == digits;
    } else {
      assert s[1..] == digits && s[0] == sign[0];
    }
    SkipsBlanks(blanks, s);
  }

  lemma GetLineOf(line: Bytes, rest: Bytes)
    requires OneLine(line)
    ensures GetLine(line + [NEWLINE] + rest) == Some((line, rest))
  {
    var s := line + [NEWLINE] + rest;
    assert s[|line|] == NEWLINE && forall i | 0 <= i < |line| :: s[i] == line[i];
    assert NewlineIndex(s) == |line|;
    assert s[..|line|] == line && s[|line| + 1..] == rest;
  }

  /** The last line needs no newline. */
  lemma LastLineOf(line: Bytes)
    requires OneLine(line) && line != []
    ensures GetLine(line) == Some((line, []))
  {
    assert NewlineIndex(line) == |line| && line[..|line|] == line;
  }

  lemma {:induction false} DigitsOf(digits: Bytes, rest: Bytes)
    requires AllDigits(digits) && (rest == [] || !IsDigit(rest[0]))
    ensures Digits(digits + rest) == |digits|
  {
    if digits == [] {
      assert digits + rest == rest;
    } else {
      assert (digits + rest)[1..] == digits[1..] + rest;
      DigitsOf(digits[1..], rest);
    }
  }

  lemma {:induction false} WordOf(word: Bytes, rest: Bytes)
    requires SpaceFree(word) && (rest == [] || IsSpace(rest[0]))
    ensures WordLength(word + rest) == |word|
  {
    if word == [] {
      assert word + rest == rest;
    } else {
      assert (word + rest)[1..] == word[1..] + rest;
      WordOf(word[1..], rest);
    }
  }

  lemma ExtractWordOf(word: Bytes, rest: Bytes)
    requires word != [] && SpaceFree(word)
    ensures ExtractWord(word + [SPACE] + rest) == Value(word, [SPACE] + rest)
  {
    var s := word + ([SPACE] + rest);
    assert word + [SPACE] + rest == s;
    assert s[0] == word[0];
    WordOf(word, [SPACE] + rest);
    assert s[..|word|] == word && s[|word|..] == [SPACE] + rest;
  }

  lemma ExtractDigits(d: Bytes, after: Bytes, n: uint64)
    requires d != [] && AllDigits(d) && !IsSpace(d[0]) && d[0] !in {MINUS, PLUS}
    requires FromDecimal(d) == n && after != [] && !IsDigit(after[0])
    ensures ExtractNumber(d + after) == Value(n, after)
  {
    hide FromDecimal, Digits;
    assert (d + after)[0] == d[0];
    assert SkipSpace(d + after) == d + after;
    DigitsOf(d, after);
    assert (d + after)[..|d|] == d && (d + after)[|d|..] == after;
  }

  lemma SkipsOneSpace(s: Bytes)
    ensures ExtractNumber([SPACE] + s) == ExtractNumber(s)
  {
    hide FromDecimal, Digits, Convert;
    assert ([SPACE] + s)[1..] == s;
  }

  lemma ExtractNumberOf(n: uint64, rest: Bytes)
    ensures ExtractNumber([SPACE] + Decimal(n) + [NEWLINE] + rest) == Value(n, [NEWLINE] + rest)
  {
    hide FromDecimal, Digits, Decimal, ExtractNumber;
    var d, after := Decimal(n), [NEWLINE] + rest;
    DecimalHead(n);
    DecimalRoundTrip(n);
    ExtractDigits(d, after, n);
    hide *;
    SkipsOneSpace(d + after);
    assert [SPACE] + (d + after) == [SPACE] + d + [NEWLINE] + rest;
  }
}
