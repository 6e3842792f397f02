/**
 Integer text: the digit-pair printers (src/pslog.c,
 `pslog_buffer_append_signed` and `..._unsigned`) and the parser of the Lua
 binding (lua/src/pslog_lua.c, `pslua_parse_u64_string`).
 */
module Integers {
  import opened Bytes
  import JsonText

  const U64_MAX: nat := 0xffff_ffff_ffff_ffff
  const I64_MIN: int := -0x8000_0000_0000_0000
  const I64_MAX: int := 0x7fff_ffff_ffff_ffff

  /** Decimal text without leading zeros: the definition both sides are judged by. */
  function Decimal(n: nat): bytes {
    if n < 10 then [ZERO + n] else Decimal(n / 10) + [ZERO + n % 10]
  }

  function SignedText(v: int): bytes {
    if v < 0 then [MINUS] + Decimal(-v) else Decimal(v)
  }

  predicate AllDigits(s: bytes) {
    forall i :: 0 <= i < |s| ==> JsonText.IsDigit(s[i])
  }

  /** The number that a string of digits denotes. */
  function DecimalValue(s: bytes): nat
    requires AllDigits(s)
  {
    if s == [] then 0 else DecimalValue(s[..|s| - 1]) * 10 + (s[|s| - 1] as int - ZERO as int)
  }

  /** The text is canonical and denotes the number. */
  lemma {:induction false} DecimalDenotes(n: nat)
    ensures AllDigits(Decimal(n)) && DecimalValue(Decimal(n)) == n
    ensures |Decimal(n)| >= 1 && (n > 0 ==> Decimal(n)[0] != ZERO) && (n == 0 ==> Decimal(n) == [ZERO])
  {
    var t := Decimal(n);
    if n < 10 {
      assert t[..0] == [];
    } else {
      DecimalDenotes(n / 10);
      assert t[..|t| - 1] == Decimal(n / 10);
      assert t[0] == Decimal(n / 10)[0];
    }
  }

  /** The integer that a text of digits denotes, perhaps after a minus sign. */
  function IntegerValue(s: bytes): Option<int> {
    if s != [] && AllDigits(s) then Some(DecimalValue(s))
    else if |s| > 1 && s[0] == MINUS && AllDigits(s[1..]) then Some(-(DecimalValue(s[1..]) as int))
    else None
  }

  /** The text of every integer denotes it. */
  lemma SignedDenotes(v: int)
    ensures IntegerValue(SignedText(v)) == Some(v)
  {
    if v < 0 {
      DecimalDenotes(-v);
      Tail(MINUS, Decimal(-v));
      assert !JsonText.IsDigit(SignedText(v)[0]);
    } else {
      DecimalDenotes(v);
    }
  }

  function Power10(k: nat): nat {
    if k == 0 then 1 else 10 * Power10(k - 1)
  }

  lemma {:induction false} DecimalLength(n: nat, k: nat)
    requires k >= 1 && n < Power10(k)
    ensures |Decimal(n)| <= k
  {
    if n < 10 {
    } else {
      assert k >= 2 && n / 10 < Power10(k - 1);
      DecimalLength(n / 10, k - 1);
    }
  }

  lemma Power10Of20()
    ensures Power10(20) == 1_0000_0000_0000_0000_0000
  {
    assert Power10(5) == 10_0000;
    assert Power10(10) == 100_0000_0000;
    assert Power10(15) == 1000_0000_0000_0000;
  }

  lemma {:induction false} U64Length(n: nat)
    requires n <= U64_MAX
    ensures 1 <= |Decimal(n)| <= 20
  {
    Power10Of20();
    DecimalLength(n, 20);
    DecimalDenotes(n);
  }

  // ----- printing -----

  /** Entry `i` of the table of the texts 00 to 99. */
  function DigitPairs(i: nat): byte
    requires i < 200
  {
    if i % 2 == 0 then ZERO + i / 2 / 10 else ZERO + i / 2 % 10
  }

  lemma PairOf(n: nat)
    requires n < 100
    ensures DigitPairs(n * 2) == ZERO + n / 10 && DigitPairs(n * 2 + 1) == ZERO + n % 10
  {
  }

  lemma {:induction false} DecimalByPairs(n: nat)
    requires n >= 100
    ensures Decimal(n) == Decimal(n / 100) + [DigitPairs(n % 100 * 2), DigitPairs(n % 100 * 2 + 1)]
  {
    PairOf(n % 100);
    assert n / 10 / 10 == n / 100 && n / 10 % 10 == n % 100 / 10 && n % 10 == n % 100 % 10;
    assert Decimal(n) == Decimal(n / 10) + [ZERO + n % 10];
    assert Decimal(n / 10) == Decimal(n / 100) + [ZERO + n / 10 % 10];
  }

  lemma {:induction false} DecimalLast(n: nat)
    requires n < 100
    ensures n >= 10 ==> Decimal(n) == [DigitPairs(n * 2), DigitPairs(n * 2 + 1)]
  {
    PairOf(n);
  }

  /** Write two digits in front of what `tmp[cursor..]` holds. */
  method PutPair(tmp: array<byte>, cursor: nat, pair: nat) returns (cursor': nat)
    requires 2 <= cursor <= tmp.Length && pair < 100
    modifies tmp
    ensures cursor' == cursor - 2
    ensures tmp[cursor'..] == [DigitPairs(pair * 2), DigitPairs(pair * 2 + 1)] + old(tmp[cursor..])
  {
    cursor' := cursor - 2;
    tmp[cursor'] := DigitPairs(pair * 2);
    tmp[cursor' + 1] := DigitPairs(pair * 2 + 1);
    assert tmp[cursor'..] == [tmp[cursor'], tmp[cursor' + 1]] + tmp[cursor..];
  }

  /** The digits of a 64-bit magnitude, right-aligned in the 32-byte scratch. */
  method PutMagnitude(tmp: array<byte>, value: nat) returns (cursor: nat)
    requires tmp.Length == 32 && value <= U64_MAX
    modifies tmp
    ensures 12 <= cursor <= 31 && tmp[cursor..] == Decimal(value)
  {
    U64Length(value);
    cursor := 32;
    var magnitude := value;
    assert Decimal(value) == Decimal(value) + tmp[32..];
    while magnitude >= 100
      invariant 12 <= cursor <= 32 && Decimal(value) == Decimal(magnitude) + tmp[cursor..]
    {
      ghost var done := tmp[cursor..];
      DecimalByPairs(magnitude);
      var rest := magnitude / 100;
      DecimalDenotes(rest);
      assert |Decimal(value)| == |Decimal(magnitude)| + (32 - cursor);
      cursor := PutPair(tmp, cursor, magnitude % 100);
      Assoc(Decimal(rest), [DigitPairs(magnitude % 100 * 2), DigitPairs(magnitude % 100 * 2 + 1)], done);
      magnitude := rest;
    }
    DecimalLast(magnitude);
    assert |Decimal(value)| == |Decimal(magnitude)| + (32 - cursor);
    if magnitude < 10 {
      ghost var done := tmp[cursor..];
      cursor := cursor - 1;
      tmp[cursor] := ZERO + magnitude;
      assert tmp[cursor..] == [ZERO + magnitude] + done;
    } else {
      cursor := PutPair(tmp, cursor, magnitude);
    }
  }

  /** `pslog_buffer_append_unsigned`, up to the final copy. */
  method FormatUnsigned(value: nat) returns (text: bytes)
    requires value <= U64_MAX
    ensures text == Decimal(value) && |text| <= 20
  {
    var tmp := new byte[32](_ => 0);
    var cursor := PutMagnitude(tmp, value);
    text := tmp[cursor..];
  }

  /** `pslog_buffer_append_signed`, up to the final copy; the least value has no negation to wrap. */
  method FormatSigned(value: int) returns (text: bytes)
    requires I64_MIN <= value <= I64_MAX
    ensures text == SignedText(value) && |text| <= 21
  {
    var tmp := new byte[32](_ => 0);
    var magnitude: nat := if value < 0 then -(value + 1) + 1 else value;
    var cursor := PutMagnitude(tmp, magnitude);
    if value < 0 {
      ghost var done := tmp[cursor..];
      cursor := cursor - 1;
      tmp[cursor] := MINUS;
      assert tmp[cursor..] == [MINUS] + done;
    }
    text := tmp[cursor..];
  }

  // ----- numbers are JSON numbers -----

  lemma {:induction false} SkipAll(s: bytes)
    requires AllDigits(s)
    ensures JsonText.SkipDigits(s) == []
  {
    if s == [] {
    } else {
      SkipAll(s[1..]);
    }
  }

  lemma SignedIsNumber(v: int)
    ensures JsonText.IsNumber(SignedText(v))
  {
    var m: nat := if v < 0 then -v else v;
    var d := Decimal(m);
    DecimalDenotes(m);
    SkipAll(d);
    if v < 0 {
      Tail(MINUS, d);
    } else {
      assert JsonText.IsDigit(d[0]);
    }
  }

  // ----- the Lua parser -----

  datatype U64Result = Ok(value: nat) | NotDecimal | OutOfRange

  lemma DigitStep(s: bytes, i: nat)
    requires i < |s| && AllDigits(s[..i]) && JsonText.IsDigit(s[i])
    ensures AllDigits(s[..i + 1])
    ensures DecimalValue(s[..i + 1]) == DecimalValue(s[..i]) * 10 + (s[i] as int - ZERO as int)
  {
    assert s[..i + 1][..i] == s[..i];
  }

  /**
   Accepts exactly the non-empty digit strings that denote at most 2^64 - 1, as
   the number they denote; otherwise reports the first offence from the left.
   */
  method ParseU64(text: bytes) returns (r: U64Result)
    ensures r.Ok? <==> text != [] && AllDigits(text) && DecimalValue(text) <= U64_MAX
    ensures r.Ok? ==> r.value == DecimalValue(text)
    ensures r.OutOfRange? <==> exists k :: Exceeds(text, k)
  {
    if text == [] {
      return NotDecimal;
    }
    var value, i := 0, 0;
    while i < |text|
      invariant 0 <= i <= |text| && AllDigits(text[..i]) && 0 <= value == DecimalValue(text[..i]) <= U64_MAX
      invariant forall k :: 0 < k <= i ==> !Exceeds(text, k)
    {
      if text[i] < 0x30 || text[i] > 0x39 {
        BadDigitHidesRange(text, i);
        return NotDecimal;
      }
      DigitStep(text, i);
      var d := text[i] as int - 0x30;
      if value > U64_MAX / 10 || (value == U64_MAX / 10 && d > U64_MAX % 10) {
        assert Exceeds(text, i + 1);
        if AllDigits(text) {
          PrefixValue(text, i + 1);
        }
        return OutOfRange;
      }
      value := value * 10 + d;
      i := i + 1;
    }
    assert text[..i] == text;
    r := Ok(value);
  }

  lemma {:induction false} PrefixValue(s: bytes, k: nat)
    requires AllDigits(s) && k <= |s|
    ensures AllDigits(s[..k]) && DecimalValue(s[..k]) <= DecimalValue(s)
  {
    if k == |s| {
      assert s[..k] == s;
    } else {
      var t := s[..|s| - 1];
      PrefixValue(t, k);
      assert t[..k] == s[..k];
    }
  }

  ghost predicate Exceeds(text: bytes, k: int) {
    0 < k <= |text| && AllDigits(text[..k]) && DecimalValue(text[..k]) > U64_MAX
  }

  lemma BadDigitHidesRange(text: bytes, i: nat)
    requires i < |text| && !JsonText.IsDigit(text[i])
    ensures !AllDigits(text) && forall k :: i < k <= |text| ==> !Exceeds(text, k)
  {
    forall k | i < k <= |text|
      ensures !Exceeds(text, k)
    {
      assert text[..k][i] == text[i];
    }
  }

  /** The Lua parser inverts the unsigned printer on every 64-bit value. */
  method PrintThenParse(v: nat) returns (r: U64Result)
    requires v <= U64_MAX
    ensures r == Ok(v)
  {
    var text := FormatUnsigned(v);
    DecimalDenotes(v);
    r := ParseU64(text);
  }
}
