/**
 UTF-8 as section 4 of RFC 3629 defines it, and the sequence-length recogniser
 of src/pslog.c proved against that definition.
 */
module Utf8 {
  import opened Bytes

  /** A Unicode scalar value: a code point that is not a surrogate. */
  predicate Scalar(c: int) {
    0 <= c < 0xd800 || 0xe000 <= c <= 0x10ffff
  }

  predicate Scalars(cs: seq<int>) {
    forall i :: 0 <= i < |cs| ==> Scalar(cs[i])
  }

  /** The one UTF-8 encoding of a scalar value. */
  function EncodeScalar(c: int): bytes
    requires Scalar(c)
  {
    if c < 0x80 then [c]
    else if c < 0x800 then [0xc0 + c / 64, 0x80 + c % 64]
    else if c < 0x10000 then [0xe0 + c / 4096, 0x80 + c / 64 % 64, 0x80 + c % 64]
    else [0xf0 + c / 262144, 0x80 + c / 4096 % 64, 0x80 + c / 64 % 64, 0x80 + c % 64]
  }

  function EncodeAll(cs: seq<int>): bytes
    requires Scalars(cs)
  {
    if cs == [] then [] else EncodeScalar(cs[0]) + EncodeAll(cs[1..])
  }

  predicate Continuation(b: byte) {
    0x80 <= b <= 0xbf
  }

  /** Length of the UTF-8 sequence at the front of `s`, 0 when there is none. */
  function SequenceLength(s: bytes): (n: nat)
    ensures n <= |s| && n <= 4
  {
    if |s| == 0 then 0
    else
      var ch := s[0];
      if ch < 0x80 then 1
      else if 0xc2 <= ch <= 0xdf then
        if |s| < 2 || !Continuation(s[1]) then 0 else 2
      else if ch == 0xe0 then
        if |s| < 3 || s[1] < 0xa0 || s[1] > 0xbf || !Continuation(s[2]) then 0 else 3
      else if 0xe1 <= ch <= 0xec || 0xee <= ch <= 0xef then
        if |s| < 3 || !Continuation(s[1]) || !Continuation(s[2]) then 0 else 3
      else if ch == 0xed then
        if |s| < 3 || s[1] < 0x80 || s[1] > 0x9f || !Continuation(s[2]) then 0 else 3
      else if ch == 0xf0 then
        if |s| < 4 || s[1] < 0x90 || s[1] > 0xbf || !Continuation(s[2]) || !Continuation(s[3]) then 0 else 4
      else if 0xf1 <= ch <= 0xf3 then
        if |s| < 4 || !Continuation(s[1]) || !Continuation(s[2]) || !Continuation(s[3]) then 0 else 4
      else if ch == 0xf4 then
        if |s| < 4 || s[1] < 0x80 || s[1] > 0x8f || !Continuation(s[2]) || !Continuation(s[3]) then 0 else 4
      else 0
  }

  function Two(b0: int, b1: int): int {
    (b0 - 0xc0) * 64 + (b1 - 0x80)
  }

  function Three(b0: int, b1: int, b2: int): int {
    (b0 - 0xe0) * 4096 + (b1 - 0x80) * 64 + (b2 - 0x80)
  }

  function Four(b0: int, b1: int, b2: int, b3: int): int {
    (b0 - 0xf0) * 262144 + (b1 - 0x80) * 4096 + (b2 - 0x80) * 64 + (b3 - 0x80)
  }

  /** The scalar value that the recognised front sequence stands for. */
  function FrontScalar(s: bytes): int
    requires SequenceLength(s) > 0
  {
    var n := SequenceLength(s);
    if n == 1 then s[0]
    else if n == 2 then Two(s[0], s[1])
    else if n == 3 then Three(s[0], s[1], s[2])
    else Four(s[0], s[1], s[2], s[3])
  }

  lemma Digit(q: int, r: int)
    requires 0 <= r < 64
    ensures (q * 64 + r) / 64 == q && (q * 64 + r) % 64 == r
  {
  }

  /** Base-64 digits are unique: splitting a code point undoes joining it. */
  lemma Digits(d0: int, d1: int, d2: int, d3: int)
    requires 0 <= d1 < 64 && 0 <= d2 < 64 && 0 <= d3 < 64
    ensures var c := d0 * 262144 + d1 * 4096 + d2 * 64 + d3;
            c / 262144 == d0 && c / 4096 % 64 == d1 && c / 64 % 64 == d2 && c % 64 == d3 &&
            c / 4096 == d0 * 64 + d1 && c / 64 == d0 * 4096 + d1 * 64 + d2
  {
    var c := d0 * 262144 + d1 * 4096 + d2 * 64 + d3;
    var c2 := d0 * 4096 + d1 * 64 + d2;
    var c1 := d0 * 64 + d1;
    Digit(c2, d3);
    Digit(c1, d2);
    Digit(d0, d1);
    assert c == c2 * 64 + d3 && c2 == c1 * 64 + d2;
  }

  /** Every number has base-64 digits. */
  lemma Split(c: int) returns (d0: int, d1: int, d2: int, d3: int)
    ensures 0 <= d1 < 64 && 0 <= d2 < 64 && 0 <= d3 < 64
    ensures c == d0 * 262144 + d1 * 4096 + d2 * 64 + d3
    ensures c / 262144 == d0 && c / 4096 % 64 == d1 && c / 64 % 64 == d2 && c % 64 == d3
    ensures c / 4096 == d0 * 64 + d1 && c / 64 == d0 * 4096 + d1 * 64 + d2
  {
    d3 := c % 64;
    var c2 := c / 64;
    d2 := c2 % 64;
    var c1 := c2 / 64;
    d1 := c1 % 64;
    d0 := c1 / 64;
    assert c == c2 * 64 + d3 && c2 == c1 * 64 + d2 && c1 == d0 * 64 + d1;
    Digits(d0, d1, d2, d3);
  }

  /** The encodings, digit by digit: no division is left in them. */
  lemma EncodeDigits(d0: int, d1: int, d2: int, d3: int)
    requires 0 <= d1 < 64 && 0 <= d2 < 64 && 0 <= d3 < 64
    requires Scalar(d0 * 262144 + d1 * 4096 + d2 * 64 + d3)
    ensures var c := d0 * 262144 + d1 * 4096 + d2 * 64 + d3;
            EncodeScalar(c) == if c < 0x80 then [c]
                               else if c < 0x800 then [0xc0 + d2, 0x80 + d3]
                               else if c < 0x10000 then [0xe0 + d1, 0x80 + d2, 0x80 + d3]
                               else [0xf0 + d0, 0x80 + d1, 0x80 + d2, 0x80 + d3]
  {
    Digits(d0, d1, d2, d3);
  }

  /** Whatever the recogniser accepts is the encoding of one scalar value. */
  lemma RecogniserSound(s: bytes)
    requires SequenceLength(s) > 0
    ensures Scalar(FrontScalar(s))
    ensures EncodeScalar(FrontScalar(s)) == s[..SequenceLength(s)]
  {
    hide EncodeScalar;
    var n := SequenceLength(s);
    var b0: int := s[0];
    if n == 1 {
      EncodeDigits(0, 0, b0 / 64, b0 % 64);
      assert s[..1] == [s[0]];
    } else if n == 2 {
      var b1: int := s[1];
      EncodeDigits(0, 0, b0 - 0xc0, b1 - 0x80);
      assert s[..2] == [s[0], s[1]];
    } else if n == 3 {
      var b1: int, b2: int := s[1], s[2];
      EncodeDigits(0, b0 - 0xe0, b1 - 0x80, b2 - 0x80);
      assert s[..3] == [s[0], s[1], s[2]];
    } else {
      var b1: int, b2: int, b3: int := s[1], s[2], s[3];
      EncodeDigits(b0 - 0xf0, b1 - 0x80, b2 - 0x80, b3 - 0x80);
      assert s[..4] == [s[0], s[1], s[2], s[3]];
    }
  }

  lemma CompleteShort(c: int, s: bytes)
    requires Scalar(c) && c < 0x800
    requires EncodeScalar(c) <= s
    ensures SequenceLength(s) == |EncodeScalar(c)| && FrontScalar(s) == c
  {
    var d0, d1, d2, d3 := Split(c);
    hide EncodeScalar;
    EncodeDigits(d0, d1, d2, d3);
    assert s[0] == EncodeScalar(c)[0];
    if c >= 0x80 {
      assert s[1] == EncodeScalar(c)[1];
    }
  }

  lemma CompleteThree(c: int, s: bytes)
    requires Scalar(c) && 0x800 <= c < 0x10000
    requires EncodeScalar(c) <= s
    ensures SequenceLength(s) == |EncodeScalar(c)| && FrontScalar(s) == c
  {
    var d0, d1, d2, d3 := Split(c);
    hide EncodeScalar;
    EncodeDigits(d0, d1, d2, d3);
    assert s[0] == EncodeScalar(c)[0] && s[1] == EncodeScalar(c)[1] && s[2] == EncodeScalar(c)[2];
  }

  lemma CompleteFour(c: int, s: bytes)
    requires Scalar(c) && 0x10000 <= c
    requires EncodeScalar(c) <= s
    ensures SequenceLength(s) == |EncodeScalar(c)| && FrontScalar(s) == c
  {
    var d0, d1, d2, d3 := Split(c);
    hide EncodeScalar;
    EncodeDigits(d0, d1, d2, d3);
    var e := EncodeScalar(c);
    assert s[0] == e[0] && s[1] == e[1] && s[2] == e[2] && s[3] == e[3];
  }

  /** The recogniser accepts the encoding of every scalar value, in any context. */
  lemma RecogniserComplete(c: int, rest: bytes)
    requires Scalar(c)
    ensures var s := EncodeScalar(c) + rest;
            SequenceLength(s) == |EncodeScalar(c)| && FrontScalar(s) == c
  {
    hide *;
    if c < 0x800 {
      CompleteShort(c, EncodeScalar(c) + rest);
    } else if c < 0x10000 {
      CompleteThree(c, EncodeScalar(c) + rest);
    } else {
      CompleteFour(c, EncodeScalar(c) + rest);
    }
  }

  lemma {:induction false} ValidCons(c: int, rest: bytes)
    requires Scalar(c)
    ensures Valid(EncodeScalar(c) + rest) <==> Valid(rest)
    ensures CodePoints(EncodeScalar(c) + rest) == [c] + CodePoints(rest)
  {
    hide SequenceLength;
    var e := EncodeScalar(c);
    RecogniserComplete(c, rest);
    assert (e + rest)[|e|..] == rest;
  }

  /** The answer depends on the recognised bytes alone. */
  lemma RecogniserLocal(s: bytes, rest: bytes)
    requires SequenceLength(s) > 0
    ensures var t := s[..SequenceLength(s)] + rest;
            SequenceLength(t) == SequenceLength(s) && FrontScalar(t) == FrontScalar(s)
  {
    RecogniserSound(s);
    RecogniserComplete(FrontScalar(s), rest);
  }

  /** Well-formed text, as the recogniser loop decides it. */
  predicate Valid(s: bytes) {
    s == [] || (SequenceLength(s) > 0 && Valid(s[SequenceLength(s)..]))
  }

  /**
   The code points of any byte string; a byte that starts no UTF-8 sequence
   stands for the code point with its own number (the Latin-1 fallback).
   */
  function CodePoints(s: bytes): (cs: seq<int>)
    ensures Scalars(cs)
  {
    if s == [] then []
    else if SequenceLength(s) == 0 then [s[0]] + CodePoints(s[1..])
    else
      RecogniserSound(s);
      [FrontScalar(s)] + CodePoints(s[SequenceLength(s)..])
  }

  lemma {:induction false} EncodeAllValid(cs: seq<int>)
    requires Scalars(cs)
    ensures Valid(EncodeAll(cs)) && CodePoints(EncodeAll(cs)) == cs
  {
    if cs == [] {
    } else {
      EncodeAllValid(cs[1..]);
      ValidCons(cs[0], EncodeAll(cs[1..]));
    }
  }

  /**
   Text is well-formed exactly when re-encoding its code points gives it back,
   which is when it is the encoding of some sequence of scalar values.
   */
  lemma {:induction false} ValidIffEncoded(s: bytes)
    ensures Valid(s) <==> EncodeAll(CodePoints(s)) == s
    ensures Valid(s) <==> exists cs | Scalars(cs) :: EncodeAll(cs) == s
  {
    if Valid(s) {
      ValidRoundTrips(s);
      assert exists cs | Scalars(cs) :: EncodeAll(cs) == s;
    }
    if EncodeAll(CodePoints(s)) == s {
      EncodeAllValid(CodePoints(s));
    }
    if cs :| Scalars(cs) && EncodeAll(cs) == s {
      EncodeAllValid(cs);
    }
  }

  lemma {:induction false} EncodeCons(c: int, cs: seq<int>)
    requires Scalar(c) && Scalars(cs)
    ensures Scalars([c] + cs) && EncodeAll([c] + cs) == EncodeScalar(c) + EncodeAll(cs)
  {
    assert ([c] + cs)[1..] == cs;
  }

  lemma {:induction false} ValidRoundTrips(s: bytes)
    requires Valid(s)
    ensures EncodeAll(CodePoints(s)) == s
  {
    if s == [] {
    } else {
      var n := SequenceLength(s);
      ValidRoundTrips(s[n..]);
      RecogniserSound(s);
      EncodeCons(FrontScalar(s), CodePoints(s[n..]));
    }
  }

  lemma {:induction false} ValidConcat(a: bytes, b: bytes)
    requires Valid(a)
    ensures Valid(a + b) <==> Valid(b)
    ensures CodePoints(a + b) == CodePoints(a) + CodePoints(b)
    decreases |a|
  {
    if a == [] {
      assert a + b == b;
    } else {
      hide SequenceLength, FrontScalar, EncodeScalar;
      var n := SequenceLength(a);
      var c, t := FrontScalar(a), a[n..];
      RecogniserSound(a);
      Halves(a, n);
      ValidCons(c, t);
      ValidConcat(t, b);
      ValidCons(c, t + b);
      Assoc(EncodeScalar(c), t, b);
      Assoc([c], CodePoints(t), CodePoints(b));
    }
  }

  lemma {:induction false} AsciiValid(s: bytes)
    requires forall i :: 0 <= i < |s| ==> s[i] < 0x80
    ensures Valid(s)
    ensures CodePoints(s) == s
  {
    if s == [] {
    } else {
      AsciiValid(s[1..]);
    }
  }
}
