/** Bytes, C strings and the few sequence helpers that every other module uses. */
module Bytes {

  type byte = x: int | 0 <= x < 256
  type bytes = seq<byte>

  datatype Option<+T> = None | Some(value: T)

  const NL: byte := 0x0a
  const CR: byte := 0x0d
  const TAB: byte := 0x09
  const ESC: byte := 0x1b
  const SPACE: byte := 0x20
  const QUOTE: byte := 0x22
  const PERCENT: byte := 0x25
  const COMMA: byte := 0x2c
  const MINUS: byte := 0x2d
  const ZERO: byte := 0x30
  const COLON: byte := 0x3a
  const EQUALS: byte := 0x3d
  const BRACKET: byte := 0x5b
  const BACKSLASH: byte := 0x5c
  const DEL: byte := 0x7f

  /** The bytes before the terminator of a C string never hold a NUL. */
  predicate NulFree(s: bytes) {
    forall i :: 0 <= i < |s| ==> s[i] != 0
  }

  /** The memory a C string occupies: its bytes and one terminator. */
  predicate CString(mem: bytes) {
    |mem| > 0 && mem[|mem| - 1] == 0 && NulFree(mem[..|mem| - 1])
  }

  function Text(mem: bytes): bytes
    requires CString(mem)
  {
    mem[..|mem| - 1]
  }

  predicate IsAscii(s: string) {
    forall i :: 0 <= i < |s| ==> s[i] < '\U{80}'
  }

  /** ASCII text written out: what specifications spell names and labels with. */
  function Ascii(s: string): (t: bytes)
    requires IsAscii(s)
    ensures |t| == |s| && forall i :: 0 <= i < |t| ==> t[i] == s[i] as int < 0x80
  {
    seq(|s|, i requires 0 <= i < |s| => s[i] as int)
  }

  /** Lower-case hexadecimal digit, as in the table `0123456789abcdef`. */
  function HexDigit(n: int): byte
    requires 0 <= n < 16
  {
    if n < 10 then ZERO + n else 0x61 + (n - 10)
  }

  function HexPair(b: byte): bytes {
    [HexDigit(b / 16), HexDigit(b % 16)]
  }

  lemma Assoc<T>(a: seq<T>, b: seq<T>, c: seq<T>)
    ensures (a + b) + c == a + (b + c)
  {
  }

  lemma Halves<T>(s: seq<T>, n: nat)
    requires n <= |s|
    ensures s == s[..n] + s[n..]
  {
  }

  lemma Tail<T>(x: T, s: seq<T>)
    ensures ([x] + s)[1..] == s
  {
  }

  lemma Suffix<T>(a: seq<T>, b: seq<T>)
    ensures (a + b)[|a|..] == b
    ensures (a + b)[..|a|] == a
  {
  }

  function Concat(parts: seq<bytes>): bytes {
    if parts == [] then [] else parts[0] + Concat(parts[1..])
  }

  lemma {:induction false} ConcatAppend(a: seq<bytes>, b: seq<bytes>)
    ensures Concat(a + b) == Concat(a) + Concat(b)
  {
    if a == [] {
      assert a + b == b;
    } else {
      ConcatAppend(a[1..], b);
      assert (a + b)[1..] == a[1..] + b;
      Assoc(a[0], Concat(a[1..]), Concat(b));
    }
  }

  lemma {:induction false} ConcatSnoc(a: seq<bytes>, x: bytes)
    ensures Concat(a + [x]) == Concat(a) + x
  {
    ConcatAppend(a, [x]);
    assert [x][1..] == [];
    assert Concat([x]) == x + Concat([]) == x;
  }
}
