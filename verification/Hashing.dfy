/** The multiplicative hash that the caches share, on a 64-bit `unsigned long`. */
module Hashing {
  import opened Bytes

  function HashFrom(h: bv64, text: bytes): bv64
    decreases |text|
  {
    if text == [] then h else HashFrom((h ^ (text[0] as bv64)) * 16777619, text[1..])
  }

  /** The entry a probe looks at, in a table of `size` entries. */
  function Index(home: nat, probe: nat, size: nat): (i: nat)
    requires size > 0
    ensures i < size
  {
    (home + probe) % size
  }

  function Hash(text: bytes): bv64 {
    HashFrom(1469598103, text)
  }
}
