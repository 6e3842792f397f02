/**
 Erasure of ANSI colour sequences (fuzz/pslog_fuzz.c, `strip_ansi`), the
 function that parity of coloured and plain output is stated with.
 */
module Ansi {
  import opened Bytes

  const M: byte := 0x6d

  /** What follows the first `m`. */
  function AfterM(s: bytes): (t: bytes)
    ensures |t| <= |s|
  {
    if s == [] then [] else if s[0] == M then s[1..] else AfterM(s[1..])
  }

  function Strip(s: bytes): bytes
    decreases |s|
  {
    if s == [] then []
    else if |s| >= 2 && s[0] == ESC && s[1] == BRACKET then Strip(AfterM(s[2..]))
    else [s[0]] + Strip(s[1..])
  }

  /** The loop of `strip_ansi`, with its bound on the destination. */
  method StripAnsi(dst: array<byte>, mem: bytes) returns (out: nat)
    requires dst.Length >= 1 && CString(mem)
    modifies dst
    ensures out < dst.Length && dst[out] == 0
    ensures out == |Strip(Text(mem))| || out == dst.Length - 1
    ensures out <= |Strip(Text(mem))| && dst[..out] == Strip(Text(mem))[..out]
  {
    ghost var s := Text(mem);
    var src := 0;
    out := 0;
    assert s[0..] == s;
    while mem[src] != 0 && out + 1 < dst.Length
      invariant 0 <= src <= |s| && out < dst.Length
      invariant Strip(s) == dst[..out] + Strip(s[src..])
      decreases |s| - src
    {
      if mem[src] == ESC && mem[src + 1] == BRACKET {
        var next := SkipSequence(mem, src + 2);
        assert s[src..][2..] == s[src + 2..];
        src := next;
      } else {
        StepStrip(s, src);
        dst[out] := mem[src];
        assert dst[..out + 1] == dst[..out] + [mem[src]];
        Assoc(dst[..out], [mem[src]], Strip(s[src + 1..]));
        out := out + 1;
        src := src + 1;
      }
    }
    dst[out] := 0;
    if mem[src] == 0 {
      assert s[src..] == [];
    }
  }

  lemma StepStrip(s: bytes, i: nat)
    requires i < |s| && !(i + 1 < |s| && s[i] == ESC && s[i + 1] == BRACKET)
    ensures Strip(s[i..]) == [s[i]] + Strip(s[i + 1..])
  {
    assert s[i..][1..] == s[i + 1..];
  }

  method SkipSequence(mem: bytes, start: nat) returns (next: nat)
    requires CString(mem) && start <= |Text(mem)|
    ensures start <= next <= |Text(mem)|
    ensures Text(mem)[next..] == AfterM(Text(mem)[start..])
  {
    ghost var s := Text(mem);
    next := start;
    while mem[next] != 0 && mem[next] != M
      invariant start <= next <= |s|
      invariant AfterM(s[next..]) == AfterM(s[start..])
      decreases |s| - next
    {
      assert s[next..][1..] == s[next + 1..];
      next := next + 1;
    }
    if mem[next] == M {
      assert s[next..][1..] == s[next + 1..];
      next := next + 1;
    } else {
      assert s[next..] == [];
    }
  }

  // ----- erasure piece by piece -----

  /** No sequence is left open at the end, and no escape byte stands alone. */
  predicate Complete(s: bytes)
    decreases |s|
  {
    s == [] ||
    (s[0] != ESC && Complete(s[1..])) ||
    (|s| >= 2 && s[0] == ESC && s[1] == BRACKET && M in s[2..] && Complete(AfterM(s[2..])))
  }

  predicate NoEscape(s: bytes) {
    forall i :: 0 <= i < |s| ==> s[i] != ESC
  }

  /** A palette entry: any number of complete sequences and nothing else. */
  predicate Colour(s: bytes) {
    Complete(s) && Strip(s) == []
  }

  /** Erasing colours from `c` leaves `p`, whatever comes next. */
  predicate Erases(c: bytes, p: bytes) {
    Complete(c) && Strip(c) == p
  }

  lemma {:induction false} AfterMConcat(a: bytes, b: bytes)
    requires M in a
    ensures AfterM(a + b) == AfterM(a) + b
  {
    if a[0] != M {
      AfterMConcat(a[1..], b);
      assert (a + b)[1..] == a[1..] + b;
    } else {
      assert (a + b)[1..] == a[1..] + b;
    }
  }

  lemma {:induction false} PlainStep(s: bytes)
    requires s != [] && s[0] != ESC
    ensures Strip(s) == [s[0]] + Strip(s[1..]) && (Complete(s) <==> Complete(s[1..]))
  {
  }

  lemma {:induction false} SequenceStep(s: bytes)
    requires |s| >= 2 && s[0] == ESC && s[1] == BRACKET && M in s[2..]
    ensures Strip(s) == Strip(AfterM(s[2..])) && (Complete(s) <==> Complete(AfterM(s[2..])))
  {
  }

  lemma {:induction false} CompleteCases(s: bytes)
    requires Complete(s) && s != []
    ensures s[0] != ESC ==> Complete(s[1..])
    ensures s[0] == ESC ==> |s| >= 2 && s[1] == BRACKET && M in s[2..] && Complete(AfterM(s[2..]))
  {
  }

  lemma {:induction false} PlainConcat(a: bytes, b: bytes)
    requires a != [] && a[0] != ESC
    ensures Strip(a) == [a[0]] + Strip(a[1..]) && (Complete(a) <==> Complete(a[1..]))
    ensures Strip(a + b) == [a[0]] + Strip(a[1..] + b) && (Complete(a + b) <==> Complete(a[1..] + b))
  {
    PlainStep(a);
    PlainStep(a + b);
    assert (a + b)[1..] == a[1..] + b;
  }

  lemma {:induction false} NothingFirst(b: bytes)
    ensures Strip([]) == [] && [] + b == b && [] + Strip(b) == Strip(b)
  {
  }

  lemma {:induction false} StripConcat(a: bytes, b: bytes)
    requires Complete(a)
    ensures Strip(a + b) == Strip(a) + Strip(b)
    ensures Complete(a + b) <==> Complete(b)
    decreases |a|
  {
    hide Strip, Complete, AfterM;
    if a == [] {
      NothingFirst(b);
    } else {
      CompleteCases(a);
      if a[0] != ESC {
        PlainConcat(a, b);
        StripConcat(a[1..], b);
        Assoc([a[0]], Strip(a[1..]), Strip(b));
      } else {
        SequenceConcat(a, b);
        StripConcat(AfterM(a[2..]), b);
      }
    }
  }

  lemma {:induction false} SequenceConcat(a: bytes, b: bytes)
    requires |a| >= 2 && a[0] == ESC && a[1] == BRACKET && M in a[2..]
    ensures |AfterM(a[2..])| < |a|
    ensures Strip(a) == Strip(AfterM(a[2..])) && (Complete(a) <==> Complete(AfterM(a[2..])))
    ensures Strip(a + b) == Strip(AfterM(a[2..]) + b) && (Complete(a + b) <==> Complete(AfterM(a[2..]) + b))
  {
    AfterMConcat(a[2..], b);
    SequenceStep(a);
    assert (a + b)[2..] == a[2..] + b;
    SequenceStep(a + b);
  }

  lemma ErasesConcat(c1: bytes, p1: bytes, c2: bytes, p2: bytes)
    requires Erases(c1, p1) && Erases(c2, p2)
    ensures Erases(c1 + c2, p1 + p2)
  {
    StripConcat(c1, c2);
  }

  lemma {:induction false} TextErases(s: bytes)
    requires NoEscape(s)
    ensures Erases(s, s)
  {
    if s == [] {
    } else {
      TextErases(s[1..]);
      assert [s[0]] + s[1..] == s;
    }
  }

  /** A colour in front, or behind, vanishes. */
  lemma ColourVanishes(k: bytes, c: bytes, p: bytes)
    requires Colour(k) && Erases(c, p)
    ensures Erases(k + c, p) && Erases(c + k, p)
  {
    StripConcat(k, c);
    StripConcat(c, k);
    assert [] + p == p && p + [] == p;
  }

  lemma Wrapped(k: bytes, text: bytes, r: bytes)
    requires Colour(k) && Colour(r) && NoEscape(text)
    ensures Erases(k + text + r, text)
  {
    TextErases(text);
    ColourVanishes(k, text, text);
    ColourVanishes(r, k + text, text);
  }

  // ----- what erasure takes away -----

  /** The sequences that erasure removes, one after the other. */
  function Colours(s: bytes): bytes
    decreases |s|
  {
    if s == [] then []
    else if |s| >= 2 && s[0] == ESC && s[1] == BRACKET then
      s[..|s| - |AfterM(s[2..])|] + Colours(AfterM(s[2..]))
    else Colours(s[1..])
  }

  /** `c` is coloured with `k`, whatever comes next. */
  predicate Wears(c: bytes, k: bytes) {
    Complete(c) && Colours(c) == k
  }

  lemma {:induction false} AfterMIsSuffix(s: bytes)
    ensures AfterM(s) == s[|s| - |AfterM(s)|..]
  {
    if s == [] || s[0] == M {
    } else {
      AfterMIsSuffix(s[1..]);
    }
  }

  lemma {:induction false} SequenceColours(a: bytes, b: bytes)
    requires |a| >= 2 && a[0] == ESC && a[1] == BRACKET && M in a[2..]
    ensures Colours(a) == a[..|a| - |AfterM(a[2..])|] + Colours(AfterM(a[2..]))
    ensures Colours(a + b) == a[..|a| - |AfterM(a[2..])|] + Colours(AfterM(a[2..]) + b)
  {
    AfterMConcat(a[2..], b);
    assert (a + b)[2..] == a[2..] + b;
    var n := |a| - |AfterM(a[2..])|;
    assert |a + b| - |AfterM(a[2..]) + b| == n;
    assert (a + b)[..n] == a[..n];
  }

  lemma {:induction false} PlainColours(a: bytes, b: bytes)
    requires a != [] && a[0] != ESC
    ensures Colours(a) == Colours(a[1..]) && Colours(a + b) == Colours(a[1..] + b)
  {
    assert (a + b)[1..] == a[1..] + b;
  }

  lemma {:induction false} ColoursConcat(a: bytes, b: bytes)
    requires Complete(a)
    ensures Colours(a + b) == Colours(a) + Colours(b)
    decreases |a|
  {
    if a == [] {
      assert a + b == b && Colours(a) + Colours(b) == Colours(b);
    } else {
      hide Strip, Complete, Colours, AfterM;
      CompleteCases(a);
      if a[0] != ESC {
        PlainColours(a, b);
        ColoursConcat(a[1..], b);
      } else {
        SequenceConcat(a, b);
        SequenceColours(a, b);
        var front := a[..|a| - |AfterM(a[2..])|];
        ColoursConcat(AfterM(a[2..]), b);
        Assoc(front, Colours(AfterM(a[2..])), Colours(b));
      }
    }
  }

  lemma WearsConcat(c1: bytes, k1: bytes, c2: bytes, k2: bytes)
    requires Wears(c1, k1) && Wears(c2, k2)
    ensures Wears(c1 + c2, k1 + k2)
  {
    StripConcat(c1, c2);
    ColoursConcat(c1, c2);
  }

  /** Text without escapes wears nothing. */
  lemma {:induction false} TextWears(s: bytes)
    requires NoEscape(s)
    ensures Wears(s, [])
  {
    if s == [] {
    } else {
      TextWears(s[1..]);
    }
  }

  /** A colour wears itself. */
  lemma {:induction false} ColourWears(k: bytes)
    requires Colour(k)
    ensures Wears(k, k)
    decreases |k|
  {
    if k == [] {
    } else {
      CompleteCases(k);
      assert k[0] == ESC;
      SequenceConcat(k, []);
      ColourWears(AfterM(k[2..]));
      AfterMIsSuffix(k[2..]);
      var n := |k| - |AfterM(k[2..])|;
      assert k[n..] == AfterM(k[2..]);
      Halves(k, n);
    }
  }
}
