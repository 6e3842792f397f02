/**
 The scans that classify text before it is logged (src/pslog.c,
 `pslog_string_is_trusted_measure` and its neighbours), over the memory of a C
 string. Every index is in bounds, so no scan reads past the terminator.
 */
module Trust {
  import opened Bytes
  import Utf8
  import JsonString
  import ConsoleString

  /**
   The third UTF-8 recogniser: it finds the end of the text by its terminator
   instead of by a count, testing each byte before it looks at the next.
   */
  function TerminatedLength(mem: bytes, i: nat): (n: nat)
    requires CString(mem) && i < |mem| - 1
    ensures i + n <= |mem| - 1
    ensures n == Utf8.SequenceLength(Text(mem)[i..])
  {
    var ch := mem[i];
    if ch < 0x80 then 1
    else if 0xc2 <= ch <= 0xdf then
      if mem[i + 1] == 0 || !Utf8.Continuation(mem[i + 1]) then 0 else 2
    else if ch == 0xe0 then
      if mem[i + 1] == 0 || mem[i + 2] == 0 || mem[i + 1] < 0xa0 || mem[i + 1] > 0xbf ||
         !Utf8.Continuation(mem[i + 2]) then 0 else 3
    else if 0xe1 <= ch <= 0xec || 0xee <= ch <= 0xef then
      if mem[i + 1] == 0 || mem[i + 2] == 0 || !Utf8.Continuation(mem[i + 1]) ||
         !Utf8.Continuation(mem[i + 2]) then 0 else 3
    else if ch == 0xed then
      if mem[i + 1] == 0 || mem[i + 2] == 0 || mem[i + 1] < 0x80 || mem[i + 1] > 0x9f ||
         !Utf8.Continuation(mem[i + 2]) then 0 else 3
    else if ch == 0xf0 then
      if mem[i + 1] == 0 || mem[i + 2] == 0 || mem[i + 3] == 0 || mem[i + 1] < 0x90 || mem[i + 1] > 0xbf ||
         !Utf8.Continuation(mem[i + 2]) || !Utf8.Continuation(mem[i + 3]) then 0 else 4
    else if 0xf1 <= ch <= 0xf3 then
      if mem[i + 1] == 0 || mem[i + 2] == 0 || mem[i + 3] == 0 || !Utf8.Continuation(mem[i + 1]) ||
         !Utf8.Continuation(mem[i + 2]) || !Utf8.Continuation(mem[i + 3]) then 0 else 4
    else if ch == 0xf4 then
      if mem[i + 1] == 0 || mem[i + 2] == 0 || mem[i + 3] == 0 || mem[i + 1] < 0x80 || mem[i + 1] > 0x8f ||
         !Utf8.Continuation(mem[i + 2]) || !Utf8.Continuation(mem[i + 3]) then 0 else 4
    else 0
  }

  method StringLength(mem: bytes, start: nat) returns (n: nat)
    requires CString(mem) && start < |mem|
    ensures n == |mem| - 1 - start
  {
    n := 0;
    while mem[start + n] != 0
      invariant start + n < |mem|
      decreases |mem| - n
    {
      n := n + 1;
    }
  }

  predicate PlainSoFar(s: bytes, n: nat)
    requires n <= |s|
  {
    forall i :: 0 <= i < n ==> JsonString.PlainByte(s[i])
  }

  lemma PlainBytesOfSequence(s: bytes, i: nat)
    requires i < |s| && Utf8.SequenceLength(s[i..]) > 1
    ensures forall k :: i <= k < i + Utf8.SequenceLength(s[i..]) ==> JsonString.PlainByte(s[k])
  {
    var t := s[i..];
    assert forall k :: 0 <= k < |t| ==> t[k] == s[i + k];
    assert forall k :: 0 <= k < Utf8.SequenceLength(t) ==> t[k] >= 0x80;
  }

  lemma ValidStep(s: bytes, i: nat)
    requires i < |s|
    ensures Utf8.Valid(s[i..]) <==>
            Utf8.SequenceLength(s[i..]) > 0 && Utf8.Valid(s[i + Utf8.SequenceLength(s[i..])..])
  {
    hide Utf8.SequenceLength;
    var n := Utf8.SequenceLength(s[i..]);
    assert s[i..][n..] == s[i + n..];
  }

  lemma EmptyIsValid()
    ensures Utf8.Valid([])
  {
  }

  /**
   True exactly for well-formed UTF-8 without control bytes, DEL, quotation
   marks and backslashes; the length is the whole length either way.
   */
  method IsTrusted(mem: bytes) returns (trusted: bool, len: nat)
    requires CString(mem)
    ensures trusted <==> JsonString.Trusted(Text(mem))
    ensures len == |Text(mem)|
  {
    hide Utf8.SequenceLength, Utf8.Valid;
    var cursor := 0;
    trusted := true;
    ghost var s := Text(mem);
    assert s[0..] == s;
    while mem[cursor] != 0
      invariant 0 <= cursor <= |s|
      invariant trusted <==> PlainSoFar(s, cursor)
      invariant Utf8.Valid(s) <==> Utf8.Valid(s[cursor..])
      decreases |mem| - cursor
    {
      var n := TerminatedLength(mem, cursor);
      ValidStep(s, cursor);
      if n == 0 {
        var tail := StringLength(mem, cursor);
        return false, cursor + tail;
      }
      if n == 1 {
        if !JsonString.PlainByte(mem[cursor]) {
          trusted := false;
        }
      } else {
        PlainBytesOfSequence(s, cursor);
      }
      cursor := cursor + n;
    }
    assert cursor == |s| && s[cursor..] == [];
    EmptyIsValid();
    len := cursor;
  }

  method IsAsciiTrusted(mem: bytes) returns (trusted: bool, len: nat)
    requires CString(mem)
    ensures trusted <==> JsonString.AsciiTrusted(Text(mem))
    ensures len == |Text(mem)|
  {
    trusted, len := true, 0;
    while mem[len] != 0
      invariant 0 <= len <= |Text(mem)|
      invariant trusted <==> forall i :: 0 <= i < len ==> mem[i] < 0x80 && JsonString.PlainByte(mem[i])
      decreases |mem| - len
    {
      var ch := mem[len];
      if ch >= 0x80 || ch < 0x20 || ch == DEL || ch == QUOTE || ch == BACKSLASH {
        trusted := false;
      }
      len := len + 1;
    }
  }

  /** Reports a length only for simple text, as its callers rely on. */
  method IsConsoleSimple(mem: bytes) returns (simple: bool, len: nat)
    requires CString(mem)
    ensures simple <==> ConsoleString.Simple(Text(mem))
    ensures len == if simple then |Text(mem)| else 0
  {
    if mem[0] == 0 {
      return false, 0;
    }
    var n := 0;
    while mem[n] != 0
      invariant 0 <= n <= |Text(mem)|
      invariant forall i :: 0 <= i < n ==> !ConsoleString.NeedsQuotes(mem[i])
      decreases |mem| - n
    {
      if ConsoleString.NeedsQuotes(mem[n]) {
        assert Text(mem)[n] == mem[n];
        return false, 0;
      }
      n := n + 1;
    }
    return true, n;
  }
}
