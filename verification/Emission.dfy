/** What both emitters share: what C can hold, colours, timestamps, and the end of a line. */
module Emission {
  import opened Bytes
  import opened Outputs
  import opened LineBuffers
  import opened Events
  import opened Render
  import JsonString
  import Integers

  /** What C strings and C integers can hold. */
  predicate Representable(f: Field) {
    NulFree(f.key) && (f.value.Str? ==> NulFree(f.value.text)) &&
    (f.value.Signed? ==> Integers.I64_MIN <= f.value.i <= Integers.I64_MAX) &&
    (f.value.Unsigned? ==> f.value.u <= Integers.U64_MAX)
  }

  predicate AllRepresentable(fs: seq<Field>) {
    forall i :: 0 <= i < |fs| ==> Representable(fs[i])
  }

  ghost predicate ErrnoTexts(p: Platform) {
    forall code :: NulFree(p.errno(code))
  }

  method AppendPaint(b: LineBuffer, sh: Shared, colour: bytes)
    requires b.Valid()
    modifies b.Repr
    ensures b.Appended(Paint(sh, colour))
  {
    if sh.colour {
      b.AppendFast(colour);
    } else {
      assert b.line + [] == b.line;
    }
  }

  /** Hexadecimal bytes between quotation marks. */
  method AppendBlob(b: LineBuffer, data: bytes)
    requires b.Valid()
    modifies b.Repr
    ensures b.Appended(JsonString.Quote(Hex(data)))
  {
    hide LineBuffer.Valid, Hex;
    ghost var start := b.line;
    b.AppendFast([QUOTE]);
    AppendHex(b, data);
    b.AppendFast([QUOTE]);
    Assoc(start, [QUOTE], Hex(data));
    Assoc(start, [QUOTE] + Hex(data), [QUOTE]);
  }

  /** `pslog_append_timestamp` between quotation marks, copied in place where it fits. */
  method AppendStamp(b: LineBuffer, stamp: bytes)
    requires b.Valid()
    modifies b.Repr
    ensures b.Appended(stamp)
  {
    if |stamp| <= b.capacity - b.len {
      b.CopyIn(stamp);
    } else {
      b.AppendFast(stamp);
    }
  }

  lemma Middle(start: bytes, h: bytes, s: bytes, m: bytes, f: bytes)
    ensures start + h + s + m + f == start + (h + (s + m) + f)
  {
    Assoc(start + h, s, m);
    Assoc(start, h, s + m);
    Assoc(start, h + (s + m), f);
  }

  /**
   What an emission leaves behind: the mutex free, a closed output untouched,
   every sink of an open one with a front part of each canonical block of the
   line, with the whole line if none of them fails, and in one call a block if
   they take whatever they are offered.
   */
  twostate predicate Delivered(channel: Channel, line: bytes, size: nat)
    requires size >= 1
    reads channel
  {
    !channel.locked && channel.closed == old(channel.closed) && channel.Valid() &&
    OnlyTouches(old(channel.taken), channel.taken, SinkIds(channel.output)) &&
    (channel.closed ==> channel.taken == old(channel.taken)) &&
    Fronted(old(channel.taken), channel.taken, SinkIds(channel.output), Blocks(line, size)) &&
    (Kind(old(channel.script)) && !channel.closed && !channel.output.Absent? ==>
       GotIs(old(channel.taken), channel.taken, SinkIds(channel.output), line)) &&
    (old(channel.script) == [] && !channel.closed && !channel.output.Absent? ==>
       channel.script == [] &&
       Saw(old(channel.taken), channel.taken, SinkIds(channel.output), Blocks(line, size)))
  }

  /** The end of every emitter: the last write. */
  method Finish(b: LineBuffer, channel: Channel, ghost line: bytes)
    requires b.Valid() && b.channel == channel && b.line == line && b.len > 0
    modifies b.Repr
    ensures !channel.locked && channel.Valid() && channel.closed == old(channel.closed)
    ensures channel.closed ==> channel.taken == b.base
    ensures OnlyTouches(b.base, channel.taken, SinkIds(channel.output))
    ensures b.Sent(Blocks(line, old(b.capacity)))
  {
    b.WriteBuffer();
  }
}
