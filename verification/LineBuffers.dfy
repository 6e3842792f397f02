/**
 The line buffer (src/pslog.c, `pslog_buffer_*`, and the append macros of
 src/pslog_internal.h). Over a channel it streams a line in blocks of its
 capacity; without one it grows. Either way it stands for a sequence of bytes
 that appends extend.
 */
module LineBuffers {
  import opened Bytes
  import opened Outputs

  const DEFAULT_CAPACITY: nat := 1024
  const SIZE_MAX: nat := 0xffff_ffff_ffff_ffff

  /** Capacity 0 asks for the default; a capacity with no room for a NUL is refused. */
  function NormalizeCapacity(capacity: nat): Option<nat> {
    var n := if capacity == 0 then DEFAULT_CAPACITY else capacity;
    if n > SIZE_MAX - 1 then None else Some(n)
  }

  /** The capacity a buffer starts with: a wanted one that cannot be had becomes the default. */
  function BlockSize(wanted: nat, heapOk: bool): (c: nat)
    ensures c == if 0 < wanted < 0xffff_ffff_ffff_ffff && (wanted <= 1024 || heapOk) then wanted else 1024
  {
    match NormalizeCapacity(wanted)
    case None => DEFAULT_CAPACITY
    case Some(n) => if n > DEFAULT_CAPACITY && !heapOk then DEFAULT_CAPACITY else n
  }

  ghost predicate GotIs(m0: map<nat, Taken>, m1: map<nat, Taken>, ids: set<nat>, text: bytes) {
    forall id | id in ids :: id in m0 && id in m1 && m1[id].got == m0[id].got + text
  }

  /** What the sinks of an open, all-accepting output have seen after some full blocks. */
  ghost predicate Saw(m0: map<nat, Taken>, m1: map<nat, Taken>, ids: set<nat>, blocks: seq<bytes>) {
    CallsAre(m0, m1, ids, blocks) && GotIs(m0, m1, ids, Concat(blocks))
  }

  lemma SawStart(m: map<nat, Taken>, ids: set<nat>)
    requires ids <= m.Keys
    ensures Saw(m, m, ids, []) && GotIs(m, m, ids, Concat([]))
  {
  }

  /** Each sink has, after what it had, a front part of each of these blocks, in order. */
  ghost predicate Fronted(m0: map<nat, Taken>, m1: map<nat, Taken>, ids: set<nat>, blocks: seq<bytes>) {
    forall id | id in ids :: id in m0 && id in m1 && Grew(m0[id].got, m1[id].got, blocks)
  }

  ghost predicate Grew(g0: bytes, g1: bytes, blocks: seq<bytes>) {
    exists tooks :: FrontsOf(tooks, blocks) && g1 == g0 + Concat(tooks)
  }

  lemma GrewMore(g0: bytes, g1: bytes, blocks: seq<bytes>, took: bytes, block: bytes)
    requires Grew(g0, g1, blocks) && took <= block
    ensures Grew(g0, g1 + took, blocks + [block])
  {
    var tooks :| FrontsOf(tooks, blocks) && g1 == g0 + Concat(tooks);
    FrontsMore(tooks, blocks, took, block);
    ConcatSnoc(tooks, took);
    Assoc(g0, Concat(tooks), took);
  }

  lemma FrontedStart(m: map<nat, Taken>, ids: set<nat>)
    requires ids <= m.Keys
    ensures Fronted(m, m, ids, [])
  {
    forall id | id in ids
      ensures Grew(m[id].got, m[id].got, [])
    {
      assert FrontsOf([], []) && m[id].got == m[id].got + Concat([]);
    }
  }

  lemma FrontedMore(m0: map<nat, Taken>, m1: map<nat, Taken>, m2: map<nat, Taken>, ids: set<nat>,
                    blocks: seq<bytes>, block: bytes, n: nat)
    requires Fronted(m0, m1, ids, blocks) && Advanced(m1, m2, ids, block, n, false)
    ensures Fronted(m0, m2, ids, blocks + [block])
  {
    hide Grew;
    forall id | id in ids
      ensures id in m0 && id in m2 && Grew(m0[id].got, m2[id].got, blocks + [block])
    {
      GrewMore(m0[id].got, m1[id].got, blocks, block[..|m2[id].got| - |m1[id].got|], block);
    }
  }

  /** A block that is dropped leaves nothing anywhere. */
  lemma FrontedDrop(m0: map<nat, Taken>, m1: map<nat, Taken>, ids: set<nat>, blocks: seq<bytes>, block: bytes)
    requires Fronted(m0, m1, ids, blocks)
    ensures Fronted(m0, m1, ids, blocks + [block])
  {
    hide Grew;
    forall id | id in ids
      ensures id in m0 && id in m1 && Grew(m0[id].got, m1[id].got, blocks + [block])
    {
      GrewMore(m0[id].got, m1[id].got, blocks, [], block);
      assert m1[id].got + [] == m1[id].got;
    }
  }

  lemma {:induction false} GotMore(m0: map<nat, Taken>, m1: map<nat, Taken>, m2: map<nat, Taken>, ids: set<nat>,
                blocks: seq<bytes>, block: bytes)
    requires GotIs(m0, m1, ids, Concat(blocks)) && Advanced(m1, m2, ids, block, |block|, false)
    ensures GotIs(m0, m2, ids, Concat(blocks + [block]))
  {
    ConcatSnoc(blocks, block);
    forall id | id in ids
      ensures id in m0 && id in m2 && m2[id].got == m0[id].got + Concat(blocks + [block])
    {
      assert block[..|block|] == block;
      Assoc(m0[id].got, Concat(blocks), block);
    }
  }

  lemma SawMore(m0: map<nat, Taken>, m1: map<nat, Taken>, m2: map<nat, Taken>, ids: set<nat>,
                blocks: seq<bytes>, block: bytes)
    requires Saw(m0, m1, ids, blocks)
    requires CallsAre(m1, m2, ids, [block]) && Advanced(m1, m2, ids, block, |block|, false)
    ensures Saw(m0, m2, ids, blocks + [block])
  {
    CallsGoOn(m0, m1, m2, ids, blocks, block);
    GotMore(m0, m1, m2, ids, blocks, block);
  }

  class LineBuffer {
    const channel: Channel?
    var data: array<byte>
    var len: nat
    var capacity: nat
    var chunkCapacity: nat
    var outputLocked: bool

    /** Everything appended since the line began. */
    ghost var line: bytes
    /** The blocks handed over so far. */
    ghost var blocks: seq<bytes>
    /** The sinks as they were when the line began. */
    ghost const base: map<nat, Taken>
    /** Whether the output is open and its sinks take everything they are offered; or at least something. */
    ghost const quiet: bool
    ghost const kind: bool
    ghost var Repr: set<object>

    ghost predicate Valid()
      reads this, Repr
    {
      this in Repr && data in Repr &&
      (channel != null ==> channel in Repr) &&
      Repr == {this, data} + (if channel == null then {} else {channel}) &&
      1 <= capacity && len <= capacity < data.Length && data[len] == 0 &&
      (forall i :: 0 <= i < |blocks| ==> |blocks[i]| == capacity) &&
      line == Concat(blocks) + data[..len] &&
      (channel == null ==> blocks == [] && !outputLocked) &&
      (channel != null ==>
        channel.Valid() && chunkCapacity == capacity && channel.locked == outputLocked &&
        OnlyTouches(base, channel.taken, SinkIds(channel.output)) &&
        (channel.closed ==> channel.taken == base) &&
        Sent(blocks))
    }

    /**
     What the sinks have of these blocks: a front part of each, whatever
     happened; all of them if no callback fails; in as many calls if they are quiet.
     */
    ghost predicate Sent(bs: seq<bytes>)
      requires channel != null
      reads this, channel
    {
      Fronted(base, channel.taken, SinkIds(channel.output), bs) &&
      (quiet ==> kind && channel.script == [] && Saw(base, channel.taken, SinkIds(channel.output), bs)) &&
      (kind ==> Kind(channel.script) && !channel.closed && !channel.output.Absent? &&
                GotIs(base, channel.taken, SinkIds(channel.output), Concat(bs)))
    }

    /** The buffer held `old(line)` and now holds that and `text`. */
    twostate predicate Appended(text: bytes)
      reads this, Repr
    {
      Valid() && line == old(line) + text && fresh(Repr - old(Repr)) &&
      (channel != null ==> capacity == old(capacity) && channel.closed == old(channel.closed))
    }

    /** The text so far, counted from where `start` ended. */
    ghost predicate Holds(start: bytes, text: bytes)
      reads this, Repr
    {
      Valid() && line == start + text
    }

    /** What appending leaves alone. */
    twostate predicate Kept()
      reads this, Repr, channel
    {
      fresh(Repr - old(Repr)) &&
      (channel != null ==> capacity == old(capacity) && channel.closed == old(channel.closed))
    }

    /** `heapOk` says whether an allocation, where one is needed, succeeds. */
    constructor (channel: Channel?, wanted: nat, heapOk: bool)
      requires channel != null ==> channel.Valid() && !channel.locked
      ensures Valid() && fresh(Repr - (if channel == null then {} else {channel}))
      ensures this.channel == channel && line == [] && blocks == [] && !outputLocked
      ensures capacity == BlockSize(wanted, heapOk)
      ensures channel != null ==> base == channel.taken &&
                                  quiet == (channel.script == [] && !channel.closed && !channel.output.Absent?) &&
                                  kind == (Kind(channel.script) && !channel.closed && !channel.output.Absent?)
    {
      hide Fronted, Saw, GotIs;
      var n := match NormalizeCapacity(wanted) case None => DEFAULT_CAPACITY case Some(n) => n;
      if n > DEFAULT_CAPACITY && !heapOk {
        n := DEFAULT_CAPACITY;
      }
      var store := new byte[if n <= DEFAULT_CAPACITY then DEFAULT_CAPACITY + 1 else n + 1](_ => 0);
      this.channel := channel;
      capacity, chunkCapacity, data, len, outputLocked := n, n, store, 0, false;
      line, blocks := [], [];
      base := if channel == null then map[] else channel.taken;
      quiet := channel != null && channel.script == [] && !channel.closed && !channel.output.Absent?;
      kind := channel != null && Kind(channel.script) && !channel.closed && !channel.output.Absent?;
      Repr := {};
      new;
      Repr := {this, data};
      if channel != null {
        Repr := Repr + {channel};
        SawStart(channel.taken, SinkIds(channel.output));
        FrontedStart(channel.taken, SinkIds(channel.output));
      }
    }

    /**
     Room for `wanted` bytes in a buffer without a channel: double until it is
     enough. `granted` says whether the memory asked for is to be had; if it is
     not, nothing changes.
     */
    method Reserve(wanted: nat, granted: bool) returns (ok: bool)
      requires Valid() && channel == null
      modifies Repr
      ensures Appended([]) && len == old(len) && ok == (wanted <= old(capacity) || granted)
      ensures if ok then capacity >= wanted && capacity >= old(capacity) else capacity == old(capacity)
      ensures capacity == old(capacity) ==> data == old(data) && data[..] == old(data[..])
    {
      assert line + [] == line;
      if wanted <= capacity {
        return true;
      }
      if !granted {
        return false;
      }
      var grown := capacity;
      while grown < wanted
        invariant grown >= capacity
      {
        grown := grown * 2;
      }
      var store := new byte[grown + 1](_ => 0);
      forall i | 0 <= i < len {
        store[i] := data[i];
      }
      assert store[..len] == data[..len];
      data, capacity := store, grown;
      Repr := {this, store};
      ok := true;
    }

    method LockOutput()
      requires Valid()
      modifies Repr
      ensures Appended([]) && data == old(data) && len == old(len) && data[..] == old(data[..])
      ensures channel != null ==> outputLocked
    {
      assert line + [] == line;
      if channel != null && !outputLocked {
        channel.locked := true;
        outputLocked := true;
      }
    }

    /** The buffer is full: hand the block over, drop it if the output is closed, or grow. */
    method Flush()
      requires Valid() && len == capacity
      modifies Repr
      ensures Appended([]) && len < capacity
    {
      if channel == null {
        var _ := Reserve(capacity * 2, true);
        return;
      }
      if channel.output.Absent? {
        FrontedDrop(base, channel.taken, SinkIds(channel.output), blocks, data[..len]);
        Emptied();
        return;
      }
      LockOutput();
      if channel.closed {
        channel.locked := false;
        outputLocked := false;
        FrontedDrop(base, channel.taken, SinkIds(channel.output), blocks, data[..len]);
        Emptied();
        return;
      }
      HandOver();
      Emptied();
    }

    /** Offer the block to the sinks; it stays in the buffer. */
    method HandOver()
      requires Valid() && channel != null && outputLocked && len > 0
      requires !channel.closed && !channel.output.Absent?
      modifies channel
      ensures channel.locked && !channel.closed && channel.Valid()
      ensures OnlyTouches(base, channel.taken, SinkIds(channel.output))
      ensures Sent(blocks + [data[..len]])
    {
      ghost var m1, ids := channel.taken, SinkIds(channel.output);
      var n := channel.WriteLocked(data[..len], chunkCapacity);
      FrontedMore(base, m1, channel.taken, ids, blocks, data[..len], n);
      if kind {
        GotMore(base, m1, channel.taken, ids, blocks, data[..len]);
      }
      if quiet {
        assert Offers(data[..len], chunkCapacity) == [data[..len]];
        SawMore(base, m1, channel.taken, ids, blocks, data[..len]);
      }
    }

    /** `len = 0` after a full block has left the buffer, one way or another. */
    method Emptied()
      requires channel != null && this in Repr && data in Repr && Repr == {this, data, channel}
      requires 1 <= capacity && len == capacity < data.Length
      requires forall i :: 0 <= i < |blocks| ==> |blocks[i]| == capacity
      requires line == Concat(blocks) + data[..len]
      requires channel.Valid() && chunkCapacity == capacity && channel.locked == outputLocked
      requires OnlyTouches(base, channel.taken, SinkIds(channel.output))
      requires channel.closed ==> channel.taken == base
      requires Sent(blocks + [data[..len]])
      modifies this`len, this`blocks, data
      ensures Valid() && len == 0 && capacity == old(capacity) && line == old(line) + []
    {
      ConcatSnoc(blocks, data[..len]);
      blocks := blocks + [data[..len]];
      len := 0;
      data[0] := 0;
      assert Concat(blocks) + data[..0] == Concat(blocks);
      assert line + [] == line;
    }

    /** `memcpy` into the free part of the buffer. */
    method CopyIn(text: bytes)
      requires Valid() && len + |text| <= capacity
      modifies data, this`len, this`line
      ensures Valid() && line == old(line) + text && len == old(len) + |text|
    {
      ghost var before := data[..len];
      forall i | 0 <= i < |text| {
        data[len + i] := text[i];
      }
      assert data[..len] == before;
      assert data[len..len + |text|] == text;
      assert data[..len + |text|] == before + text;
      Assoc(Concat(blocks), before, text);
      len := len + |text|;
      line := line + text;
      EndText();
    }

    method EndText()
      requires len < data.Length
      modifies data
      ensures data[len] == 0 && data[..len] == old(data[..len])
    {
      data[len] := 0;
    }

    method AppendByte(ch: byte)
      requires Valid()
      modifies Repr
      ensures Appended([ch])
    {
      if len == capacity {
        Flush();
      }
      CopyIn([ch]);
      assert old(line) + [] + [ch] == old(line) + [ch];
    }

    /** One turn of the append loop: make room if there is none, copy what fits. */
    method AppendSome(text: bytes) returns (n: nat)
      requires Valid() && text != []
      modifies Repr
      ensures 1 <= n <= |text| && Appended(text[..n]) && len > 0
    {
      if len == capacity {
        Flush();
      }
      n := Min(|text|, capacity - len);
      CopyIn(text[..n]);
      assert old(line) + [] + text[..n] == old(line) + text[..n];
    }

    method Append(text: bytes)
      requires Valid()
      modifies Repr
      ensures Appended(text) && (text != [] ==> len > 0)
    {
      assert line + text[..0] == line;
      var done := 0;
      while done < |text|
        invariant 0 <= done <= |text| && Appended(text[..done]) && (done > 0 ==> len > 0)
      {
        ghost var before := line;
        var n := AppendSome(text[done..]);
        Assoc(old(line), text[..done], text[done..][..n]);
        assert text[..done] + text[done..][..n] == text[..done + n];
        done := done + n;
      }
      assert text[..done] == text;
    }

    /** The append macro: one copy when the text fits, the loop otherwise. */
    method AppendFast(text: bytes)
      requires Valid()
      modifies Repr
      ensures Appended(text) && (text != [] ==> len > 0)
    {
      if capacity - len >= |text| {
        CopyIn(text);
      } else {
        Append(text);
      }
    }

    /** Append after `start` and `text`. */
    method Put(x: bytes, ghost start: bytes, ghost text: bytes)
      requires Holds(start, text)
      modifies Repr
      ensures Holds(start, text + x) && Kept()
    {
      AppendFast(x);
      Assoc(start, text, x);
    }

    /**
     The end of a line: write what is left and let go of the output. A line that
     met only all-accepting sinks has reached each of them in its canonical
     blocks; one that met short writes but no failure has reached each of them
     whole; and whatever happened each sink has a front part of each block and the
     mutex is free.
     */
    method WriteBuffer()
      requires Valid() && channel != null
      modifies Repr
      ensures old(len) == 0 ==> line == old(line) && outputLocked == old(outputLocked) &&
                                channel.taken == old(channel.taken)
      ensures old(len) > 0 ==> !outputLocked && !channel.locked && len == 0
      ensures old(len) > 0 ==> Sent(Blocks(old(line), old(capacity)))
      ensures channel.Valid() && channel.closed == old(channel.closed)
      ensures channel.closed ==> channel.taken == base
      ensures OnlyTouches(base, channel.taken, SinkIds(channel.output))
    {
      hide Fronted, Saw, GotIs;
      if len == 0 {
        return;
      }
      LockOutput();
      ghost var canonical := blocks + [data[..len]];
      assert canonical == Blocks(old(line), old(capacity)) by {
        BlocksUnique(blocks, data[..len], capacity);
        assert line == old(line);
      }
      if !channel.closed && !channel.output.Absent? {
        HandOver();
      } else {
        FrontedDrop(base, channel.taken, SinkIds(channel.output), blocks, data[..len]);
      }
      assert Sent(canonical);
      channel.locked := false;
      outputLocked := false;
      len := 0;
      data[0] := 0;
    }

    /**
     The end of a buffer. The capacity it is left with is the whole inline
     array, with no room for the terminator: it is not a valid buffer any more.
     */
    method Destroy()
      modifies this`data, this`capacity, this`chunkCapacity, this`outputLocked, this`len
      ensures len == 0 && !outputLocked && fresh(data) && capacity == data.Length && !Valid()
    {
      data := new byte[DEFAULT_CAPACITY + 1](_ => 0);
      capacity, chunkCapacity, outputLocked, len := DEFAULT_CAPACITY + 1, DEFAULT_CAPACITY, false, 0;
    }
  }
}
