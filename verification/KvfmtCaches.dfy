/**
 The two caches in front of the kvfmt parser (src/pslog.c,
 `pslog_resolve_kvfmt_entry`): a table of layouts found by the hash of the text,
 and a table of addresses that remembers where a text was found last.
 */
module KvfmtCaches {
  import opened Bytes
  import opened Hashing
  import opened Kvfmt

  const SIZE: nat := 512
  const PROBE: nat := 8
  const PTR_SIZE: nat := 256

  function Home(h: bv64): (slot: nat)
    ensures slot < SIZE
  {
    (h % 512) as nat
  }

  /** `pslog_kvfmt_pointer_slot` */
  function PointerSlot(address: bv64): (slot: nat)
    ensures slot < PTR_SIZE
  {
    var v := address ^ (address >> 4);
    ((v ^ (v >> 9)) % 256) as nat
  }

  datatype Slot = Empty | Full(text: bytes, hash: bv64, layout: seq<Spec>)
  /** The address a text was last passed at, and the slot it was found in. */
  datatype Pointer = NoPointer | Pointer(input: bv64, entry: nat)

  /** A slot of the probe window of `h`. */
  predicate InWindow(h: bv64, i: nat) {
    exists probe :: 0 <= probe < PROBE && i == Index(Home(h), probe, SIZE)
  }

  predicate SlotOk(slot: Slot, i: nat) {
    slot.Full? ==> slot.hash == Hash(slot.text) && Parse(slot.text) == Some(slot.layout) && InWindow(slot.hash, i)
  }

  predicate Slots(slots: seq<Slot>) {
    |slots| == SIZE &&
    (forall i :: 0 <= i < SIZE ==> SlotOk(slots[i], i)) &&
    (forall i, j :: 0 <= i < j < SIZE && slots[i].Full? && slots[j].Full? ==> slots[i].text != slots[j].text)
  }

  predicate Pointers(slots: seq<Slot>, ptrs: seq<Pointer>)
    requires |slots| == SIZE
  {
    |ptrs| == PTR_SIZE &&
    forall p :: 0 <= p < PTR_SIZE && ptrs[p].Pointer? ==> ptrs[p].entry < SIZE && slots[ptrs[p].entry].Full?
  }

  /** Every slot that was in use holds what it held. */
  predicate Kept(before: seq<Slot>, after: seq<Slot>) {
    |before| == |after| == SIZE && forall i :: 0 <= i < SIZE && before[i].Full? ==> after[i] == before[i]
  }

  /** No slot of the window of `h` before probe `n` holds `text`. */
  predicate Absent(slots: seq<Slot>, h: bv64, text: bytes, n: nat)
    requires |slots| == SIZE
  {
    forall probe :: 0 <= probe < n ==>
      slots[Index(Home(h), probe, SIZE)].Full? ==> slots[Index(Home(h), probe, SIZE)].text != text
  }

  /** The slots of the window of `h` before probe `n` are all in use. */
  predicate Crowded(slots: seq<Slot>, h: bv64, n: nat)
    requires |slots| == SIZE
  {
    forall probe :: 0 <= probe < n ==> slots[Index(Home(h), probe, SIZE)].Full?
  }

  /** `i` is the first free slot of the window of `h`. */
  predicate FirstFree(slots: seq<Slot>, h: bv64, i: nat)
    requires |slots| == SIZE
  {
    exists probe :: 0 <= probe < PROBE && i == Index(Home(h), probe, SIZE) && slots[i].Empty? && Crowded(slots, h, probe)
  }

  lemma AbsentEverywhere(slots: seq<Slot>, text: bytes)
    requires Slots(slots) && Absent(slots, Hash(text), text, PROBE)
    ensures forall i :: 0 <= i < SIZE && slots[i].Full? ==> slots[i].text != text
  {
    hide Hash, Parse, Home, Index;
    forall i | 0 <= i < SIZE && slots[i].Full?
      ensures slots[i].text != text
    {
      assert SlotOk(slots[i], i);
    }
  }

  lemma Published(slots: seq<Slot>, ptrs: seq<Pointer>, i: nat, probe: nat, text: bytes, layout: seq<Spec>)
    requires Slots(slots) && Pointers(slots, ptrs) && Absent(slots, Hash(text), text, PROBE)
    requires probe < PROBE && i == Index(Home(Hash(text)), probe, SIZE) && slots[i].Empty? && Parse(text) == Some(layout)
    ensures Slots(slots[i := Full(text, Hash(text), layout)])
    ensures Pointers(slots[i := Full(text, Hash(text), layout)], ptrs)
    ensures Kept(slots, slots[i := Full(text, Hash(text), layout)])
  {
    AbsentEverywhere(slots, text);
    hide Hash, Parse, Home, Index;
    assert InWindow(Hash(text), i);
  }

  class Cache {
    var slots: array<Slot>
    var ptrs: array<Pointer>

    ghost predicate Valid()
      reads this, slots, ptrs
    {
      slots.Length == SIZE && ptrs.Length == PTR_SIZE && Slots(slots[..]) && Pointers(slots[..], ptrs[..])
    }

    constructor ()
      ensures Valid() && fresh(slots) && fresh(ptrs)
    {
      slots := new Slot[SIZE](_ => Empty);
      ptrs := new Pointer[PTR_SIZE](_ => NoPointer);
    }

    /** The address table: the same address, and the text there still the one remembered. */
    method FindByAddress(address: bv64, text: bytes) returns (found: Option<nat>)
      requires Valid()
      ensures found.Some? ==> found.value < SIZE && slots[found.value].Full? && slots[found.value].text == text
    {
      var p := ptrs[PointerSlot(address)];
      assert p == ptrs[..][PointerSlot(address)];
      if p.Pointer? && p.input == address && slots[p.entry].Full? && slots[p.entry].text == text {
        return Some(p.entry);
      }
      return None;
    }

    /** The probe window: the slot that holds the text, or else the first free one. */
    method Probe(text: bytes) returns (found: Option<nat>, free: Option<nat>)
      requires Valid()
      ensures found.Some? ==> found.value < SIZE && slots[found.value].Full? && slots[found.value].text == text
      ensures found.None? ==> Absent(slots[..], Hash(text), text, PROBE)
      ensures free.Some? ==> free.value < SIZE && slots[free.value].Empty? && FirstFree(slots[..], Hash(text), free.value)
      ensures found.None? && free.None? ==> Crowded(slots[..], Hash(text), PROBE)
    {
      hide Hash, Home, Index, Parse;
      var hash := Hash(text);
      var home := Home(hash);
      found, free := None, None;
      for probe := 0 to PROBE
        invariant Absent(slots[..], hash, text, probe)
        invariant free.Some? ==>
                    free.value < SIZE && slots[free.value].Empty? && FirstFree(slots[..], hash, free.value)
        invariant free.None? ==> Crowded(slots[..], hash, probe)
      {
        var i := Index(home, probe, SIZE);
        var slot := slots[i];
        assert slots[..][i] == slot && SlotOk(slots[..][i], i);
        if slot.Full? && slot.hash == hash && slot.text == text {
          return Some(i), free;
        }
        if free.None? && slot.Empty? {
          free := Some(i);
        }
      }
    }

    /** Parse into a free slot; a text that does not parse leaves the slot free. */
    method Publish(text: bytes, i: nat) returns (ok: bool)
      requires Valid() && i < SIZE && slots[i].Empty? && Absent(slots[..], Hash(text), text, PROBE) && NulFree(text)
      requires FirstFree(slots[..], Hash(text), i)
      modifies slots
      ensures Valid() && Kept(old(slots[..]), slots[..])
      ensures ok <==> Parse(text).Some?
      ensures ok ==> slots[i].Full? && slots[i].text == text
      ensures !ok ==> slots[..] == old(slots[..])
    {
      hide Hash, Home, Index, Parse;
      ghost var probe :| 0 <= probe < PROBE && i == Index(Home(Hash(text)), probe, SIZE);
      ghost var before := slots[..];
      assert (text + [0])[..|text|] == text;
      var layout := ParseLayout(text + [0]);
      if layout.None? {
        return false;
      }
      Published(before, ptrs[..], i, probe, text, layout.value);
      slots[i] := Full(text, Hash(text), layout.value);
      assert slots[..] == before[i := Full(text, Hash(text), layout.value)];
      return true;
    }

    /** Remember where the text at an address was found. */
    method Remember(address: bv64, entry: nat)
      requires Valid() && entry < SIZE && slots[entry].Full?
      modifies ptrs
      ensures Valid() && slots[..] == old(slots[..])
    {
      hide Slots, PointerSlot;
      ghost var before := ptrs[..];
      ptrs[PointerSlot(address)] := Pointer(address, entry);
      assert ptrs[..] == before[PointerSlot(address) := Pointer(address, entry)];
      assert slots[..][entry] == slots[entry];
    }

    /**
     `pslog_resolve_kvfmt_entry` on the bytes now at `address`. The result is
     that of a fresh parse, whatever the table holds and whatever the address
     held before; slots in use are never touched. `entry` is the slot that the
     caller goes on using after it has let go of the mutex. There is one for
     every format that parses, unless its whole window is in use for others.
     */
    method Resolve(address: bv64, text: bytes) returns (layout: Option<seq<Spec>>, entry: Option<nat>)
      requires Valid() && NulFree(text)
      modifies slots, ptrs
      ensures Valid() && Kept(old(slots[..]), slots[..])
      ensures layout == Parse(text)
      ensures entry.Some? ==> entry.value < SIZE && slots[entry.value].Full? && layout == Some(slots[entry.value].layout)
      ensures entry.Some? ==> slots[entry.value].text == text
      ensures layout.Some? && entry.None? ==> slots[..] == old(slots[..]) && Crowded(slots[..], Hash(text), PROBE)
      ensures layout.None? ==> slots[..] == old(slots[..])
    {
      hide Hash, Home, Index, Parse, Slots, Pointers, Crowded, FirstFree;
      var found := FindByAddress(address, text);
      if found.Some? {
        LayoutAt(slots[..], found.value);
        return Some(slots[found.value].layout), found;
      }
      var free;
      found, free := Probe(text);
      if found.None? && free.Some? {
        var ok := Publish(text, free.value);
        if !ok {
          return None, None;
        }
        found := free;
      }
      if found.None? {
        assert (text + [0])[..|text|] == text;
        layout := ParseLayout(text + [0]);
        return layout, None;
      }
      Remember(address, found.value);
      LayoutAt(slots[..], found.value);
      return Some(slots[found.value].layout), found;
    }
  }

  lemma LayoutAt(slots: seq<Slot>, i: nat)
    requires Slots(slots) && i < SIZE && slots[i].Full?
    ensures Parse(slots[i].text) == Some(slots[i].layout)
  {
    assert SlotOk(slots[i], i);
  }

  /** A call: the address of the caller's buffer and the text it holds at that time. */
  datatype Call = Call(address: bv64, text: bytes)

  /**
   Any history of calls, with colliding hashes, full windows and buffers that
   are rewritten in place: every call gets what a fresh parse gives, and every
   slot a caller was given still holds that layout at the end.
   */
  method ResolveAll(calls: seq<Call>)
      returns (cache: Cache, results: seq<Option<seq<Spec>>>, entries: seq<Option<nat>>)
    requires forall i :: 0 <= i < |calls| ==> NulFree(calls[i].text)
    ensures |results| == |entries| == |calls| && cache.Valid()
    ensures forall i :: 0 <= i < |calls| ==> results[i] == Parse(calls[i].text)
    ensures forall i :: 0 <= i < |calls| && entries[i].Some? ==> Serves(cache.slots[..], entries[i].value, results[i])
  {
    hide Parse;
    cache := new Cache();
    results, entries := [], [];
    for i := 0 to |calls|
      invariant cache.Valid() && fresh(cache) && fresh(cache.slots) && fresh(cache.ptrs)
      invariant |results| == |entries| == i && forall k :: 0 <= k < i ==> results[k] == Parse(calls[k].text)
      invariant forall k :: 0 <= k < i && entries[k].Some? ==> Serves(cache.slots[..], entries[k].value, results[k])
    {
      ghost var before := cache.slots[..];
      var layout, entry := cache.Resolve(calls[i].address, calls[i].text);
      assert Kept(before, cache.slots[..]);
      results, entries := results + [layout], entries + [entry];
    }
  }

  /** The slot holds the layout that was handed out. */
  predicate Serves(slots: seq<Slot>, i: nat, layout: Option<seq<Spec>>) {
    i < SIZE == |slots| && slots[i].Full? && layout == Some(slots[i].layout)
  }
}
