/**
 The cache of console field prefixes (src/pslog_emit_console.c,
 `pslog_resolve_console_prefix`): found by the address of the key, probed over
 16 entries, overwritten when those are taken.
 */
module PrefixCaches {
  import opened Bytes
  import opened Hashing
  import opened Events
  import opened ConsoleLine

  const SIZE: nat := 256
  const PROBE: nat := 16

  /** The number of a type, as it enters the slot. */
  function TypeNumber(t: FieldType): bv64 {
    match t
    case NullType => 0
    case StringType => 1
    case SignedType => 2
    case UnsignedType => 3
    case DoubleType => 4
    case BoolType => 5
    case PointerType => 6
    case BytesType => 7
    case TimeType => 8
    case DurationType => 9
    case ErrnoType => 10
  }

  function Home(address: bv64, t: FieldType, keyLength: nat): (slot: nat)
    ensures slot < SIZE
  {
    (((address >> 4) ^ (TypeNumber(t) << 3) ^ ((keyLength % 0x1_0000_0000_0000_0000) as bv64)) % 256) as nat
  }

  datatype Entry = Free | Taken(address: bv64, key: bytes, fieldType: FieldType, prefix: bytes)

  /** A fresh rendering: nothing for an empty key or a prefix with no room. */
  function Rendering(sh: Shared, key: bytes, t: FieldType): Option<bytes> {
    if key == [] || !Cacheable(sh, key, TypeColour(sh, t)) then None
    else Some(PrefixText(sh, key, TypeColour(sh, t)))
  }

  predicate EntryOk(sh: Shared, e: Entry) {
    e.Taken? ==> Rendering(sh, e.key, e.fieldType) == Some(e.prefix)
  }

  /** The running total of `pslog_console_prefix_add`: it never passes the limit. */
  method Add(total: nat, add: nat) returns (ok: bool, total': nat)
    requires total <= PREFIX_LIMIT
    ensures ok <==> total + add <= PREFIX_LIMIT
    ensures total' == (if ok then total + add else total) <= PREFIX_LIMIT
  {
    ok := add <= PREFIX_LIMIT - total;
    total' := if ok then total + add else total;
  }

  lemma PrefixLength(sh: Shared, key: bytes, colour: bytes)
    ensures |PrefixText(sh, key, colour)| ==
            2 + |key| + (if sh.colour then |sh.palette.key| + 2 * |sh.palette.reset| + |colour| else 0)
  {
  }

  /** Whether a prefix has room, found without ever adding past the limit. */
  method HasRoom(sh: Shared, key: bytes, colour: bytes) returns (ok: bool)
    ensures ok <==> Cacheable(sh, key, colour)
  {
    PrefixLength(sh, key, colour);
    hide PrefixText;
    var total;
    ok, total := Add(0, 1);
    if ok {
      ok, total := Add(total, |key|);
    }
    if ok {
      ok, total := Add(total, 1);
    }
    if ok && sh.colour {
      ok := HasColourRoom(sh, colour, total);
    }
  }

  /** The colours of a prefix, on top of what is counted already. */
  method HasColourRoom(sh: Shared, colour: bytes, counted: nat) returns (ok: bool)
    requires counted <= PREFIX_LIMIT
    ensures ok <==> counted + |sh.palette.key| + 2 * |sh.palette.reset| + |colour| <= PREFIX_LIMIT
  {
    var total;
    ok, total := Add(counted, |sh.palette.reset|);
    if ok {
      ok, total := Add(total, |sh.palette.key|);
    }
    if ok {
      ok, total := Add(total, |sh.palette.reset|);
    }
    if ok {
      ok, total := Add(total, |colour|);
    }
  }

  /** The entry of a key at an address. */
  predicate Matches(e: Entry, address: bv64, key: bytes, t: FieldType) {
    e.Taken? && e.address == address && e.fieldType == t && |e.key| == |key| && e.key == key
  }

  /** Where the search ends that starts at a probe: at the entry itself, or at the one to write. */
  datatype Spot = Hit(i: nat) | Miss(i: nat)

  function Search(entries: seq<Entry>, address: bv64, key: bytes, t: FieldType, probe: nat): (r: Spot)
    requires |entries| == SIZE && probe <= PROBE
    ensures r.i < SIZE && (r.Hit? ==> Matches(entries[r.i], address, key, t))
    decreases PROBE - probe
  {
    var home := Home(address, t, |key|);
    if probe == PROBE then Miss(home)
    else
      var i := Index(home, probe, SIZE);
      if Matches(entries[i], address, key, t) then Hit(i)
      else if entries[i].Free? then Miss(i)
      else Search(entries, address, key, t, probe + 1)
  }

  /** Once it is written where the search ended, the entry is found. */
  lemma {:induction false} WrittenIsFound(entries: seq<Entry>, address: bv64, key: bytes, t: FieldType, probe: nat, e: Entry)
    requires |entries| == SIZE && probe <= PROBE && Matches(e, address, key, t)
    requires Search(entries, address, key, t, probe).Miss?
    ensures var i := Search(entries, address, key, t, probe).i;
            Search(entries[i := e], address, key, t, probe).Hit? ||
            (i == Home(address, t, |key|) && probe > 0)
    decreases PROBE - probe
  {
    hide Home, Index, Matches;
    var home := Home(address, t, |key|);
    HomeFirst(home);
    if probe == PROBE || entries[Index(home, probe, SIZE)].Free? {
    } else {
      WrittenIsFound(entries, address, key, t, probe + 1, e);
    }
  }

  lemma HomeFirst(home: nat)
    requires home < SIZE
    ensures Index(home, 0, SIZE) == home
  {
  }

  class Cache {
    const shared: Shared
    var entries: array<Entry>

    ghost predicate Valid()
      reads this, entries
    {
      entries.Length == SIZE && forall i :: 0 <= i < SIZE ==> EntryOk(shared, entries[i])
    }

    constructor (shared: Shared)
      ensures Valid() && fresh(entries) && this.shared == shared
    {
      this.shared := shared;
      entries := new Entry[SIZE](_ => Free);
    }

    /** The matching entry, or the entry to write: the first free one, else the first of the window. */
    method Find(address: bv64, key: bytes, t: FieldType) returns (hit: bool, i: nat)
      requires Valid()
      ensures i < SIZE && Search(entries[..], address, key, t, 0) == if hit then Hit(i) else Miss(i)
    {
      hide Home, Index;
      var home := Home(address, t, |key|);
      for probe := 0 to PROBE
        invariant Search(entries[..], address, key, t, 0) == Search(entries[..], address, key, t, probe)
      {
        var index := Index(home, probe, SIZE);
        var e := entries[index];
        if e.Taken? && e.address == address && e.fieldType == t && |e.key| == |key| && e.key == key {
          return true, index;
        }
        if e.Free? {
          return false, index;
        }
      }
      return false, home;
    }

    /**
     The prefix for a key at an address: always what a fresh rendering gives,
     though keys move, memory is reused and entries are overwritten. A prefix
     with no room is refused and leaves every entry as it was; otherwise one
     entry at most changes, and the next call finds it.
     */
    method Resolve(address: bv64, key: bytes, t: FieldType) returns (prefix: Option<bytes>)
      requires Valid()
      modifies entries
      ensures Valid() && prefix == Rendering(shared, key, t)
      ensures prefix.None? ==> entries[..] == old(entries[..])
      ensures prefix.Some? ==> Search(entries[..], address, key, t, 0).Hit?
      ensures entries[..] == old(entries[..]) ||
              exists i :: 0 <= i < SIZE && entries[..] == old(entries[..])[i := entries[i]]
    {
      if key == [] {
        return None;
      }
      var hit, i := Find(address, key, t);
      if hit {
        assert EntryOk(shared, entries[i]);
        return Some(entries[i].prefix);
      }
      var ok := HasRoom(shared, key, TypeColour(shared, t));
      if !ok {
        return None;
      }
      hide Cacheable, PrefixText, TypeColour, Search;
      var text := PrefixText(shared, key, TypeColour(shared, t));
      ghost var before := entries[..];
      WrittenIsFound(before, address, key, t, 0, Taken(address, key, t, text));
      entries[i] := Taken(address, key, t, text);
      assert entries[..] == before[i := entries[i]];
      prefix := Some(text);
    }
  }

  /** A call: where the key is, its bytes at that time, and the type of the field. */
  datatype Call = Call(address: bv64, key: bytes, fieldType: FieldType)

  /** After any history every call gets a fresh rendering. */
  method ResolveAll(shared: Shared, calls: seq<Call>) returns (results: seq<Option<bytes>>)
    ensures |results| == |calls|
    ensures forall i :: 0 <= i < |calls| ==> results[i] == Rendering(shared, calls[i].key, calls[i].fieldType)
  {
    hide Rendering;
    var cache := new Cache(shared);
    results := [];
    for i := 0 to |calls|
      invariant cache.Valid() && fresh(cache.entries) && cache.shared == shared
      invariant |results| == i
      invariant forall k :: 0 <= k < i ==> results[k] == Rendering(shared, calls[k].key, calls[k].fieldType)
    {
      var r := cache.Resolve(calls[i].address, calls[i].key, calls[i].fieldType);
      results := results + [r];
    }
  }

  /** A field rendered through the cache is the field rendered without looking at the cache at all. */
  lemma CachedField(sh: Shared, f: Field)
    requires f.key != []
    ensures FieldText(sh, f) ==
            match Rendering(sh, f.key, TypeOf(f.value))
            case Some(prefix) => prefix + DatumText(sh, f.value)
            case None => FallbackText(sh, f.key, DatumColour(sh, f.value)) + DatumText(sh, f.value)
  {
    assert TypeColour(sh, TypeOf(f.value)) == DatumColour(sh, f.value);
  }
}
