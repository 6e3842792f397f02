/**
 Output trees and how bytes reach their sinks: tee and observed outputs
 (src/pslog.c, `pslog_tee_write`, `pslog_observed_write`) under the retry loop
 `pslog_write_output_locked`.
 */
module Outputs {
  import opened Bytes

  const EIO: int := 5

  /**
   An output. `Absent` has no write callback; a `Sink` is a user callback or a
   file, named by a number; the other two wrap outputs.
   */
  datatype Output =
    | Absent
    | Sink(id: nat, ownedSink: bool)
    | Tee(first: Output, second: Output)
    | Observed(target: Output)

  function SinkIds(o: Output): set<nat> {
    match o
    case Absent => {}
    case Sink(id, _) => {id}
    case Tee(a, b) => SinkIds(a) + SinkIds(b)
    case Observed(t) => SinkIds(t)
  }

  /** No sink hangs on two branches. */
  predicate Distinct(o: Output) {
    match o
    case Absent => true
    case Sink(_, _) => true
    case Tee(a, b) => Distinct(a) && Distinct(b) && SinkIds(a) !! SinkIds(b)
    case Observed(t) => Distinct(t)
  }

  /** How a sink callback answers one call: a count and a status. */
  datatype Response = Response(written: nat, err: int)

  /** Callbacks that never fail and never take nothing, though they may take less than they are offered. */
  predicate Kind(script: seq<Response>) {
    forall i :: 0 <= i < |script| ==> script[i].err == 0 && script[i].written >= 1
  }

  /** What a sink was offered, call by call, and what it took in all. */
  datatype Taken = Taken(calls: seq<bytes>, got: bytes)

  function Min(a: nat, b: nat): nat {
    if a < b then a else b
  }

  /**
   Between `m0` and `m1` each listed sink took a front part of `data`, of at
   least `n` bytes, and of `n` bytes exactly if `exact`.
   */
  ghost predicate Advanced(m0: map<nat, Taken>, m1: map<nat, Taken>, ids: set<nat>,
                           data: bytes, n: nat, exact: bool)
  {
    forall id | id in ids ::
      id in m0 && id in m1 &&
      var k := |m1[id].got| - |m0[id].got|;
      n <= k <= |data| && (exact ==> k == n) && m1[id].got == m0[id].got + data[..k]
  }

  ghost predicate OnlyTouches(m0: map<nat, Taken>, m1: map<nat, Taken>, ids: set<nat>) {
    m0.Keys == m1.Keys && forall id | id in m0 && id !in ids :: m0[id] == m1[id]
  }

  ghost predicate CallsAre(m0: map<nat, Taken>, m1: map<nat, Taken>, ids: set<nat>, calls: seq<bytes>) {
    forall id | id in ids :: id in m0 && id in m1 && m1[id].calls == m0[id].calls + calls
  }

  lemma TouchOn(m0: map<nat, Taken>, m1: map<nat, Taken>, m2: map<nat, Taken>, ids: set<nat>, some: set<nat>)
    requires OnlyTouches(m0, m1, ids) && OnlyTouches(m1, m2, some) && some <= ids
    ensures OnlyTouches(m0, m2, ids)
  {
  }

  lemma TouchNone(m: map<nat, Taken>, ids: set<nat>)
    ensures OnlyTouches(m, m, ids)
  {
  }

  lemma TouchKeys(m0: map<nat, Taken>, m1: map<nat, Taken>, ids: set<nat>)
    requires OnlyTouches(m0, m1, ids)
    ensures m1.Keys == m0.Keys
  {
  }

  /** Going on where an exact step stopped never offers a byte again. */
  lemma AdvanceOn(m0: map<nat, Taken>, m1: map<nat, Taken>, m2: map<nat, Taken>, ids: set<nat>,
                  data: bytes, n: nat, w: nat, exact: bool)
    requires n <= |data|
    requires Advanced(m0, m1, ids, data, n, true)
    requires Advanced(m1, m2, ids, data[n..], w, exact)
    ensures Advanced(m0, m2, ids, data, n + w, exact)
  {
    forall id | id in ids
      ensures id in m0 && id in m2 &&
              var k := |m2[id].got| - |m0[id].got|;
              n + w <= k <= |data| && (exact ==> k == n + w) && m2[id].got == m0[id].got + data[..k]
    {
      var k2 := |m2[id].got| - |m1[id].got|;
      assert m1[id].got == m0[id].got + data[..n];
      Assoc(m0[id].got, data[..n], data[n..][..k2]);
      assert data[..n] + data[n..][..k2] == data[..n + k2];
    }
  }

  // ----- the count reported is the least that any sink took -----

  /** Every output in the tree, other than a missing leg of a tee, leads to some sink. */
  predicate Grounded(o: Output) {
    match o
    case Absent => false
    case Sink(_, _) => true
    case Tee(a, b) => (a.Absent? || Grounded(a)) && (b.Absent? || Grounded(b)) && !(a.Absent? && b.Absent?)
    case Observed(t) => Grounded(t)
  }

  lemma {:induction false} GroundedHasSink(o: Output)
    requires Grounded(o)
    ensures SinkIds(o) != {}
  {
    match o
    case Sink(id, _) => assert id in SinkIds(o);
    case Tee(a, b) =>
      if a.Absent? {
        GroundedHasSink(b);
      } else {
        GroundedHasSink(a);
      }
    case Observed(t) => GroundedHasSink(t);
  }

  /** Some sink took exactly `n` bytes. */
  ghost predicate Attained(m0: map<nat, Taken>, m1: map<nat, Taken>, ids: set<nat>, n: nat) {
    exists id :: id in ids && id in m0 && id in m1 && |m1[id].got| == |m0[id].got| + n
  }

  lemma {:induction false} CountStarts(m0: map<nat, Taken>, o: Output)
    requires Grounded(o) && SinkIds(o) <= m0.Keys
    ensures Attained(m0, m0, SinkIds(o), 0)
  {
    GroundedHasSink(o);
    var id :| id in SinkIds(o);
    assert |m0[id].got| == |m0[id].got| + 0;
  }

  lemma CountMoves(m0: map<nat, Taken>, m1: map<nat, Taken>, m2: map<nat, Taken>, ids: set<nat>,
                   data: bytes, n: nat, w: nat)
    requires Advanced(m0, m1, ids, data, n, true) && Attained(m1, m2, ids, w)
    ensures Attained(m0, m2, ids, n + w)
  {
    var id :| id in ids && id in m1 && id in m2 && |m2[id].got| == |m1[id].got| + w;
    assert |m1[id].got| - |m0[id].got| == n;
  }

  lemma CountKept(m0: map<nat, Taken>, m1: map<nat, Taken>, m2: map<nat, Taken>, ids: set<nat>, others: set<nat>, n: nat)
    requires Attained(m0, m1, ids, n) && OnlyTouches(m1, m2, others) && ids !! others
    ensures Attained(m0, m2, ids, n)
  {
    var id :| id in ids && id in m0 && id in m1 && |m1[id].got| == |m0[id].got| + n;
    assert m2[id] == m1[id];
  }

  lemma {:induction false} GroundedLegs(a: Output, b: Output)
    requires Grounded(Tee(a, b))
    ensures (a.Absent? || Grounded(a)) && (b.Absent? || Grounded(b))
  {
  }

  lemma {:induction false} CountOfTee(m0: map<nat, Taken>, m1: map<nat, Taken>, a: Output, b: Output,
                                      fw: nat, sw: nat, all: nat)
    requires Grounded(Tee(a, b)) && fw <= all && sw <= all
    requires if a.Absent? then fw == all else Attained(m0, m1, SinkIds(a), fw)
    requires if b.Absent? then sw == all else Attained(m0, m1, SinkIds(b), sw)
    ensures Attained(m0, m1, SinkIds(a) + SinkIds(b), Min(fw, sw))
  {
    if (fw < sw && !a.Absent?) || b.Absent? {
      var id :| id in SinkIds(a) && id in m0 && id in m1 && |m1[id].got| == |m0[id].got| + fw;
    } else {
      var id :| id in SinkIds(b) && id in m0 && id in m1 && |m1[id].got| == |m0[id].got| + sw;
    }
  }

  /**
   How far one leg of a tee is: `n` bytes of `data` are behind it. When every
   callback takes everything (`quiet`), the leg has had no call or the one call.
   */
  ghost predicate LegAt(m0: map<nat, Taken>, m1: map<nat, Taken>, ids: set<nat>,
                        data: bytes, n: nat, err: int, quiet: bool, counted: bool)
  {
    n <= |data| && Advanced(m0, m1, ids, data, n, err == 0) && (counted ==> Attained(m0, m1, ids, n)) &&
    (quiet ==> err == 0 && (n == 0 || n == |data|) &&
               CallsAre(m0, m1, ids, if n == 0 then [] else [data]))
  }

  lemma LegMoves(m0: map<nat, Taken>, m1: map<nat, Taken>, m2: map<nat, Taken>, ids: set<nat>,
                 data: bytes, n: nat, n': nat, err: int, quiet: bool, counted: bool)
    requires LegAt(m0, m1, ids, data, n, 0, quiet, counted)
    requires n < |data| && n <= n' <= |data|
    requires Advanced(m1, m2, ids, data[n..], n' - n, err == 0)
    requires quiet ==> err == 0 && n' == |data| && CallsAre(m1, m2, ids, [data[n..]])
    requires counted ==> Attained(m1, m2, ids, n' - n)
    ensures LegAt(m0, m2, ids, data, n', err, quiet, counted)
  {
    hide Attained;
    if counted {
      CountMoves(m0, m1, m2, ids, data, n, n' - n);
    }
    AdvanceOn(m0, m1, m2, ids, data, n, n' - n, err == 0);
    if quiet {
      assert data[0..] == data;
    }
  }

  lemma LegKept(m0: map<nat, Taken>, m1: map<nat, Taken>, m2: map<nat, Taken>, ids: set<nat>, others: set<nat>,
                data: bytes, n: nat, err: int, quiet: bool, counted: bool)
    requires LegAt(m0, m1, ids, data, n, err, quiet, counted)
    requires OnlyTouches(m1, m2, others) && ids !! others
    ensures LegAt(m0, m2, ids, data, n, err, quiet, counted)
  {
    hide Attained;
    if counted {
      CountKept(m0, m1, m2, ids, others, n);
    }
  }

  lemma {:induction false} LegStarts(m0: map<nat, Taken>, leg: Output, data: bytes, n: nat, quiet: bool)
    requires SinkIds(leg) <= m0.Keys && n == (if leg.Absent? then |data| else 0)
    ensures LegAt(m0, m0, SinkIds(leg), data, n, 0, quiet, Grounded(leg))
  {
    hide Attained;
    if Grounded(leg) {
      CountStarts(m0, leg);
    }
  }

  lemma LegsEnd(m0: map<nat, Taken>, m1: map<nat, Taken>, a: set<nat>, b: set<nat>,
                data: bytes, fw: nat, sw: nat, fe: int, se: int, quiet: bool, ca: bool, cb: bool)
    requires LegAt(m0, m1, a, data, fw, fe, quiet, ca) && LegAt(m0, m1, b, data, sw, se, quiet, cb)
    requires fe != 0 || se != 0 || (fw == |data| && sw == |data|)
    ensures Advanced(m0, m1, a + b, data, Min(fw, sw), fw == |data| && sw == |data|)
    ensures ca ==> Attained(m0, m1, a, fw)
    ensures cb ==> Attained(m0, m1, b, sw)
    ensures quiet ==> fe == 0 && se == 0
    ensures quiet && data != [] ==> CallsAre(m0, m1, a + b, [data])
  {
  }

  /** Consecutive blocks of `c` bytes, the last one shorter or full. */
  function Blocks(s: bytes, c: nat): (bs: seq<bytes>)
    requires c >= 1
    ensures Concat(bs) == s
    ensures forall i :: 0 <= i < |bs| ==> 1 <= |bs[i]| <= c
    ensures forall i :: 0 <= i < |bs| - 1 ==> |bs[i]| == c
    decreases |s|
  {
    if s == [] then []
    else if |s| <= c then
      assert [s][1..] == [];
      assert Concat([s]) == s + Concat([]);
      [s]
    else
      Halves(s, c);
      Tail(s[..c], Blocks(s[c..], c));
      [s[..c]] + Blocks(s[c..], c)
  }

  /** Full blocks and one last block of 1 to `c` bytes are the canonical blocks of their text. */
  lemma {:induction false} BlocksUnique(blocks: seq<bytes>, last: bytes, c: nat)
    requires c >= 1 && 1 <= |last| <= c
    requires forall i :: 0 <= i < |blocks| ==> |blocks[i]| == c
    ensures Blocks(Concat(blocks) + last, c) == blocks + [last]
  {
    if blocks == [] {
      assert Concat(blocks) + last == last;
    } else {
      BlocksUnique(blocks[1..], last, c);
      var rest := Concat(blocks[1..]) + last;
      Assoc(blocks[0], Concat(blocks[1..]), last);
      Suffix(blocks[0], rest);
      assert Concat(blocks) + last == blocks[0] + rest;
      assert blocks + [last] == [blocks[0]] + (blocks[1..] + [last]);
    }
  }

  /** Blocks that are full, but for a shorter last one, and none of them empty. */
  predicate Sizes(blocks: seq<bytes>, c: nat) {
    forall i :: 0 <= i < |blocks| ==> 1 <= |blocks[i]| <= c && (i < |blocks| - 1 ==> |blocks[i]| == c)
  }

  lemma {:induction false} SizedIsCanonical(blocks: seq<bytes>, c: nat)
    requires c >= 1 && Sizes(blocks, c)
    ensures Blocks(Concat(blocks), c) == blocks
  {
    if blocks != [] {
      var front, last := blocks[..|blocks| - 1], blocks[|blocks| - 1];
      assert blocks == front + [last];
      ConcatSnoc(front, last);
      BlocksUnique(front, last, c);
    }
  }

  // ----- what a sink may have taken of a line -----

  /** Of each block a front part. */
  predicate FrontsOf(tooks: seq<bytes>, blocks: seq<bytes>) {
    |tooks| == |blocks| && forall i :: 0 <= i < |tooks| ==> tooks[i] <= blocks[i]
  }

  /** Bytes that are front parts of these blocks, one after the other. */
  ghost predicate TakenFrom(got: bytes, blocks: seq<bytes>) {
    exists tooks :: FrontsOf(tooks, blocks) && got == Concat(tooks)
  }

  lemma NothingTaken(blocks: seq<bytes>)
    ensures TakenFrom([], blocks)
  {
    var tooks := seq(|blocks|, _ => []);
    NoBytes(tooks);
    assert FrontsOf(tooks, blocks);
  }

  lemma {:induction false} NoBytes(parts: seq<bytes>)
    requires forall i :: 0 <= i < |parts| ==> parts[i] == []
    ensures Concat(parts) == []
  {
    if parts == [] {
    } else {
      NoBytes(parts[1..]);
    }
  }

  lemma FrontsMore(tooks: seq<bytes>, blocks: seq<bytes>, took: bytes, block: bytes)
    requires FrontsOf(tooks, blocks) && took <= block
    ensures FrontsOf(tooks + [took], blocks + [block])
  {
  }

  /** The pieces in which the retry loop offers `s` when nothing goes wrong. */
  function Offers(s: bytes, chunk: nat): seq<bytes> {
    if s == [] then [] else if chunk == 0 then [s] else Blocks(s, chunk)
  }

  function NextOffer(s: bytes, chunk: nat): (n: nat)
    ensures n <= |s| && (s != [] ==> n > 0)
  {
    if chunk > 0 && |s| > chunk then chunk else |s|
  }

  lemma OfferNext(s: bytes, chunk: nat, before: seq<bytes>)
    requires s != []
    ensures var n := NextOffer(s, chunk);
            before + [s[..n]] + Offers(s[n..], chunk) == before + Offers(s, chunk)
  {
    var n := NextOffer(s, chunk);
    if n == |s| {
      assert s[..n] == s && Offers(s, chunk) == [s] && Offers(s[n..], chunk) == [];
    }
    assert Offers(s, chunk) == [s[..n]] + Offers(s[n..], chunk);
  }

  lemma Shorter(m0: map<nat, Taken>, m1: map<nat, Taken>, ids: set<nat>, data: bytes, n: nat, w: nat, exact: bool)
    requires n <= |data| && Advanced(m0, m1, ids, data[..n], w, exact)
    ensures Advanced(m0, m1, ids, data, w, exact)
  {
    forall id | id in ids
      ensures id in m0 && id in m1 &&
              var k := |m1[id].got| - |m0[id].got|;
              w <= k <= |data| && (exact ==> k == w) && m1[id].got == m0[id].got + data[..k]
    {
      var k := |m1[id].got| - |m0[id].got|;
      assert data[..n][..k] == data[..k];
    }
  }

  lemma CallsGoOn(m0: map<nat, Taken>, m1: map<nat, Taken>, m2: map<nat, Taken>, ids: set<nat>,
                  calls: seq<bytes>, call: bytes)
    requires CallsAre(m0, m1, ids, calls) && CallsAre(m1, m2, ids, [call])
    ensures CallsAre(m0, m2, ids, calls + [call])
  {
  }

  /**
   The calls of the retry loop when every callback takes everything: `offered`
   is behind it, and what is left completes the canonical pieces.
   */
  ghost predicate CallsAt(m0: map<nat, Taken>, m1: map<nat, Taken>, ids: set<nat>, data: bytes, chunk: nat,
                          rest: bytes, offered: seq<bytes>)
  {
    CallsAre(m0, m1, ids, offered) && offered + Offers(rest, chunk) == Offers(data, chunk)
  }

  lemma CallsStart(m0: map<nat, Taken>, ids: set<nat>, data: bytes, chunk: nat)
    requires ids <= m0.Keys
    ensures CallsAt(m0, m0, ids, data, chunk, data[0..], []) && Advanced(m0, m0, ids, data, 0, true)
  {
    assert data[0..] == data;
    assert [] + Offers(data, chunk) == Offers(data, chunk);
  }

  lemma CallsMove(m0: map<nat, Taken>, m1: map<nat, Taken>, m2: map<nat, Taken>, ids: set<nat>, data: bytes,
                  chunk: nat, rest: bytes, offered: seq<bytes>)
    requires rest != [] && CallsAt(m0, m1, ids, data, chunk, rest, offered)
    requires CallsAre(m1, m2, ids, [rest[..NextOffer(rest, chunk)]])
    ensures var n := NextOffer(rest, chunk);
            CallsAt(m0, m2, ids, data, chunk, rest[n..], offered + [rest[..n]])
  {
    OfferNext(rest, chunk, offered);
    CallsGoOn(m0, m1, m2, ids, offered, rest[..NextOffer(rest, chunk)]);
  }

  lemma CallsEnd(m0: map<nat, Taken>, m1: map<nat, Taken>, ids: set<nat>, data: bytes, chunk: nat,
                 offered: seq<bytes>)
    requires CallsAt(m0, m1, ids, data, chunk, [], offered)
    ensures CallsAre(m0, m1, ids, Offers(data, chunk))
  {
    assert offered + [] == offered;
  }

  /** Where the retry loop is: `offset` bytes of `data` are behind it. */
  ghost predicate LoopAt(m0: map<nat, Taken>, m1: map<nat, Taken>, ids: set<nat>, data: bytes, chunk: nat,
                         offset: nat, going: bool, quiet: bool, offered: seq<bytes>)
  {
    offset <= |data| && OnlyTouches(m0, m1, ids) && Advanced(m0, m1, ids, data, offset, going) &&
    (quiet ==> going && CallsAt(m0, m1, ids, data, chunk, data[offset..], offered))
  }

  lemma LoopMoves(m0: map<nat, Taken>, m1: map<nat, Taken>, m2: map<nat, Taken>, ids: set<nat>, data: bytes,
                  chunk: nat, offset: nat, err: int, written: nat, quiet: bool, offered: seq<bytes>)
      returns (offered': seq<bytes>)
    requires LoopAt(m0, m1, ids, data, chunk, offset, true, quiet, offered) && offset < |data|
    requires written <= |data[offset..]|
    requires OnlyTouches(m1, m2, ids) && Advanced(m1, m2, ids, data[offset..], written, err == 0)
    requires var n := NextOffer(data[offset..], chunk);
             quiet ==> err == 0 && written == n && CallsAre(m1, m2, ids, [data[offset..][..n]])
    ensures LoopAt(m0, m2, ids, data, chunk, offset + written, err == 0 && written != 0, quiet, offered')
  {
    AdvanceOn(m0, m1, m2, ids, data, offset, written, err == 0);
    offered' := offered;
    if quiet {
      var rest := data[offset..];
      CallsMove(m0, m1, m2, ids, data, chunk, rest, offered);
      offered' := offered + [rest[..written]];
      assert rest[written..] == data[offset + written..];
    }
  }

  lemma LoopEnds(m0: map<nat, Taken>, m1: map<nat, Taken>, ids: set<nat>, data: bytes, chunk: nat,
                 offset: nat, going: bool, quiet: bool, offered: seq<bytes>)
    requires LoopAt(m0, m1, ids, data, chunk, offset, going, quiet, offered)
    requires going ==> offset == |data|
    ensures OnlyTouches(m0, m1, ids) && Advanced(m0, m1, ids, data, offset, false)
    ensures quiet ==> offset == |data| && CallsAre(m0, m1, ids, Offers(data, chunk))
  {
    if quiet {
      assert data[offset..] == [];
      CallsEnd(m0, m1, ids, data, chunk, offered);
    }
  }

  // ----- what a failure comes from -----

  /** The answers are used up from the front. */
  predicate Later(s0: seq<Response>, s1: seq<Response>) {
    |s1| <= |s0| && s1 == s0[|s0| - |s1|..]
  }

  /** The last answer between the two is an error or took nothing. */
  predicate Fault(s0: seq<Response>, s1: seq<Response>) {
    Later(s0, s1) && |s1| < |s0| &&
    var last := s0[|s0| - |s1| - 1];
    last.err != 0 || last.written == 0
  }

  /** And `err` is its status, or `EIO` if it took nothing without one. */
  predicate Blame(s0: seq<Response>, s1: seq<Response>, err: int) {
    Fault(s0, s1) && err == (if s0[|s0| - |s1| - 1].err != 0 then s0[|s0| - |s1| - 1].err else EIO)
  }

  lemma LaterStill(s0: seq<Response>, s1: seq<Response>, s2: seq<Response>)
    requires Later(s0, s1) && Later(s1, s2)
    ensures Later(s0, s2)
    ensures Fault(s1, s2) ==> Fault(s0, s2)
    ensures forall err :: Blame(s1, s2, err) ==> Blame(s0, s2, err)
  {
    assert |s2| < |s1| ==> s1[|s1| - |s2| - 1] == s0[|s0| - |s2| - 1];
  }

  lemma NowIsLater(s: seq<Response>)
    ensures Later(s, s)
  {
  }

  /** The sinks of one output tree, with the mutex and the closed flag that guard them. */
  class Channel {
    const output: Output
    var taken: map<nat, Taken>
    /** How the callbacks will answer, in turn; past its end they take everything. */
    var script: seq<Response>
    var closed: bool
    var locked: bool

    constructor (output: Output, script: seq<Response>)
      requires Distinct(output)
      ensures this.output == output && this.script == script && !closed && !locked && Valid()
      ensures forall id | id in SinkIds(output) :: taken[id] == Taken([], [])
    {
      this.output := output;
      this.script := script;
      this.closed := false;
      this.locked := false;
      this.taken := map id | id in SinkIds(output) :: Taken([], []);
    }

    ghost predicate Valid()
      reads this
    {
      Distinct(output) && SinkIds(output) <= taken.Keys
    }

    method CallSink(id: nat, data: bytes) returns (err: int, written: nat)
      requires id in taken
      modifies this`taken, this`script
      ensures OnlyTouches(old(taken), taken, {id})
      ensures Advanced(old(taken), taken, {id}, data, Min(written, |data|), true)
      ensures Kind(old(script)) && data != [] ==> Kind(script) && err == 0 && written >= 1
      ensures old(script) == [] ==> script == [] && err == 0 && written == |data| &&
                                    taken[id].calls == old(taken[id].calls) + [data]
      ensures Later(old(script), script) && (err != 0 ==> Blame(old(script), script, err))
      ensures data != [] && err == 0 && written == 0 ==> Blame(old(script), script, EIO)
    {
      var r := if script == [] then Response(|data|, 0) else script[0];
      script := if script == [] then [] else script[1..];
      var n := Min(r.written, |data|);
      taken := taken[id := Taken(taken[id].calls + [data], taken[id].got + data[..n])];
      err, written := r.err, r.written;
    }

    /** The write callback of an output tree. */
    method Write(o: Output, data: bytes) returns (err: int, written: nat)
      requires !o.Absent? && Distinct(o) && SinkIds(o) <= taken.Keys
      modifies this`taken, this`script
      ensures OnlyTouches(old(taken), taken, SinkIds(o))
      ensures Advanced(old(taken), taken, SinkIds(o), data, Min(written, |data|), err == 0)
      ensures Grounded(o) ==> Attained(old(taken), taken, SinkIds(o), Min(written, |data|))
      ensures o.Tee? ==> (err == 0 <==> written == |data|) && written <= |data|
      ensures Later(old(script), script) && (err != 0 ==> Blame(old(script), script, err))
      ensures data != [] && err == 0 && written == 0 ==> Blame(old(script), script, EIO)
      ensures Kind(old(script)) && data != [] ==> Kind(script) && err == 0 && written >= 1
      ensures old(script) == [] && data != [] ==>
                script == [] && err == 0 && written == |data| &&
                CallsAre(old(taken), taken, SinkIds(o), [data])
      decreases o, 2
    {
      match o
      case Sink(id, _) =>
        err, written := CallSink(id, data);
        assert |taken[id].got| == |old(taken)[id].got| + Min(written, |data|);
      case Observed(target) =>
        if target.Absent? {
          err, written := 0, |data|;
        } else {
          err, written := Write(target, data);
        }
      case Tee(_, _) =>
        err, written := WriteTee(o, data);
    }

    /**
     One leg of one round of a tee: offer what is left, take note of what was
     taken; a callback that takes nothing counts as failed.
     */
    method WriteLeg(leg: Output, data: bytes, done: nat) returns (err: int, done': nat)
      requires !leg.Absent? && Distinct(leg) && SinkIds(leg) <= taken.Keys
      requires done < |data|
      modifies this`taken, this`script
      ensures OnlyTouches(old(taken), taken, SinkIds(leg))
      ensures done <= done' <= |data|
      ensures Advanced(old(taken), taken, SinkIds(leg), data[done..], done' - done, err == 0)
      ensures Grounded(leg) ==> Attained(old(taken), taken, SinkIds(leg), done' - done)
      ensures err == 0 ==> done' > done
      ensures Later(old(script), script) && (err != 0 ==> Blame(old(script), script, err))
      ensures Kind(old(script)) ==> Kind(script) && err == 0
      ensures old(script) == [] ==>
                script == [] && err == 0 && done' == |data| &&
                CallsAre(old(taken), taken, SinkIds(leg), [data[done..]])
      decreases leg, 3
    {
      var w;
      err, w := Write(leg, data[done..]);
      var current := Min(w, |data| - done);
      done' := done + current;
      if err == 0 && current == 0 {
        err := EIO;
      }
    }

    /** A leg's part of a round, with what it leaves of the other leg. */
    method Round(leg: Output, other: Output, data: bytes, n: nat, ghost k: nat, ghost oerr: int,
                 ghost m0: map<nat, Taken>, ghost quiet: bool) returns (err: int, n': nat)
      requires !leg.Absent? && Distinct(leg) && SinkIds(leg) <= taken.Keys && SinkIds(leg) !! SinkIds(other)
      requires n < |data| && (quiet ==> script == [])
      requires LegAt(m0, taken, SinkIds(leg), data, n, 0, quiet, Grounded(leg))
      requires LegAt(m0, taken, SinkIds(other), data, k, oerr, quiet, Grounded(other))
      modifies this`taken, this`script
      ensures OnlyTouches(old(taken), taken, SinkIds(leg)) && n <= n' <= |data| && (err == 0 ==> n' > n)
      ensures LegAt(m0, taken, SinkIds(leg), data, n', err, quiet, Grounded(leg))
      ensures LegAt(m0, taken, SinkIds(other), data, k, oerr, quiet, Grounded(other))
      ensures quiet ==> script == []
      ensures Kind(old(script)) ==> Kind(script) && err == 0
      ensures Later(old(script), script) && (err != 0 ==> Blame(old(script), script, err))
      decreases leg, 4
    {
      hide Attained, Grounded, Kind, Later, Blame;
      ghost var m1 := taken;
      err, n' := WriteLeg(leg, data, n);
      LegMoves(m0, m1, taken, SinkIds(leg), data, n, n', err, quiet, Grounded(leg));
      LegKept(m0, m1, taken, SinkIds(other), SinkIds(leg), data, k, oerr, quiet, Grounded(other));
    }

    /** One round: each leg that still lacks something, the second only if the first did not fail. */
    method BothLegs(o: Output, data: bytes, fw0: nat, sw0: nat, ghost m0: map<nat, Taken>, ghost s0: seq<Response>,
                    ghost quiet: bool) returns (fe: int, fw: nat, se: int, sw: nat)
      requires o.Tee? && Distinct(o) && SinkIds(o) <= taken.Keys && fw0 <= |data| && sw0 <= |data|
      requires fw0 < |data| || sw0 < |data|
      requires (o.first.Absent? ==> fw0 == |data|) && (o.second.Absent? ==> sw0 == |data|)
      requires LegAt(m0, taken, SinkIds(o.first), data, fw0, 0, quiet, Grounded(o.first))
      requires LegAt(m0, taken, SinkIds(o.second), data, sw0, 0, quiet, Grounded(o.second))
      requires OnlyTouches(m0, taken, SinkIds(o)) && Later(s0, script) && (quiet ==> script == [])
      modifies this`taken, this`script
      ensures fw0 <= fw <= |data| && sw0 <= sw <= |data| && (fe == 0 && se == 0 ==> fw0 + sw0 < fw + sw)
      ensures LegAt(m0, taken, SinkIds(o.first), data, fw, fe, quiet, Grounded(o.first))
      ensures LegAt(m0, taken, SinkIds(o.second), data, sw, se, quiet, Grounded(o.second))
      ensures OnlyTouches(m0, taken, SinkIds(o)) && Later(s0, script) && (quiet ==> script == [])
      ensures (fe != 0 ==> Blame(s0, script, fe)) && (se != 0 ==> Blame(s0, script, se))
      ensures Kind(old(script)) ==> Kind(script) && fe == 0 && se == 0
      decreases o, 0
    {
      hide Attained, Grounded, LegAt, Advanced, CallsAre, Kind, OnlyTouches, Later, Blame, Fault;
      var a, b := o.first, o.second;
      fe, fw, se, sw := 0, fw0, 0, sw0;
      if fw < |data| {
        ghost var m1, s1 := taken, script;
        TouchKeys(m0, taken, SinkIds(o));
        fe, fw := Round(a, b, data, fw, sw, se, m0, quiet);
        LaterStill(s0, s1, script);
        TouchOn(m0, m1, taken, SinkIds(o), SinkIds(a));
      }
      if fe == 0 && sw < |data| {
        ghost var m1, s1 := taken, script;
        TouchKeys(m0, taken, SinkIds(o));
        se, sw := Round(b, a, data, sw, fw, fe, m0, quiet);
        LaterStill(s0, s1, script);
        TouchOn(m0, m1, taken, SinkIds(o), SinkIds(b));
      }
      TouchKeys(m0, taken, SinkIds(o));
    }

    /**
     Both legs, round by round, until both have everything or one fails. Each
     leg gets a front part of the data, the count reported is the least that any
     sink got, and the status is zero exactly when both got everything.
     */
    method WriteTee(o: Output, data: bytes) returns (err: int, written: nat)
      requires o.Tee? && Distinct(o) && SinkIds(o) <= taken.Keys
      modifies this`taken, this`script
      ensures OnlyTouches(old(taken), taken, SinkIds(o))
      ensures written <= |data| && (err == 0 <==> written == |data|)
      ensures Advanced(old(taken), taken, SinkIds(o), data, written, err == 0)
      ensures Grounded(o) ==> Attained(old(taken), taken, SinkIds(o), written)
      ensures Later(old(script), script) && (err != 0 ==> Blame(old(script), script, err))
      ensures Kind(old(script)) ==> Kind(script) && err == 0
      ensures old(script) == [] && data != [] ==>
                script == [] && err == 0 &&
                CallsAre(old(taken), taken, SinkIds(o), [data])
      decreases o, 1
    {
      var a, b := o.first, o.second;
      var fw: nat, sw: nat := if a.Absent? then |data| else 0, if b.Absent? then |data| else 0;
      var fe, se := 0, 0;
      ghost var m0, quiet := taken, script == [] && data != [];
      ghost var s0 := script;
      hide Attained, Grounded, LegAt, Advanced, CallsAre, Kind, OnlyTouches, Later, Blame, Fault;
      NowIsLater(s0);
      TouchNone(m0, SinkIds(o));
      LegStarts(m0, a, data, fw, quiet);
      LegStarts(m0, b, data, sw, quiet);
      while fe == 0 && se == 0 && (fw < |data| || sw < |data|)
        invariant fw <= |data| && (a.Absent? ==> fw == |data|)
        invariant sw <= |data| && (b.Absent? ==> sw == |data|)
        invariant LegAt(m0, taken, SinkIds(a), data, fw, fe, quiet, Grounded(a))
        invariant LegAt(m0, taken, SinkIds(b), data, sw, se, quiet, Grounded(b))
        invariant OnlyTouches(m0, taken, SinkIds(o))
        invariant quiet ==> script == []
        invariant Kind(old(script)) ==> Kind(script) && fe == 0 && se == 0
        invariant taken.Keys == m0.Keys
        invariant Later(s0, script) && (fe != 0 ==> Blame(s0, script, fe)) && (se != 0 ==> Blame(s0, script, se))
        decreases 2 * |data| - fw - sw + (if fe == 0 && se == 0 then 1 else 0)
      {
        fe, fw, se, sw := BothLegs(o, data, fw, sw, m0, s0, quiet);
        TouchKeys(m0, taken, SinkIds(o));
      }
      LegsEnd(m0, taken, SinkIds(a), SinkIds(b), data, fw, sw, fe, se, quiet, Grounded(a), Grounded(b));
      if Grounded(o) {
        GroundedLegs(a, b);
        CountOfTee(m0, taken, a, b, fw, sw, |data|);
      }
      written := Min(fw, sw);
      err := if fw == |data| && sw == |data| then 0
             else if fe != 0 then fe
             else if se != 0 then se
             else EIO;
    }

    /** One turn of the retry loop, over the bytes that are left. */
    method OfferChunk(rest: bytes, chunk: nat) returns (err: int, written: nat)
      requires Valid() && !output.Absent? && rest != []
      modifies this`taken, this`script
      ensures OnlyTouches(old(taken), taken, SinkIds(output)) && written <= |rest|
      ensures Advanced(old(taken), taken, SinkIds(output), rest, written, err == 0)
      ensures Kind(old(script)) ==> Kind(script) && err == 0 && written >= 1
      ensures Later(old(script), script) && (err != 0 || written == 0 ==> Fault(old(script), script))
      ensures old(script) == [] ==>
                script == [] && err == 0 && written == NextOffer(rest, chunk) &&
                CallsAre(old(taken), taken, SinkIds(output), [rest[..NextOffer(rest, chunk)]])
    {
      var n := |rest|;
      if chunk > 0 && n > chunk {
        n := chunk;
      }
      var w;
      err, w := Write(output, rest[..n]);
      written := Min(w, n);
      Shorter(old(taken), taken, SinkIds(output), rest, n, written, err == 0);
    }

    method Turn(data: bytes, chunk: nat, offset: nat, ghost m0: map<nat, Taken>, ghost quiet: bool,
                ghost offered: seq<bytes>)
        returns (offset': nat, going: bool, ghost offered': seq<bytes>)
      requires Valid() && !output.Absent? && offset < |data|
      requires LoopAt(m0, taken, SinkIds(output), data, chunk, offset, true, quiet, offered)
      requires quiet ==> script == []
      modifies this`taken, this`script
      ensures Valid() && offset <= offset' <= |data| && (going ==> offset < offset')
      ensures LoopAt(m0, taken, SinkIds(output), data, chunk, offset', going, quiet, offered')
      ensures quiet ==> script == []
      ensures Kind(old(script)) ==> Kind(script) && going
      ensures Later(old(script), script) && (!going ==> Fault(old(script), script))
    {
      ghost var m1 := taken;
      var err, written := OfferChunk(data[offset..], chunk);
      offered' := LoopMoves(m0, m1, taken, SinkIds(output), data, chunk, offset, err, written, quiet, offered);
      offset' := offset + written;
      going := err == 0 && written != 0;
    }

    /** The loop itself, over an open output. */
    method RetryLoop(data: bytes, chunk: nat) returns (offset: nat)
      requires Valid() && !output.Absent?
      modifies this`taken, this`script
      ensures Valid() && offset <= |data| && OnlyTouches(old(taken), taken, SinkIds(output))
      ensures Advanced(old(taken), taken, SinkIds(output), data, offset, false)
      ensures Kind(old(script)) ==> Kind(script) && offset == |data|
      ensures offset < |data| ==> Fault(old(script), script)
      ensures old(script) == [] ==>
                script == [] && offset == |data| &&
                CallsAre(old(taken), taken, SinkIds(output), Offers(data, chunk))
    {
      hide Later, Fault;
      ghost var s0 := script;
      NowIsLater(s0);
      offset := 0;
      var going := true;
      ghost var m0, quiet := taken, script == [];
      ghost var offered: seq<bytes> := [];
      CallsStart(m0, SinkIds(output), data, chunk);
      while going && offset < |data|
        invariant Valid() && offset <= |data|
        invariant LoopAt(m0, taken, SinkIds(output), data, chunk, offset, going, quiet, offered)
        invariant quiet ==> script == []
        invariant Kind(old(script)) ==> Kind(script) && going
        invariant Later(s0, script) && (!going ==> Fault(s0, script))
        decreases |data| - offset, going
      {
        ghost var s1 := script;
        offset, going, offered := Turn(data, chunk, offset, m0, quiet, offered);
        LaterStill(s0, s1, script);
      }
      LoopEnds(m0, taken, SinkIds(output), data, chunk, offset, going, quiet, offered);
    }

    /**
     The retry loop over the whole output: offer at most `chunk` bytes at a
     time, go on after a short write, stop at an error or when nothing is taken.
     No sink is ever offered a byte it already took, and each holds a front part
     of `data` that is at least as long as the count returned. The loop gives up
     only on an answer that is an error or takes nothing.
     */
    method WriteLocked(data: bytes, chunk: nat) returns (offset: nat)
      requires Valid() && locked
      modifies this`taken, this`script
      ensures Valid() && offset <= |data|
      ensures OnlyTouches(old(taken), taken, SinkIds(output))
      ensures closed || output.Absent? ==> offset == 0 && taken == old(taken) && script == old(script)
      ensures Advanced(old(taken), taken, SinkIds(output), data, offset, false)
      ensures !closed && !output.Absent? && Kind(old(script)) ==> Kind(script) && (data != [] ==> offset == |data|)
      ensures !closed && !output.Absent? && offset < |data| ==> Fault(old(script), script)
      ensures !closed && !output.Absent? && old(script) == [] ==>
                script == [] && offset == |data| &&
                CallsAre(old(taken), taken, SinkIds(output), Offers(data, chunk))
    {
      offset := 0;
      if data != [] && !closed && !output.Absent? {
        offset := RetryLoop(data, chunk);
      }
    }
  }
}
