/**
 Who closes what: output trees (src/pslog.c, `pslog_tee_close`,
 `pslog_observed_close`), the environment overlay, and the reference count that
 the loggers of one tree share.
 */
module Lifecycle {
  import opened Bytes
  import opened Outputs

  // ----- closing an output tree -----

  /** The `owned` flag of an output. */
  predicate Owned(o: Output) {
    match o
    case Absent => false
    case Sink(_, ownedSink) => ownedSink
    case Tee(a, b) => Owned(a) || Owned(b)
    case Observed(t) => Owned(t)
  }

  /** The sinks that a tree owns, from left to right. */
  function OwnedSinks(o: Output): seq<nat> {
    match o
    case Absent => []
    case Sink(id, ownedSink) => if ownedSink then [id] else []
    case Tee(a, b) => OwnedSinks(a) + OwnedSinks(b)
    case Observed(t) => OwnedSinks(t)
  }

  function FirstError(a: int, b: int): int {
    if a != 0 then a else b
  }

  /** The closed sinks and the status of a close callback; sinks answer by `status`. */
  datatype Closing = Closing(sinks: seq<nat>, err: int)

  /** Close a part of an output, if that part is owned. */
  function ClosePart(o: Output, status: nat -> int): Closing
    decreases o, 1
  {
    if Owned(o) then CloseCallback(o, status) else Closing([], 0)
  }

  /** The close callback of an output. */
  function CloseCallback(o: Output, status: nat -> int): Closing
    decreases o, 0
  {
    match o
    case Absent => Closing([], 0)
    case Sink(id, _) => Closing([id], status(id))
    case Tee(a, b) =>
      var first, second := ClosePart(a, status), ClosePart(b, status);
      Closing(first.sinks + second.sinks, FirstError(first.err, second.err))
    case Observed(t) => ClosePart(t, status)
  }

  /** The first status that is not zero, from left to right. */
  function Verdict(ids: seq<nat>, status: nat -> int): int {
    if ids == [] then 0 else FirstError(status(ids[0]), Verdict(ids[1..], status))
  }

  lemma {:induction false} VerdictConcat(a: seq<nat>, b: seq<nat>, status: nat -> int)
    ensures Verdict(a + b, status) == FirstError(Verdict(a, status), Verdict(b, status))
  {
    if a == [] {
      assert a + b == b;
    } else {
      VerdictConcat(a[1..], b, status);
      assert (a + b)[1..] == a[1..] + b;
    }
  }

  /**
   Closing a tree calls the close callback of each owned sink once, from left to
   right, and of no other sink, whatever the nesting; it reports the first error.
   */
  lemma {:induction false} CloseReachesOwned(o: Output, status: nat -> int)
    ensures ClosePart(o, status) == Closing(OwnedSinks(o), Verdict(OwnedSinks(o), status))
    ensures !Owned(o) <==> OwnedSinks(o) == []
  {
    match o
    case Absent =>
    case Sink(id, _) => assert [id][1..] == [];
    case Tee(a, b) =>
      CloseReachesOwned(a, status);
      CloseReachesOwned(b, status);
      VerdictConcat(OwnedSinks(a), OwnedSinks(b), status);
    case Observed(t) => CloseReachesOwned(t, status);
  }

  lemma {:induction false} OwnedSinksOnce(o: Output)
    requires Distinct(o)
    ensures forall i :: 0 <= i < |OwnedSinks(o)| ==> OwnedSinks(o)[i] in SinkIds(o)
    ensures forall i, j :: 0 <= i < j < |OwnedSinks(o)| ==> OwnedSinks(o)[i] != OwnedSinks(o)[j]
  {
    match o
    case Absent =>
    case Sink(_, _) =>
    case Tee(a, b) =>
      OwnedSinksOnce(a);
      OwnedSinksOnce(b);
      var n := |OwnedSinks(a)|;
      forall i, j | 0 <= i < j < |OwnedSinks(o)|
        ensures OwnedSinks(o)[i] != OwnedSinks(o)[j]
      {
        if i < n <= j {
          assert OwnedSinks(o)[i] == OwnedSinks(a)[i] && OwnedSinks(o)[j] == OwnedSinks(b)[j - n];
        }
      }
    case Observed(t) => OwnedSinksOnce(t);
  }

  // ----- the environment overlay -----

  /** What the output variable asks for. */
  datatype Request =
    | KeepDefault
    | Standard(id: nat)
    | StandardAndFile(id: nat)
    | DefaultAndFile
    | OnlyFile

  /** `file` is the sink that opening the path gives, if it opens; `teeOk` whether a tee can be made. */
  datatype Overlay = Overlay(output: Output, added: seq<nat>, closed: seq<nat>, failed: bool)

  predicate Contains(o: Output, candidate: Output) {
    o == candidate || (o.Tee? && (Contains(o.first, candidate) || Contains(o.second, candidate)))
  }

  /** A tee of `first` and the file; the file is closed again if the tee fails. */
  function TeeWithFile(first: Output, base: Output, file: Option<nat>, teeOk: bool): Overlay {
    match file
    case None => Overlay(base, [], [], true)
    case Some(id) =>
      if teeOk then Overlay(Tee(first, Sink(id, true)), [id], [], false)
      else Overlay(base, [id], [id], true)
  }

  /** `pslog_output_init_env_value` */
  function InitEnv(base: Output, q: Request, file: Option<nat>, teeOk: bool): Overlay {
    match q
    case KeepDefault => Overlay(base, [], [], false)
    case Standard(id) => Overlay(Sink(id, false), [], [], false)
    case StandardAndFile(id) => TeeWithFile(Sink(id, false), base, file, teeOk)
    case DefaultAndFile => TeeWithFile(base, base, file, teeOk)
    case OnlyFile =>
      match file
      case None => Overlay(base, [], [], true)
      case Some(id) => Overlay(Sink(id, true), [id], [], false)
  }

  /** The overlay as a whole: a base output that the new tree does not hold is destroyed. */
  function ApplyEnv(base: Output, q: Request, file: Option<nat>, teeOk: bool, status: nat -> int): Overlay {
    var made := InitEnv(base, q, file, teeOk);
    if made.failed || Contains(made.output, base) then made
    else made.(closed := made.closed + ClosePart(base, status).sinks)
  }

  /** How a new output relates to the base: it is the base, extends it, or has nothing owned of it. */
  lemma {:induction false} InitRelates(base: Output, q: Request, file: Option<nat>, teeOk: bool)
    requires file.Some? ==> file.value !in SinkIds(base)
    ensures var r := InitEnv(base, q, file, teeOk);
            if r.failed then r.output == base && r.closed == r.added
            else
              r.closed == [] &&
              ((Contains(r.output, base) && OwnedSinks(r.output) == OwnedSinks(base) + r.added) ||
               (OwnedSinks(r.output) == r.added && (Contains(r.output, base) ==> OwnedSinks(base) == [])))
  {
    var r := InitEnv(base, q, file, teeOk);
    match q
    case KeepDefault => assert OwnedSinks(base) + [] == OwnedSinks(base);
    case Standard(_) =>
    case StandardAndFile(id) =>
      if !r.failed {
        OutsideTee(base, id, file.value);
      }
    case DefaultAndFile =>
    case OnlyFile =>
  }

  lemma {:induction false} OutsideTee(base: Output, id: nat, file: nat)
    requires file !in SinkIds(base)
    ensures Contains(Tee(Sink(id, false), Sink(file, true)), base) ==> base == Sink(id, false)
    ensures OwnedSinks(Tee(Sink(id, false), Sink(file, true))) == [file]
  {
    var f, g := Sink(id, false), Sink(file, true);
    assert [] + [file] == [file];
    assert Contains(f, base) <==> f == base;
    assert Contains(g, base) <==> g == base;
    assert g == base || Tee(f, g) == base ==> file in SinkIds(base);
  }

  /**
   No owned sink is leaked and none is closed twice: those the base output owned
   and the one that was opened are each in the new tree or closed. The base
   output itself stays in the new tree or all it owns is closed.
   */
  lemma {:induction false} OverlayConserves(base: Output, q: Request, file: Option<nat>, teeOk: bool, status: nat -> int)
    requires file.Some? ==> file.value !in SinkIds(base)
    ensures var r := ApplyEnv(base, q, file, teeOk, status);
            multiset(OwnedSinks(r.output)) + multiset(r.closed) == multiset(OwnedSinks(base)) + multiset(r.added)
    ensures var r := ApplyEnv(base, q, file, teeOk, status);
            Contains(r.output, base) || r.closed == OwnedSinks(base)
    ensures ApplyEnv(base, q, file, teeOk, status).failed ==> ApplyEnv(base, q, file, teeOk, status).output == base
  {
    hide InitEnv, OwnedSinks, ClosePart;
    CloseReachesOwned(base, status);
    InitRelates(base, q, file, teeOk);
    var made := InitEnv(base, q, file, teeOk);
    if !made.failed && !Contains(made.output, base) {
      assert [] + OwnedSinks(base) == OwnedSinks(base);
    }
  }

  /** Where a tree leads, from left to right, and which sinks it owns on the way. */
  datatype Leaf = Leaf(id: nat, owned: bool)

  function Leaves(o: Output): seq<Leaf> {
    match o
    case Absent => []
    case Sink(id, ownedSink) => [Leaf(id, ownedSink)]
    case Tee(a, b) => Leaves(a) + Leaves(b)
    case Observed(t) => Leaves(t)
  }

  /**
   A request fails exactly when the file it names does not open, or the tee it
   needs cannot be made, and then the base output stays. Otherwise the new
   output leads exactly where the request says, and owns the file and what the
   base owned.
   */
  lemma {:induction false} OverlayLeads(base: Output, q: Request, file: Option<nat>, teeOk: bool, status: nat -> int)
    ensures var r := ApplyEnv(base, q, file, teeOk, status);
            (r.failed <==> !q.KeepDefault? && !q.Standard? && (file.None? || (!q.OnlyFile? && !teeOk))) &&
            if r.failed then r.output == base
            else
              match q
              case KeepDefault => r.output == base
              case Standard(id) => Leaves(r.output) == [Leaf(id, false)] && SinkIds(r.output) == {id}
              case StandardAndFile(id) =>
                Leaves(r.output) == [Leaf(id, false), Leaf(file.value, true)] && SinkIds(r.output) == {id, file.value}
              case DefaultAndFile =>
                Leaves(r.output) == Leaves(base) + [Leaf(file.value, true)] &&
                SinkIds(r.output) == SinkIds(base) + {file.value}
              case OnlyFile => Leaves(r.output) == [Leaf(file.value, true)] && SinkIds(r.output) == {file.value}
  {
    hide OwnedSinks, ClosePart;
    if file.Some? {
      assert Leaves(Sink(file.value, true)) == [Leaf(file.value, true)];
    }
  }

  /**
   The overlay makes the only tees there are. Its file is opened anew, so no
   tree it makes leads to one sink by two branches.
   */
  lemma {:induction false} OverlayStaysDistinct(base: Output, q: Request, file: Option<nat>, teeOk: bool, status: nat -> int)
    requires Distinct(base) && (file.Some? ==> file.value !in SinkIds(base))
    requires file.Some? && (q.Standard? || q.StandardAndFile?) ==> file.value != q.id
    ensures var r := ApplyEnv(base, q, file, teeOk, status);
            Distinct(r.output) && forall id | id in SinkIds(r.output) ::
              id in SinkIds(base) || id in r.added || ((q.Standard? || q.StandardAndFile?) && id == q.id)
  {
    hide OwnedSinks, ClosePart;
    var made := InitEnv(base, q, file, teeOk);
    assert Distinct(made.output);
  }

  // ----- the loggers of one tree -----

  /** The state that all loggers derived from one share. */
  class Tree {
    const output: Output
    const status: nat -> int
    var refcount: nat
    var closed: bool
    var closeErr: int
    var freed: bool
    /** Sinks closed so far, in order. */
    var closings: seq<nat>
    /** Live handles; a handle may close the tree only if `new` made it and the output is owned. */
    var handles: map<nat, bool>
    var nextHandle: nat

    ghost predicate Valid()
      reads this
    {
      (freed ==> handles == map[]) && (!freed ==> refcount == |handles| >= 1) &&
      (forall h | h in handles :: h < nextHandle && (handles[h] ==> Owned(output))) &&
      (closed ==> Owned(output) && closings == OwnedSinks(output) && closeErr == Verdict(OwnedSinks(output), status)) &&
      (!closed ==> closings == []) && (freed && Owned(output) ==> closed)
    }

    /** `pslog_new` */
    constructor (output: Output, status: nat -> int)
      ensures Valid() && this.output == output && this.status == status
      ensures handles == map[0 := Owned(output)] && nextHandle == 1 && !closed && !freed && closings == []
    {
      this.output, this.status := output, status;
      refcount, closed, closeErr, freed, closings := 1, false, 0, false, [];
      handles, nextHandle := map[0 := Owned(output)], 1;
    }

    /** `pslog_close_shared` */
    method CloseShared(allow: bool) returns (err: int)
      requires closed ==> Owned(output) && closings == OwnedSinks(output) && closeErr == Verdict(OwnedSinks(output), status)
      requires !closed ==> closings == []
      modifies this`closed, this`closeErr, this`closings
      ensures closed == (old(closed) || (allow && Owned(output)))
      ensures closings == if closed then OwnedSinks(output) else []
      ensures err == if closed then Verdict(OwnedSinks(output), status) else 0
      ensures closed ==> Owned(output) && closeErr == err
    {
      if closed {
        return closeErr;
      }
      if !allow || !Owned(output) {
        return 0;
      }
      closed := true;
      var c := CloseCallback(output, status);
      CloseReachesOwned(output, status);
      closings := closings + c.sinks;
      closeErr := c.err;
      err := closeErr;
    }

    /** `with()` and its kin: one more handle, which may never close the tree. */
    method With(h: nat) returns (child: nat)
      requires Valid() && h in handles
      modifies this`refcount, this`handles, this`nextHandle
      ensures Valid() && child !in old(handles) && handles == old(handles)[child := false]
      ensures child == old(nextHandle) && nextHandle == child + 1
    {
      child := nextHandle;
      refcount := refcount + 1;
      handles := handles[child := false];
      nextHandle := nextHandle + 1;
    }

    /**
     `pslog_close` by a handle: only the first close by a handle that may close
     does anything; every later close, by any handle, returns its status.
     */
    method Close(h: nat) returns (err: int)
      requires Valid() && h in handles
      modifies this`closed, this`closeErr, this`closings
      ensures Valid()
      ensures old(closed) ==> closed && closeErr == err == old(closeErr) && closings == old(closings)
      ensures !old(closed) && !handles[h] ==> err == 0 && !closed && closings == []
      ensures !old(closed) && handles[h] ==>
                closed && closings == OwnedSinks(output) && closeErr == err == Verdict(OwnedSinks(output), status)
    {
      err := CloseShared(handles[h]);
    }

    /** `pslog_logger_destroy`: the last handle closes an owned output that is still open, and frees the rest. */
    method Destroy(h: nat)
      requires Valid() && h in handles
      modifies this
      ensures Valid() && handles == old(handles) - {h} && (old(closed) ==> closed && closeErr == old(closeErr))
      ensures freed <==> old(handles) == map[h := old(handles)[h]]
      ensures freed <==> handles == map[]
      ensures nextHandle == old(nextHandle)
      ensures !freed ==> closed == old(closed) && closings == old(closings)
      ensures freed ==> closings == OwnedSinks(output)
    {
      CloseReachesOwned(output, status);
      LastHandle(handles, h);
      handles := handles - {h};
      if refcount > 1 {
        refcount := refcount - 1;
      } else {
        var _ := CloseShared(true);
        freed := true;
      }
    }
  }

  lemma LastHandle(m: map<nat, bool>, h: nat)
    requires h in m
    ensures |m - {h}| == |m| - 1
    ensures |m| == 1 <==> m == map[h := m[h]]
    ensures |m| == 1 <==> m - {h} == map[]
  {
    assert (m - {h}).Keys == m.Keys - {h};
    assert |m.Keys - {h}| == |m.Keys| - 1;
    if |m| == 1 {
      assert |m.Keys - {h}| == 0;
      assert m.Keys == {h};
    }
    if m - {h} == map[] {
      assert m.Keys - {h} == {};
    }
  }

  datatype Act = DoWith(h: nat) | DoClose(h: nat) | DoDestroy(h: nat)

  /** Count of one sink among those closed. */
  function Times(id: nat, ids: seq<nat>): nat {
    multiset(ids)[id]
  }

  lemma {:induction false} TimesOwned(o: Output, id: nat)
    requires Distinct(o)
    ensures Times(id, OwnedSinks(o)) == if id in OwnedSinks(o) then 1 else 0
  {
    OwnedSinksOnce(o);
    UniqueOnce(OwnedSinks(o), id);
  }

  lemma {:induction false} UniqueOnce(ids: seq<nat>, id: nat)
    requires forall i, j :: 0 <= i < j < |ids| ==> ids[i] != ids[j]
    ensures multiset(ids)[id] == if id in ids then 1 else 0
  {
    if ids == [] {
    } else {
      UniqueOnce(ids[1..], id);
      assert ids == [ids[0]] + ids[1..];
    }
  }

  /** What the statuses returned so far say: all zero before the first error, that error from then on. */
  predicate Steady(errs: seq<int>) {
    forall i, j :: 0 <= i < j < |errs| && errs[i] != 0 ==> errs[j] == errs[i]
  }

  predicate Settled(errs: seq<int>, closed: bool, closeErr: int) {
    forall i :: 0 <= i < |errs| && errs[i] != 0 ==> closed && errs[i] == closeErr
  }

  lemma AddStatus(errs: seq<int>, err: int, was: bool, wasErr: int, closed: bool, closeErr: int)
    requires Steady(errs) && Settled(errs, was, wasErr)
    requires was ==> closed && closeErr == wasErr && err == wasErr
    requires err != 0 ==> closed && err == closeErr
    ensures Steady(errs + [err]) && Settled(errs + [err], closed, closeErr)
  {
  }

  lemma {:induction false} ClosedOnce(o: Output, closings: seq<nat>)
    requires Distinct(o) && (closings == [] || closings == OwnedSinks(o))
    ensures forall id :: Times(id, closings) <= 1 && (id in closings ==> id in OwnedSinks(o))
    ensures closings == OwnedSinks(o) ==> forall id :: Times(id, closings) == if id in OwnedSinks(o) then 1 else 0
  {
    forall id: nat
      ensures Times(id, OwnedSinks(o)) == if id in OwnedSinks(o) then 1 else 0
    {
      TimesOwned(o, id);
    }
  }

  /** The loggers of one tree as a value: who is alive and may close, whether the output is closed, what closes returned. */
  datatype Family = Family(handles: map<nat, bool>, next: nat, closed: bool, errs: seq<int>)

  /** One act; a handle that is not alive does nothing. */
  function After(output: Output, status: nat -> int, f: Family, a: Act): Family {
    if a.h !in f.handles then f
    else
      match a
      case DoWith(_) => f.(handles := f.handles[f.next := false], next := f.next + 1)
      case DoClose(h) =>
        var closed := f.closed || f.handles[h];
        f.(closed := closed, errs := f.errs + [if closed then Verdict(OwnedSinks(output), status) else 0])
      case DoDestroy(h) =>
        var left := f.handles - {h};
        f.(handles := left, closed := f.closed || (left == map[] && Owned(output)))
  }

  function AfterAll(output: Output, status: nat -> int, acts: seq<Act>): Family {
    if acts == [] then Family(map[0 := Owned(output)], 1, false, [])
    else After(output, status, AfterAll(output, status, acts[..|acts| - 1]), acts[|acts| - 1])
  }

  /** The tree is in the state that the family describes. */
  ghost predicate Mirrors(tree: Tree, f: Family)
    reads tree
  {
    tree.Valid() && tree.handles == f.handles && tree.nextHandle == f.next && tree.closed == f.closed &&
    (tree.freed <==> f.handles == map[])
  }

  /**
   Any run of deriving, closing and destroying, each handle used only while it
   is alive: the tree does exactly what the family of loggers should. So no sink
   is ever closed twice, none that is not owned is closed at all, and once every
   handle is destroyed each owned sink has been closed exactly once. Every close
   after one that failed returns the same status.
   */
  method Play(output: Output, status: nat -> int, acts: seq<Act>) returns (closings: seq<nat>, over: bool, errs: seq<int>)
    requires Distinct(output)
    ensures var f := AfterAll(output, status, acts);
            over == (f.handles == map[]) && errs == f.errs && closings == if f.closed then OwnedSinks(output) else []
    ensures forall id :: Times(id, closings) <= 1 && (id in closings ==> id in OwnedSinks(output))
    ensures over ==> forall id :: Times(id, closings) == if id in OwnedSinks(output) then 1 else 0
    ensures Steady(errs)
  {
    hide Times, OwnedSinks, Steady, Settled, Verdict, Owned;
    var tree := new Tree(output, status);
    errs := [];
    NoStatus();
    assert acts[..0] == [] && 0 in tree.handles;
    for i := 0 to |acts|
      invariant fresh(tree) && tree.output == output && tree.status == status
      invariant Mirrors(tree, AfterAll(output, status, acts[..i])) && errs == AfterAll(output, status, acts[..i]).errs
      invariant Steady(errs) && Settled(errs, tree.closed, tree.closeErr)
      invariant tree.freed ==> tree.closings == OwnedSinks(output)
    {
      assert acts[..i + 1][..i] == acts[..i] && acts[..i + 1][i] == acts[i];
      if acts[i].h in tree.handles {
        errs := Perform(tree, acts[i], errs, AfterAll(output, status, acts[..i]));
      }
    }
    assert acts[..|acts|] == acts;
    closings, over := tree.closings, tree.freed;
    CloseReachesOwned(output, status);
    ClosedOnce(output, closings);
  }

  method Perform(tree: Tree, a: Act, errs: seq<int>, ghost f: Family) returns (errs': seq<int>)
    requires Mirrors(tree, f) && a.h in tree.handles && errs == f.errs
    requires Steady(errs) && Settled(errs, tree.closed, tree.closeErr)
    modifies tree
    ensures Mirrors(tree, After(tree.output, tree.status, f, a)) && errs' == After(tree.output, tree.status, f, a).errs
    ensures Steady(errs') && Settled(errs', tree.closed, tree.closeErr)
    ensures tree.freed ==> tree.closings == OwnedSinks(tree.output)
  {
    hide OwnedSinks, Steady, Settled, Verdict, Owned;
    ghost var was, wasErr := tree.closed, tree.closeErr;
    errs' := errs;
    match a
    case DoWith(h) =>
      assert !tree.freed;
      var child := tree.With(h);
      assert child in tree.handles;
    case DoClose(h) =>
      assert !tree.freed;
      var err := tree.Close(h);
      AddStatus(errs, err, was, wasErr, tree.closed, tree.closeErr);
      errs' := errs + [err];
    case DoDestroy(h) =>
      StatusKept(errs, was, wasErr);
      CloseReachesOwned(tree.output, tree.status);
      tree.Destroy(h);
      assert was ==> tree.closed && tree.closeErr == wasErr;
      assert Settled(errs, tree.closed, tree.closeErr);
  }

  lemma NoStatus()
    ensures Steady([]) && forall closed, closeErr :: Settled([], closed, closeErr)
  {
  }

  /** The status of an output that is closed cannot change any more. */
  lemma StatusKept(errs: seq<int>, closed: bool, closeErr: int)
    requires Settled(errs, closed, closeErr)
    ensures !closed ==> forall c, e :: Settled(errs, c, e)
  {
  }
}
