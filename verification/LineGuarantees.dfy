/**
 What the line protocol guarantees, for every program of every thread, every
 schedule and every behaviour of the sink.
 */
module LineGuarantees {
  import opened Bytes
  import opened Outputs
  import opened LineProtocol

  ghost predicate Reachable(capacity: nat, programs: seq<seq<Job>>, moves: seq<Move>, s: State) {
    capacity >= 1 && Run(Init(capacity, programs), moves) == Some(s)
  }

  lemma ReachableIsInv(capacity: nat, programs: seq<seq<Job>>, moves: seq<Move>, s: State)
    requires Reachable(capacity, programs, moves, s)
    ensures Inv(s, programs)
  {
    hide Inv, Run;
    InitHolds(capacity, programs);
    RunKeeps(Init(capacity, programs), moves, programs);
  }

  // ----- whole lines -----

  /** The sink never errs and takes at least one byte of what it is offered. */
  predicate Kind(m: Move) {
    m.response.err == 0 && m.response.written >= 1
  }

  predicate AllKind(moves: seq<Move>) {
    forall i :: 0 <= i < |moves| ==> Kind(moves[i])
  }

  predicate Lossless(s: State) {
    (forall i :: 0 <= i < |s.log| ==> !s.log[i].lossy) &&
    (forall u :: 0 <= u < |s.threads| ==> !s.threads[u].lossy)
  }

  lemma KindWrite(th: Thread, r: Response)
    requires th.pc.Writing? && !th.lossy && r.err == 0 && r.written >= 1 && Unsent(th) != []
    ensures !AfterWrite(th, r).lossy
  {
  }

  /** What every step other than a write does: one thread moves on, one entry at most is added, the sink rests. */
  predicate Modest(s: State, s': State, t: nat)
    requires t < |s.threads|
  {
    |s'.threads| == |s.threads| && s'.threads == s.threads[t := s'.threads[t]] &&
    (s'.threads[t].lossy ==> s.threads[t].lossy) && s'.stream == s.stream &&
    (s.closed ==> s'.closed && s'.closes == s.closes) &&
    (s'.log == s.log ||
     (|s'.log| == |s.log| + 1 && s'.log == s.log + [s'.log[|s.log|]] && s'.log[|s.log|].lossy == s.threads[t].lossy))
  }

  lemma PutIsModest(s: State, s1: State, t: nat, th: Thread)
    requires t < |s.threads| && s1 == s.(output := s1.output, state := s1.state) && (th.lossy ==> s.threads[t].lossy)
    ensures Modest(s, Put(s1, t, th), t)
  {
  }

  lemma FinishIsModest(s: State, s1: State, t: nat, th: Thread)
    requires t < |s.threads| && s1 == s.(output := s1.output, state := s1.state)
    requires th.todo != [] && th.lossy == s.threads[t].lossy
    ensures Modest(s, Finish(s1, t, th), t)
  {
  }

  lemma IdleIsModest(s: State, t: nat)
    requires t < |s.threads| && StepIdle(s, t).Some?
    ensures Modest(s, StepIdle(s, t).value, t)
  {
    hide Modest;
    var th := s.threads[t];
    match th.todo[0]
    case Touch => PutIsModest(s, s.(state := Some(t)), t, th.(pc := Touching));
    case Close(_) => PutIsModest(s, s.(output := Some(t)), t, th.(pc := Closing));
    case Emit(_, _, pieces) =>
      FinishIsModest(s, s, t, th.(dropped := true));
      PutIsModest(s, s, t, th.(pc := Begin(th.todo[0]), rest := pieces));
  }

  lemma FillIsModest(s: State, t: nat)
    requires t < |s.threads| && StepFill(s, t).Some?
    ensures Modest(s, StepFill(s, t).value, t)
  {
    var th := s.threads[t];
    var s' := StepFill(s, t).value;
    if th.rest == [] && th.buf == [] && !th.locked {
      FinishIsModest(s, s, t, th);
    } else {
      assert !s'.threads[t].lossy || th.lossy;
      hide Modest;
      PutIsModest(s, s.(state := s'.state), t, s'.threads[t]);
    }
  }

  lemma StepIsModest(s: State, m: Move)
    requires Step(s, m).Some? && !s.threads[m.thread].pc.Writing?
    ensures Modest(s, Step(s, m).value, m.thread)
  {
    hide Modest, StepIdle, StepFill, StepClosing;
    var t := m.thread;
    var th := s.threads[t];
    match th.pc
    case Idle => IdleIsModest(s, t);
    case Touching => FinishIsModest(s, s.(state := None), t, th);
    case Closing => ClosingIsModest(s, t);
    case CloseUnlock => FinishIsModest(s, s.(output := None), t, th);
    case Unlocking => FinishIsModest(s, s.(output := None), t, th);
    case Fill => FillIsModest(s, t);
    case Writing(_, _) => assert false;
    case ResolveLock => PutIsModest(s, s.(state := Some(t)), t, th.(pc := Resolving));
    case Resolving => PutIsModest(s, s.(state := None), t, th.(pc := if th.todo[0].console then FirstLock else Fill));
    case FirstLock => LockIsModest(s, t, Fill);
    case FlushLock => LockIsModest(s, t, Check(false));
    case LastLock => LockIsModest(s, t, Check(true));
    case Inside => PutIsModest(s, s.(state := None), t, AfterInside(s.capacity, th, m.direct));
    case Check(last) => CheckIsModest(s, t, last);
  }

  lemma LockIsModest(s: State, t: nat, pc: Pc)
    requires t < |s.threads| && StepLock(s, t, pc).Some?
    ensures Modest(s, StepLock(s, t, pc).value, t)
  {
    hide Modest;
    PutIsModest(s, s.(output := Some(t)), t, s.threads[t].(locked := true, pc := pc));
  }

  lemma CheckIsModest(s: State, t: nat, last: bool)
    requires t < |s.threads|
    ensures Modest(s, StepCheck(s, t, last).value, t)
  {
    hide Modest;
    var th := s.threads[t];
    PutIsModest(s, s, t, th.(pc := Writing(0, last)));
    PutIsModest(s, s, t, Dropped(th).(pc := Unlocking));
    PutIsModest(s, s.(output := None), t, Dropped(th).(locked := false, pc := Fill));
  }

  lemma ClosingIsModest(s: State, t: nat)
    requires t < |s.threads| && StepClosing(s, t).Some?
    ensures Modest(s, StepClosing(s, t).value, t)
  {
  }

  lemma WriteLossless(s: State, m: Move, programs: seq<seq<Job>>)
    requires Inv(s, programs) && Lossless(s) && Kind(m) && Step(s, m).Some? && s.threads[m.thread].pc.Writing?
    ensures Lossless(Step(s, m).value)
  {
    hide Inv, ThreadOk, AfterWrite, Accepted, Unsent;
    var t, s' := m.thread, Step(s, m).value;
    var th := s.threads[t];
    Known(s, t, programs);
    UnsentLeft(s.capacity, true, false, s.closed, th);
    KindWrite(th, m.response);
    assert s' == Put(s.(stream := s'.stream), t, AfterWrite(th, m.response));
  }

  lemma StepLossless(s: State, m: Move, programs: seq<seq<Job>>)
    requires Inv(s, programs) && Lossless(s) && Kind(m) && Step(s, m).Some?
    ensures Lossless(Step(s, m).value)
  {
    hide Inv;
    var th := s.threads[m.thread];
    hide Step;
    if th.pc.Writing? {
      WriteLossless(s, m, programs);
    } else {
      StepIsModest(s, m);
    }
  }

  lemma UnsentLeft(capacity: nat, output: bool, state: bool, closed: bool, th: Thread)
    requires th.pc.Writing? && ThreadOk(capacity, output, state, closed, th)
    ensures Unsent(th) != []
  {
    hide Balanced;
  }

  lemma {:induction false} RunLossless(s: State, moves: seq<Move>, programs: seq<seq<Job>>)
    requires Inv(s, programs) && Lossless(s) && AllKind(moves) && Run(s, moves).Some?
    ensures Lossless(Run(s, moves).value)
    decreases |moves|
  {
    hide Inv, Step, Lossless;
    if moves == [] {
    } else {
      assert Kind(moves[0]) && AllKind(moves[1..]);
      StepKeeps(s, moves[0], programs);
      StepLossless(s, moves[0], programs);
      RunLossless(Step(s, moves[0]).value, moves[1..], programs);
    }
  }

  /** The lines of finished jobs, those of dropped ones left out, in the order in which they finished. */
  function Lines(log: seq<Entry>): bytes {
    if log == [] then []
    else
      var e := log[|log| - 1];
      Lines(log[..|log| - 1]) + (if e.dropped then [] else LineOf(e.job))
  }

  /** An entry that lost nothing has its whole line, or nothing if it was dropped. */
  lemma EntryWhole(capacity: nat, closed: bool, e: Entry)
    requires capacity >= 1 && EntryOk(capacity, closed, e) && !e.lossy
    ensures e.got == if e.dropped then [] else LineOf(e.job)
  {
  }

  lemma {:induction false} GotsAreLines(capacity: nat, closed: bool, log: seq<Entry>)
    requires capacity >= 1 && forall i :: 0 <= i < |log| ==> EntryOk(capacity, closed, log[i]) && !log[i].lossy
    ensures Concat(Gots(log)) == Lines(log)
  {
    hide EntryOk;
    if log == [] {
    } else {
      var front, e := log[..|log| - 1], log[|log| - 1];
      GotsAreLines(capacity, closed, front);
      EntryWhole(capacity, closed, e);
      assert log == front + [e];
      GotsSnoc(front, e);
      hide Gots, Concat, LineOf;
    }
  }

  /**
   Over a kind sink, in every interleaving: the stream is the whole lines of the
   finished jobs, one after the other, then a front part of the line of the
   thread that owns the output mutex. Each thread's jobs finish in program
   order. A line is missing only if the output was closed.
   */
  lemma WholeLines(capacity: nat, programs: seq<seq<Job>>, moves: seq<Move>, s: State)
    requires Reachable(capacity, programs, moves, s) && AllKind(moves)
    ensures s.stream == Lines(s.log) + Partial(s)
    ensures Partial(s) != [] ==>
              s.output.Some? && s.output.value < |s.threads| && s.threads[s.output.value].todo != [] &&
              Partial(s) <= LineOf(s.threads[s.output.value].todo[0])
    ensures |s.threads| == |programs|
    ensures forall u :: 0 <= u < |programs| ==> JobsOf(s.log, u) + s.threads[u].todo == programs[u]
    ensures forall i :: 0 <= i < |s.log| && s.log[i].dropped ==> s.closed && s.log[i].got == []
    ensures forall i :: 0 <= i < |s.log| && !s.log[i].dropped ==> s.log[i].got == LineOf(s.log[i].job)
  {
    ReachableIsInv(capacity, programs, moves, s);
    var s0 := Init(capacity, programs);
    InitHolds(capacity, programs);
    RunLosslessFrom(s0, moves, s, programs);
    hide EntryOk, ThreadOk, Run;
    GotsAreLines(s.capacity, s.closed, s.log);
    forall i | 0 <= i < |s.log|
      ensures s.log[i].dropped ==> s.closed && s.log[i].got == []
      ensures !s.log[i].dropped ==> s.log[i].got == LineOf(s.log[i].job)
    {
      EntryWhole(s.capacity, s.closed, s.log[i]);
      if s.log[i].dropped {
        EntryDropped(s.capacity, s.closed, s.log[i]);
      }
    }
    if Partial(s) != [] {
      PartialIsFront(s, s.output.value, programs);
    }
  }

  lemma EntryDropped(capacity: nat, closed: bool, e: Entry)
    requires capacity >= 1 && EntryOk(capacity, closed, e) && e.dropped
    ensures closed && e.got == []
  {
  }

  lemma {:induction false} RunLosslessFrom(s0: State, moves: seq<Move>, s: State, programs: seq<seq<Job>>)
    requires Inv(s0, programs) && Lossless(s0) && AllKind(moves) && Run(s0, moves) == Some(s)
    ensures Lossless(s)
  {
    hide Inv, Run, Lossless;
    RunLossless(s0, moves, programs);
  }

  lemma PartialIsFront(s: State, t: nat, programs: seq<seq<Job>>)
    requires Inv(s, programs) && Lossless(s) && t < |s.threads| && s.output == Some(t) && Partial(s) != []
    ensures s.threads[t].todo != [] && Partial(s) <= LineOf(s.threads[t].todo[0])
  {
    Known(s, t, programs);
    FrontOfLine(s.capacity, s.closed, s.threads[t]);
  }

  lemma FrontOfLine(capacity: nat, closed: bool, th: Thread)
    requires ThreadOk(capacity, true, HoldsState(th.pc), closed, th) && !th.lossy && th.got != []
    ensures th.todo != [] && th.got <= LineOf(th.todo[0])
  {
    hide TextOf, LineOf, Concat;
    var tail := th.buf + TextOf(th.rest);
    assert Partway(th) <= th.buf;
    assert th.got == Concat(th.blocks) + Partway(th);
    assert Concat(th.blocks) + Partway(th) <= Concat(th.blocks) + tail;
  }

  // ----- any sink at all -----

  /**
   What a sink may hold of a line that is being written: a front part of each
   of some blocks that begin the line, and of the block in the buffer.
   */
  ghost predicate PartlyTaken(got: bytes, line: bytes, capacity: nat) {
    exists blocks: seq<bytes>, block: bytes ::
      TakenFrom(got, blocks + [block]) && Concat(blocks + [block]) <= line && |block| <= capacity &&
      forall i :: 0 <= i < |blocks| ==> |blocks[i]| == capacity
  }

  lemma {:induction false} EntryTaken(capacity: nat, closed: bool, e: Entry)
    requires capacity >= 1 && EntryOk(capacity, closed, e)
    ensures TakenFrom(e.got, Blocks(LineOf(e.job), capacity))
  {
    if !e.dropped || e.blocks != [] {
      assert FrontsOf(e.tooks, e.blocks) && e.got == Concat(e.tooks);
    } else {
      NothingTaken(Blocks(LineOf(e.job), capacity));
    }
  }

  /** The owner of the output mutex, while it writes, or with its last block gone. */
  lemma {:induction false} OwnerTaken(capacity: nat, closed: bool, th: Thread)
    requires capacity >= 1 && ThreadOk(capacity, true, HoldsState(th.pc), closed, th) && th.got != []
    ensures th.todo != []
    ensures if th.pc.Unlocking? then TakenFrom(th.got, Blocks(LineOf(th.todo[0]), capacity))
            else PartlyTaken(th.got, LineOf(th.todo[0]), capacity)
  {
    if th.pc.Unlocking? {
      EndEntry(capacity, true, closed, 0, th);
      EntryTaken(capacity, closed, EntryOf(0, th));
    } else {
      BufferTaken(capacity, th);
    }
  }

  lemma BufferTaken(capacity: nat, th: Thread)
    requires th.todo != [] && Balanced(capacity, th) && |th.buf| <= capacity && !th.pc.Unlocking?
    ensures PartlyTaken(th.got, LineOf(th.todo[0]), capacity)
  {
    var tooks, blocks := th.tooks + [Partway(th)], th.blocks + [th.buf];
    assert Partway(th) <= th.buf;
    FrontsMore(th.tooks, th.blocks, Partway(th), th.buf);
    ConcatSnoc(th.tooks, Partway(th));
    ConcatSnoc(th.blocks, th.buf);
    hide Concat, TextOf, LineOf;
    assert TakenFrom(th.got, blocks) by {
      assert FrontsOf(tooks, blocks) && th.got == Concat(tooks);
    }
    Assoc(Concat(th.blocks), th.buf, TextOf(th.rest));
    assert Concat(blocks) <= LineOf(th.todo[0]);
  }

  /**
   Over any sink at all, failing or not: the stream is what the sink took of
   each finished line, one line after the other, and then of the mutex owner's.
   What it took of a finished line is a front part of each of the line's
   canonical blocks, in order; of the owner's line, a front part of each block
   that has left its buffer and of the one in it. So lines never mix, and no
   byte is out of place.
   */
  lemma {:induction false} LinesNeverMix(capacity: nat, programs: seq<seq<Job>>, moves: seq<Move>, s: State)
    requires Reachable(capacity, programs, moves, s)
    ensures s.capacity == capacity && s.stream == Concat(Gots(s.log)) + Partial(s)
    ensures forall i :: 0 <= i < |s.log| ==> TakenFrom(s.log[i].got, Blocks(LineOf(s.log[i].job), capacity))
    ensures forall i :: 0 <= i < |s.log| && s.log[i].dropped ==> s.closed && s.log[i].got == []
    ensures Partial(s) != [] ==>
              s.output.Some? && s.output.value < |s.threads| &&
              var th := s.threads[s.output.value];
              th.todo != [] &&
              if th.pc.Unlocking? then TakenFrom(Partial(s), Blocks(LineOf(th.todo[0]), capacity))
              else PartlyTaken(Partial(s), LineOf(th.todo[0]), capacity)
  {
    ReachableIsInv(capacity, programs, moves, s);
    CapacityKept(Init(capacity, programs), moves);
    hide EntryOk, ThreadOk, Run, TakenFrom, PartlyTaken, Blocks;
    forall i | 0 <= i < |s.log|
      ensures TakenFrom(s.log[i].got, Blocks(LineOf(s.log[i].job), capacity))
      ensures s.log[i].dropped ==> s.closed && s.log[i].got == []
    {
      EntryTaken(capacity, s.closed, s.log[i]);
      if s.log[i].dropped {
        EntryDropped(capacity, s.closed, s.log[i]);
      }
    }
    if Partial(s) != [] {
      var t := s.output.value;
      Known(s, t, programs);
      OwnerTaken(capacity, s.closed, s.threads[t]);
    }
  }

  lemma {:induction false} CapacityKept(s: State, moves: seq<Move>)
    requires Run(s, moves).Some?
    ensures Run(s, moves).value.capacity == s.capacity
    decreases |moves|
  {
    if moves == [] {
    } else {
      StepCapacity(s, moves[0]);
      hide Step;
      CapacityKept(Step(s, moves[0]).value, moves[1..]);
    }
  }

  lemma StepCapacity(s: State, m: Move)
    requires Step(s, m).Some?
    ensures Step(s, m).value.capacity == s.capacity
  {
    hide StepAppend, AfterWrite, Accepted, AfterInside, EndOfText;
  }

  // ----- closing -----

  lemma StepAfterClose(s: State, m: Move, programs: seq<seq<Job>>)
    requires Inv(s, programs) && s.closed && Step(s, m).Some?
    ensures Step(s, m).value.closed && Step(s, m).value.stream == s.stream && Step(s, m).value.closes == 1
  {
    Known(s, m.thread, programs);
    assert s.closes == 1;
    assert !s.threads[m.thread].pc.Writing?;
    hide Inv, ThreadOk, Step;
    StepIsModest(s, m);
  }

  /** Once the output is closed it stays closed, is not closed again, and nothing reaches the sink. */
  lemma {:induction false} NothingAfterClose(s: State, moves: seq<Move>, programs: seq<seq<Job>>)
    requires Inv(s, programs) && s.closed && Run(s, moves).Some?
    ensures Run(s, moves).value.closed && Run(s, moves).value.stream == s.stream && Run(s, moves).value.closes == 1
    decreases |moves|
  {
    if moves != [] {
      StepKeeps(s, moves[0], programs);
      StepAfterClose(s, moves[0], programs);
      hide Inv, Step;
      NothingAfterClose(Step(s, moves[0]).value, moves[1..], programs);
    } else {
      assert s.closes == 1;
    }
  }

  /** The thread has closed the output and is about to let go of its mutex. */
  predicate Returning(th: Thread) {
    th.pc.CloseUnlock? && th.todo != [] && th.todo[0] == Close(true)
  }

  ghost predicate CloseLogged(log: seq<Entry>) {
    exists i :: 0 <= i < |log| && log[i].job == Close(true)
  }

  ghost predicate CloseReturning(threads: seq<Thread>) {
    exists u :: 0 <= u < |threads| && Returning(threads[u])
  }

  /** A close that may close has run. */
  ghost predicate CloseRan(s: State) {
    CloseLogged(s.log) || CloseReturning(s.threads)
  }

  lemma LogMore(log: seq<Entry>, e: Entry)
    ensures CloseLogged(log + [e]) <==> CloseLogged(log) || e.job == Close(true)
  {
    if CloseLogged(log) {
      var i :| 0 <= i < |log| && log[i].job == Close(true);
      assert (log + [e])[i].job == Close(true);
    }
    if e.job == Close(true) {
      assert (log + [e])[|log|].job == Close(true);
    }
  }

  lemma ThreadTurns(threads: seq<Thread>, t: nat, th: Thread)
    requires t < |threads|
    ensures CloseReturning(threads[t := th]) && !Returning(th) ==> CloseReturning(threads)
    ensures CloseReturning(threads) && !Returning(threads[t]) ==> CloseReturning(threads[t := th])
    ensures Returning(th) ==> CloseReturning(threads[t := th])
  {
    var threads' := threads[t := th];
    if CloseReturning(threads') && !Returning(th) {
      var u :| 0 <= u < |threads'| && Returning(threads'[u]);
      assert Returning(threads[u]);
    }
    if CloseReturning(threads) && !Returning(threads[t]) {
      var u :| 0 <= u < |threads| && Returning(threads[u]);
      assert Returning(threads'[u]);
    }
    if Returning(th) {
      assert Returning(threads'[t]);
    }
  }

  /** What a step does that neither closes nor returns from closing. */
  predicate Aside(s: State, s': State, t: nat)
    requires t < |s.threads|
  {
    |s'.threads| == |s.threads| && s'.threads == s.threads[t := s'.threads[t]] && s'.closed == s.closed &&
    !s'.threads[t].pc.CloseUnlock? && !s.threads[t].pc.CloseUnlock? &&
    (s'.log == s.log ||
     (|s'.log| == |s.log| + 1 && s'.log == s.log + [s'.log[|s.log|]] && !s'.log[|s.log|].job.Close?))
  }

  lemma PutAside(s: State, s1: State, t: nat, th: Thread)
    requires t < |s.threads| && s1 == s.(output := s1.output, state := s1.state, stream := s1.stream)
    requires !s.threads[t].pc.CloseUnlock? && !th.pc.CloseUnlock?
    ensures Aside(s, Put(s1, t, th), t)
  {
  }

  lemma FinishAside(s: State, s1: State, t: nat, th: Thread)
    requires t < |s.threads| && s1 == s.(output := s1.output, state := s1.state)
    requires !s.threads[t].pc.CloseUnlock? && th.todo != [] && !th.todo[0].Close?
    ensures Aside(s, Finish(s1, t, th), t)
  {
  }

  lemma IdleAside(s: State, t: nat)
    requires t < |s.threads| && StepIdle(s, t).Some? && s.threads[t].pc.Idle?
    ensures Aside(s, StepIdle(s, t).value, t)
  {
    hide Aside;
    var th := s.threads[t];
    match th.todo[0]
    case Touch => PutAside(s, s.(state := Some(t)), t, th.(pc := Touching));
    case Close(_) => PutAside(s, s.(output := Some(t)), t, th.(pc := Closing));
    case Emit(_, _, pieces) =>
      FinishAside(s, s, t, th.(dropped := true));
      PutAside(s, s, t, th.(pc := Begin(th.todo[0]), rest := pieces));
  }

  lemma FillAside(s: State, t: nat)
    requires t < |s.threads| && StepFill(s, t).Some? && s.threads[t].pc.Fill?
    requires s.threads[t].todo != [] && s.threads[t].todo[0].Emit?
    ensures Aside(s, StepFill(s, t).value, t)
  {
    hide Aside;
    var th := s.threads[t];
    var s' := StepFill(s, t).value;
    if th.rest == [] && th.buf == [] && !th.locked {
      FinishAside(s, s, t, th);
    } else {
      assert !s'.threads[t].pc.CloseUnlock?;
      PutAside(s, s.(state := s'.state), t, s'.threads[t]);
    }
  }

  lemma LockAside(s: State, t: nat, pc: Pc)
    requires t < |s.threads| && StepLock(s, t, pc).Some? && !pc.CloseUnlock? && !s.threads[t].pc.CloseUnlock?
    ensures Aside(s, StepLock(s, t, pc).value, t)
  {
    hide Aside;
    PutAside(s, s.(output := Some(t)), t, s.threads[t].(locked := true, pc := pc));
  }

  lemma CheckAside(s: State, t: nat, last: bool)
    requires t < |s.threads| && s.threads[t].pc.Check?
    ensures Aside(s, StepCheck(s, t, last).value, t)
  {
    hide Aside;
    var th := s.threads[t];
    PutAside(s, s, t, th.(pc := Writing(0, last)));
    PutAside(s, s, t, Dropped(th).(pc := Unlocking));
    PutAside(s, s.(output := None), t, Dropped(th).(locked := false, pc := Fill));
  }

  /** Which job a thread is at, by its place. */
  lemma JobInPlace(capacity: nat, output: bool, state: bool, closed: bool, th: Thread)
    requires ThreadOk(capacity, output, state, closed, th) && !th.pc.Idle?
    ensures th.todo != []
    ensures if th.pc.Touching? then th.todo[0].Touch?
            else if th.pc.Closing? || th.pc.CloseUnlock? then th.todo[0].Close?
            else th.todo[0].Emit?
  {
    hide Balanced;
  }

  lemma StepAside(s: State, m: Move, programs: seq<seq<Job>>)
    requires Inv(s, programs) && Step(s, m).Some?
    requires !s.threads[m.thread].pc.Closing? && !s.threads[m.thread].pc.CloseUnlock?
    ensures Aside(s, Step(s, m).value, m.thread)
  {
    hide Aside, StepIdle, StepFill, Inv, ThreadOk, AfterWrite, Accepted, AfterInside;
    var t := m.thread;
    var th := s.threads[t];
    Known(s, t, programs);
    if th.pc.Idle? {
      IdleAside(s, t);
    } else {
      JobInPlace(s.capacity, s.output == Some(t), s.state == Some(t), s.closed, th);
      match th.pc
      case Touching => FinishAside(s, s.(state := None), t, th);
      case Unlocking => FinishAside(s, s.(output := None), t, th);
      case Fill => FillAside(s, t);
      case Writing(_, _) =>
        WriteGoesOn(th, m.response);
        PutAside(s, s.(stream := s.stream + Accepted(th, m.response)), t, AfterWrite(th, m.response));
      case ResolveLock => PutAside(s, s.(state := Some(t)), t, th.(pc := Resolving));
      case Resolving => PutAside(s, s.(state := None), t, th.(pc := if th.todo[0].console then FirstLock else Fill));
      case FirstLock => LockAside(s, t, Fill);
      case FlushLock => LockAside(s, t, Check(false));
      case LastLock => LockAside(s, t, Check(true));
      case Inside =>
        InsideGoesOn(s.capacity, th, m.direct);
        PutAside(s, s.(state := None), t, AfterInside(s.capacity, th, m.direct));
      case Check(last) => CheckAside(s, t, last);
    }
  }

  lemma WriteGoesOn(th: Thread, r: Response)
    requires th.pc.Writing?
    ensures !AfterWrite(th, r).pc.CloseUnlock?
  {
  }

  lemma InsideGoesOn(capacity: nat, th: Thread, direct: bool)
    requires th.rest != [] && th.rest[0].Guarded? && th.rest[0].sections > 0
    ensures !AfterInside(capacity, th, direct).pc.CloseUnlock?
  {
  }

  lemma ClosingTurns(s: State, t: nat)
    requires t < |s.threads| && s.threads[t].pc.Closing? && StepClosing(s, t).Some?
    requires s.closed <==> CloseRan(s)
    ensures StepClosing(s, t).value.closed <==> CloseRan(StepClosing(s, t).value)
  {
    hide CloseReturning, CloseLogged;
    var th := s.threads[t];
    ThreadTurns(s.threads, t, th.(pc := CloseUnlock));
  }

  lemma ReturnTurns(s: State, t: nat)
    requires t < |s.threads| && s.threads[t].pc.CloseUnlock? && s.threads[t].todo != []
    requires s.closed <==> CloseRan(s)
    ensures var s' := Finish(s.(output := None), t, s.threads[t]);
            s'.closed <==> CloseRan(s')
  {
    hide CloseReturning, CloseLogged;
    var th := s.threads[t];
    LogMore(s.log, EntryOf(t, th));
    ThreadTurns(s.threads, t, Fresh(th.todo[1..]));
    if Returning(th) {
      ThreadTurns(s.threads, t, th);
      assert s.threads[t := th] == s.threads;
    }
  }

  lemma StepCloses(s: State, m: Move, programs: seq<seq<Job>>)
    requires Inv(s, programs) && Step(s, m).Some? && (s.closed <==> CloseRan(s))
    ensures Step(s, m).value.closed <==> CloseRan(Step(s, m).value)
  {
    hide CloseReturning, CloseLogged, Inv, StepClosing, Finish;
    var t, s' := m.thread, Step(s, m).value;
    var th := s.threads[t];
    if th.pc.Closing? {
      ClosingTurns(s, t);
    } else if th.pc.CloseUnlock? {
      ReturnTurns(s, t);
    } else {
      StepAside(s, m, programs);
      hide Step;
      ThreadTurns(s.threads, t, s'.threads[t]);
      if s'.log != s.log {
        LogMore(s.log, s'.log[|s.log|]);
      }
    }
  }

  lemma {:induction false} RunCloses(s: State, moves: seq<Move>, programs: seq<seq<Job>>)
    requires Inv(s, programs) && Run(s, moves).Some? && (s.closed <==> CloseRan(s))
    ensures Run(s, moves).value.closed <==> CloseRan(Run(s, moves).value)
    decreases |moves|
  {
    hide Inv, Step, CloseRan;
    if moves == [] {
    } else {
      StepKeeps(s, moves[0], programs);
      StepCloses(s, moves[0], programs);
      RunCloses(Step(s, moves[0]).value, moves[1..], programs);
    }
  }

  /** The output is closed exactly when a close that may close it has finished or is about to return. */
  lemma ClosedIffCloseRan(capacity: nat, programs: seq<seq<Job>>, moves: seq<Move>, s: State)
    requires Reachable(capacity, programs, moves, s)
    ensures s.closed <==> CloseRan(s)
  {
    InitHolds(capacity, programs);
    assert !CloseRan(Init(capacity, programs));
    hide Inv, Run, CloseRan;
    RunCloses(Init(capacity, programs), moves, programs);
  }

  predicate Harmless(programs: seq<seq<Job>>) {
    forall u, k :: 0 <= u < |programs| && 0 <= k < |programs[u]| ==> programs[u][k] != Close(true)
  }

  lemma {:induction false} JobIsListed(log: seq<Entry>, i: nat)
    requires i < |log|
    ensures log[i].job in JobsOf(log, log[i].thread)
  {
    if i == |log| - 1 {
    } else {
      JobIsListed(log[..|log| - 1], i);
    }
  }

  lemma {:induction false} JobFromProgram(s: State, u: nat, j: Job, programs: seq<seq<Job>>)
    requires Order(s, programs) && u < |programs| && j in JobsOf(s.log, u) + s.threads[u].todo
    ensures j in programs[u]
  {
    hide JobsOf;
  }

  /** Where no program may close the output, it stays open and no line is ever dropped. */
  lemma OpenStaysOpen(capacity: nat, programs: seq<seq<Job>>, moves: seq<Move>, s: State)
    requires Reachable(capacity, programs, moves, s) && Harmless(programs)
    ensures !s.closed && forall i :: 0 <= i < |s.log| ==> !s.log[i].dropped
  {
    ClosedIffCloseRan(capacity, programs, moves, s);
    ReachableIsInv(capacity, programs, moves, s);
    LinesNeverMix(capacity, programs, moves, s);
    hide Reachable, JobsOf, Threads, Stream, TakenFrom, Blocks;
    if CloseLogged(s.log) {
      var i :| 0 <= i < |s.log| && s.log[i].job == Close(true);
      JobIsListed(s.log, i);
      JobFromProgram(s, s.log[i].thread, Close(true), programs);
    }
    if CloseReturning(s.threads) {
      var u :| 0 <= u < |s.threads| && Returning(s.threads[u]);
      JobFromProgram(s, u, Close(true), programs);
    }
  }

  /** Once a close that may close has finished, nothing reaches the sink any more. */
  lemma {:induction false} NothingAfterCloseRan(capacity: nat, programs: seq<seq<Job>>, before: seq<Move>,
                                                s: State, after: seq<Move>)
    requires Reachable(capacity, programs, before, s) && Run(s, after).Some?
    requires exists i :: 0 <= i < |s.log| && s.log[i].job == Close(true)
    ensures Run(s, after).value.stream == s.stream && Run(s, after).value.closes == 1
  {
    ReachableIsInv(capacity, programs, before, s);
    ClosedIffCloseRan(capacity, programs, before, s);
    hide Inv, Run, Reachable;
    assert CloseLogged(s.log);
    NothingAfterClose(s, after, programs);
  }

  // ----- mutexes -----

  /** The thread's next step takes the output mutex. */
  predicate WantsOutput(th: Thread) {
    th.pc.FirstLock? || th.pc.FlushLock? || th.pc.LastLock? || (th.pc.Idle? && th.todo != [] && th.todo[0].Close?)
  }

  /** The thread's next step takes the state mutex. */
  predicate WantsState(th: Thread) {
    th.pc.ResolveLock? || (th.pc.Fill? && th.rest != [] && th.rest[0].Guarded? && th.rest[0].sections > 0) ||
    (th.pc.Idle? && th.todo != [] && th.todo[0].Touch?)
  }

  predicate Done(th: Thread) {
    th.pc.Idle? && th.todo == []
  }

  /** Between jobs a thread holds nothing, and nobody asks for the output mutex with the state mutex in hand. */
  lemma MutexDiscipline(s: State, t: nat, programs: seq<seq<Job>>)
    requires Inv(s, programs) && t < |s.threads|
    ensures s.threads[t].pc.Idle? ==> s.output != Some(t) && s.state != Some(t)
    ensures WantsOutput(s.threads[t]) ==> s.state != Some(t) && s.output != Some(t)
    ensures WantsState(s.threads[t]) ==> s.state != Some(t)
  {
    hide Inv, ThreadOk;
    Known(s, t, programs);
  }

  /** A console line, from its first byte on and unless it was dropped, is made with the output mutex in hand. */
  predicate Eager(th: Thread) {
    (th.todo != [] && th.todo[0].Emit? && th.todo[0].console && !th.dropped && !Starting(th.pc)) ==> th.locked
  }

  predicate Starting(pc: Pc) {
    pc.Idle? || pc.ResolveLock? || pc.Resolving? || pc.FirstLock?
  }

  predicate AllEager(s: State) {
    forall u :: 0 <= u < |s.threads| ==> Eager(s.threads[u])
  }

  lemma PutEager(s: State, s1: State, t: nat, th: Thread)
    requires AllEager(s) && t < |s.threads| && s1.threads == s.threads && Eager(th)
    ensures AllEager(Put(s1, t, th))
  {
    hide Eager;
  }

  lemma FinishEager(s: State, s1: State, t: nat, th: Thread)
    requires AllEager(s) && t < |s.threads| && s1.threads == s.threads && th.todo != []
    ensures AllEager(Finish(s1, t, th))
  {
    assert Eager(Fresh(th.todo[1..]));
    hide Eager;
  }

  lemma FillEager(s: State, t: nat)
    requires AllEager(s) && t < |s.threads| && StepFill(s, t).Some? && s.threads[t].pc.Fill?
    ensures AllEager(StepFill(s, t).value)
  {
    var th, s' := s.threads[t], StepFill(s, t).value;
    assert Eager(th);
    hide AllEager;
    if th.rest == [] && th.buf == [] && !th.locked {
      FinishEager(s, s, t, th);
    } else {
      PutEager(s, s.(state := s'.state), t, s'.threads[t]);
    }
  }

  lemma AheadEager(s: State, m: Move)
    requires AllEager(s) && Step(s, m).Some?
    requires s.threads[m.thread].pc.Inside? || s.threads[m.thread].pc.Writing? || s.threads[m.thread].pc.Check?
    ensures AllEager(Step(s, m).value)
  {
    var t := m.thread;
    var th := s.threads[t];
    assert Eager(th);
    hide AllEager;
    match th.pc
    case Inside => PutEager(s, s.(state := None), t, AfterInside(s.capacity, th, m.direct));
    case Writing(_, _) =>
      PutEager(s, s.(stream := s.stream + Accepted(th, m.response)), t, AfterWrite(th, m.response));
    case Check(last) =>
      PutEager(s, s, t, th.(pc := Writing(0, last)));
      PutEager(s, s, t, Dropped(th).(pc := Unlocking));
      PutEager(s, s.(output := None), t, Dropped(th).(locked := false, pc := Fill));
  }

  lemma StepEager(s: State, m: Move)
    requires AllEager(s) && Step(s, m).Some?
    ensures AllEager(Step(s, m).value)
  {
    hide AllEager, StepFill, AfterWrite, Accepted, AfterInside;
    var t := m.thread;
    var th := s.threads[t];
    match th.pc
    case Idle =>
      if th.todo[0].Emit? {
        FinishEager(s, s, t, th.(dropped := true));
        PutEager(s, s, t, th.(pc := Begin(th.todo[0]), rest := th.todo[0].pieces));
      } else {
        PutEager(s, s.(state := Some(t)), t, th.(pc := Touching));
        PutEager(s, s.(output := Some(t)), t, th.(pc := Closing));
      }
    case Touching => FinishEager(s, s.(state := None), t, th);
    case Closing =>
      var s' := Step(s, m).value;
      PutEager(s, s.(closed := s'.closed, closes := s'.closes), t, th.(pc := CloseUnlock));
    case CloseUnlock => FinishEager(s, s.(output := None), t, th);
    case ResolveLock => PutEager(s, s.(state := Some(t)), t, th.(pc := Resolving));
    case Resolving => PutEager(s, s.(state := None), t, th.(pc := if th.todo[0].console then FirstLock else Fill));
    case FirstLock => PutEager(s, s.(output := Some(t)), t, th.(locked := true, pc := Fill));
    case Fill => FillEager(s, t);
    case FlushLock => PutEager(s, s.(output := Some(t)), t, th.(locked := true, pc := Check(false)));
    case LastLock => PutEager(s, s.(output := Some(t)), t, th.(locked := true, pc := Check(true)));
    case Unlocking => FinishEager(s, s.(output := None), t, th);
    case Inside => AheadEager(s, m);
    case Writing(_, _) => AheadEager(s, m);
    case Check(_) => AheadEager(s, m);
  }

  lemma {:induction false} RunEager(s: State, moves: seq<Move>)
    requires AllEager(s) && Run(s, moves).Some?
    ensures AllEager(Run(s, moves).value)
    decreases |moves|
  {
    hide Step, AllEager;
    if moves == [] {
    } else {
      StepEager(s, moves[0]);
      RunEager(Step(s, moves[0]).value, moves[1..]);
    }
  }

  /** In every reachable state, a thread at work on a console line owns the output mutex, unless the line was dropped. */
  lemma ConsoleHoldsMutex(capacity: nat, programs: seq<seq<Job>>, moves: seq<Move>, s: State, t: nat)
    requires Reachable(capacity, programs, moves, s) && t < |s.threads|
    requires s.threads[t].todo != [] && s.threads[t].todo[0].Emit? && s.threads[t].todo[0].console
    ensures (s.threads[t].buf != [] || s.threads[t].got != []) && !s.threads[t].dropped ==> s.output == Some(t)
  {
    hide Inv, Run, ThreadOk;
    ReachableIsInv(capacity, programs, moves, s);
    assert AllEager(Init(capacity, programs));
    RunEager(Init(capacity, programs), moves);
    assert Eager(s.threads[t]);
    Known(s, t, programs);
    if s.threads[t].buf != [] || s.threads[t].got != [] {
      BusyIsPast(s.capacity, s.output == Some(t), s.state == Some(t), s.closed, s.threads[t]);
    }
  }

  lemma BusyIsPast(capacity: nat, output: bool, state: bool, closed: bool, th: Thread)
    requires ThreadOk(capacity, output, state, closed, th) && (th.buf != [] || th.got != [])
    ensures !Starting(th.pc)
  {
    hide Balanced;
  }

  /** A format is resolved under the state mutex before anything of its line is made. */
  lemma ResolvedUnderMutex(s: State, m: Move, programs: seq<seq<Job>>)
    requires Inv(s, programs) && Step(s, m).Some?
    requires s.threads[m.thread].todo != [] && s.threads[m.thread].todo[0].Emit? && s.threads[m.thread].todo[0].kvfmt
    ensures |Step(s, m).value.threads| == |s.threads|
    ensures s.threads[m.thread].pc.Idle? ==>
              Step(s, m).value.threads[m.thread].pc.ResolveLock? ||
              (s.closed && Step(s, m).value.threads[m.thread].pc.Idle?)
    ensures s.threads[m.thread].pc.ResolveLock? ==>
              Step(s, m).value.threads[m.thread].pc.Resolving? && Step(s, m).value.state == Some(m.thread)
  {
    hide Inv;
    JobAtClose(s, m.thread, programs);
    StepAside(s, m, programs);
  }

  lemma JobAtClose(s: State, t: nat, programs: seq<seq<Job>>)
    requires Inv(s, programs) && t < |s.threads| && s.threads[t].todo != [] && s.threads[t].todo[0].Emit?
    ensures !s.threads[t].pc.Closing? && !s.threads[t].pc.CloseUnlock?
  {
    hide Inv, ThreadOk;
    Known(s, t, programs);
    if !s.threads[t].pc.Idle? {
      JobInPlace(s.capacity, s.output == Some(t), s.state == Some(t), s.closed, s.threads[t]);
    }
  }

  /**
   A write is tried again exactly after a short one: an error or an empty answer
   gives up the rest of the block, and only that loses anything.
   */
  lemma OnlyShortWritesGoOn(th: Thread, r: Response)
    requires th.pc.Writing? && Unsent(th) != []
    ensures AfterWrite(th, r).pc.Writing? <==> r.err == 0 && 0 < r.written < |Unsent(th)|
    ensures AfterWrite(th, r).lossy <==>
            th.lossy || ((r.err != 0 || r.written == 0) && r.written < |Unsent(th)|)
  {
  }

  lemma CanFill(s: State, t: nat)
    requires t < |s.threads| && s.threads[t].pc.Fill? && s.threads[t].todo != []
    ensures StepFill(s, t).Some? <==> (WantsState(s.threads[t]) ==> s.state.None?)
  {
    hide StepAppend, EndOfText, Finish;
  }

  lemma CanStart(s: State, t: nat)
    requires t < |s.threads| && s.threads[t].pc.Idle?
    ensures StepIdle(s, t).Some? <==> Able(s, s.threads[t])
  {
    hide Finish, Put;
  }

  /** What a place asks of a thread that stands at it, for its next step to make sense. */
  lemma InPlace(capacity: nat, output: bool, state: bool, closed: bool, th: Thread)
    requires ThreadOk(capacity, output, state, closed, th) && !th.pc.Idle?
    ensures th.todo != [] && (th.pc.Resolving? ==> th.todo[0].Emit?) && (th.pc.Closing? ==> th.todo[0].Close?)
    ensures th.pc.Inside? ==> th.rest != [] && th.rest[0].Guarded? && th.rest[0].sections > 0
  {
    hide Balanced;
  }

  /** The thread has something left to do, and nobody has the mutex it wants. */
  predicate Able(s: State, th: Thread) {
    !Done(th) && (WantsOutput(th) ==> s.output.None?) && (WantsState(th) ==> s.state.None?)
  }

  /** A place where the next step waits for nothing. */
  predicate Unhindered(pc: Pc) {
    pc.Touching? || pc.Closing? || pc.CloseUnlock? || pc.Resolving? || pc.Inside? || pc.Check? || pc.Writing? ||
    pc.Unlocking?
  }

  lemma CanGoOn(s: State, m: Move, programs: seq<seq<Job>>)
    requires Inv(s, programs) && m.thread < |s.threads| && Unhindered(s.threads[m.thread].pc)
    ensures Step(s, m).Some? && Able(s, s.threads[m.thread])
  {
    hide Inv, ThreadOk, Finish, Put, AfterWrite, Accepted, AfterInside, StepFill, StepIdle, StepLock;
    var t := m.thread;
    Known(s, t, programs);
    InPlace(s.capacity, s.output == Some(t), s.state == Some(t), s.closed, s.threads[t]);
  }

  lemma CanLock(s: State, m: Move)
    requires m.thread < |s.threads|
    requires var pc := s.threads[m.thread].pc;
             pc.FirstLock? || pc.FlushLock? || pc.LastLock? || pc.ResolveLock?
    ensures Step(s, m).Some? <==> Able(s, s.threads[m.thread])
  {
    hide Put;
  }

  /** A thread that is not done can take a step unless a mutex it wants is taken. */
  lemma CanStep(s: State, m: Move, programs: seq<seq<Job>>)
    requires Inv(s, programs) && m.thread < |s.threads|
    ensures Step(s, m).Some? <==> Able(s, s.threads[m.thread])
  {
    hide Inv, ThreadOk, Able;
    var t := m.thread;
    var th := s.threads[t];
    Known(s, t, programs);
    if Unhindered(th.pc) {
      CanGoOn(s, m, programs);
    } else if th.pc.Idle? {
      CanStart(s, t);
      IdleStep(s, m);
    } else if th.pc.Fill? {
      InPlace(s.capacity, s.output == Some(t), s.state == Some(t), s.closed, th);
      CanFill(s, t);
      FillStep(s, m);
    } else {
      CanLock(s, m);
    }
  }

  lemma IdleStep(s: State, m: Move)
    requires m.thread < |s.threads| && s.threads[m.thread].pc.Idle?
    ensures Step(s, m) == StepIdle(s, m.thread)
  {
  }

  lemma FillStep(s: State, m: Move)
    requires m.thread < |s.threads| && s.threads[m.thread].pc.Fill?
    ensures Step(s, m) == StepFill(s, m.thread)
    ensures Able(s, s.threads[m.thread]) <==> (WantsState(s.threads[m.thread]) ==> s.state.None?)
  {
    hide StepFill;
  }

  /** Whatever the sink answers, some thread can go on, as long as one is not done. */
  lemma NoDeadlock(s: State, r: Response, direct: bool, programs: seq<seq<Job>>)
    requires Inv(s, programs)
    requires exists t :: 0 <= t < |s.threads| && !Done(s.threads[t])
    ensures exists t :: 0 <= t < |s.threads| && Step(s, Move(t, r, direct)).Some?
  {
    hide Step;
    var t :| 0 <= t < |s.threads| && !Done(s.threads[t]);
    var go := if s.state.Some? then s.state.value else if s.output.Some? then s.output.value else t;
    assert go < |s.threads|;
    MutexDiscipline(s, go, programs);
    Known(s, go, programs);
    CanStep(s, Move(go, r, direct), programs);
  }
}
