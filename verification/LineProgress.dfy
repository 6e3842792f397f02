/**
 Every schedule of the line protocol is finite, and one that cannot be extended
 has finished every job of every thread.
 */
module LineProgress {
  import opened Bytes
  import opened Outputs
  import opened LineProtocol
  import opened LineGuarantees

  // ----- a bound on the steps that are left -----

  function PieceCost(p: Piece): nat {
    16 * |p.text| + 4 + (if p.Guarded? then 4 * p.sections else 0)
  }

  function PiecesCost(ps: seq<Piece>): nat {
    if ps == [] then 0 else PieceCost(ps[0]) + PiecesCost(ps[1..])
  }

  function JobCost(j: Job): nat {
    if j.Emit? then PiecesCost(j.pieces) + 20 else 10
  }

  function JobsCost(js: seq<Job>): nat {
    if js == [] then 0 else JobCost(js[0]) + JobsCost(js[1..])
  }

  function PcRank(pc: Pc): nat {
    match pc
    case Idle => 0
    case Touching => 3
    case Closing => 4
    case CloseUnlock => 3
    case ResolveLock => 14
    case Resolving => 13
    case FirstLock => 12
    case Fill => 6
    case Inside => 5
    case FlushLock => 5
    case LastLock => 5
    case Check(_) => 4
    case Writing(_, _) => 3
    case Unlocking => 2
  }

  function ThreadRank(th: Thread): nat {
    if th.pc.Idle? || th.todo == [] then JobsCost(th.todo)
    else JobsCost(th.todo[1..]) + PiecesCost(th.rest) + 4 * |Unsent(th)| + PcRank(th.pc)
  }

  function Rank(ths: seq<Thread>): nat {
    if ths == [] then 0 else ThreadRank(ths[0]) + Rank(ths[1..])
  }

  lemma {:induction false} RankUpdate(ths: seq<Thread>, t: nat, th: Thread)
    requires t < |ths|
    ensures Rank(ths[t := th]) == Rank(ths) - ThreadRank(ths[t]) + ThreadRank(th)
  {
    hide ThreadRank;
    var ths' := ths[t := th];
    if t == 0 {
      assert ths'[1..] == ths[1..];
    } else {
      RankUpdate(ths[1..], t - 1, th);
      assert ths'[1..] == ths[1..][t - 1 := th];
    }
  }

  // ----- each step uses some of it up -----

  lemma {:induction false} FirstCost(p: Piece, ps: seq<Piece>)
    ensures PiecesCost([p] + ps) == PieceCost(p) + PiecesCost(ps)
  {
    assert ([p] + ps)[1..] == ps;
  }

  lemma {:induction false} FreshRank(todo: seq<Job>)
    ensures ThreadRank(Fresh(todo)) == JobsCost(todo)
  {
  }

  /** Finishing a job is downhill from anywhere. */
  lemma FinishRank(th: Thread)
    requires th.todo != [] && (th.pc.Idle? || PcRank(th.pc) > 0)
    ensures ThreadRank(Fresh(th.todo[1..])) < ThreadRank(th)
  {
    hide PiecesCost, Unsent;
    FreshRank(th.todo[1..]);
    if th.pc.Idle? {
      assert JobsCost(th.todo) == JobCost(th.todo[0]) + JobsCost(th.todo[1..]);
    }
  }

  /** Nothing of the buffer, the pieces or the jobs changed, and the place is a later one. */
  lemma PcRankDown(th: Thread, th': Thread)
    requires th.todo != [] && !th.pc.Idle? && !th'.pc.Idle? && th'.todo == th.todo && th'.rest == th.rest
    requires |Unsent(th')| == |Unsent(th)| && PcRank(th'.pc) < PcRank(th.pc)
    ensures ThreadRank(th') < ThreadRank(th)
  {
    hide PiecesCost, Unsent, PcRank, JobsCost;
  }

  lemma IdleRank(s: State, t: nat)
    requires t < |s.threads| && s.threads[t] == Fresh(s.threads[t].todo) && StepIdle(s, t).Some?
    ensures ThreadRank(StepIdle(s, t).value.threads[t]) < ThreadRank(s.threads[t])
  {
    var th := s.threads[t];
    FinishRank(th);
    assert JobsCost(th.todo) == JobCost(th.todo[0]) + JobsCost(th.todo[1..]);
  }

  lemma AppendRank(capacity: nat, th: Thread)
    requires th.todo != [] && th.pc.Fill? && th.rest != [] && !(th.rest[0].Guarded? && th.rest[0].sections > 0)
    ensures ThreadRank(StepAppend(capacity, th)) < ThreadRank(th)
  {
    hide JobsCost;
    var text := th.rest[0].text;
    if text != [] && Room(capacity, th) > 0 {
      var n := Min(|text|, Room(capacity, th));
      FirstCost(Plain(text[n..]), th.rest[1..]);
    } else if text != [] {
      PcRankDown(th, StepAppend(capacity, th));
    }
  }

  lemma FillRank(s: State, t: nat)
    requires t < |s.threads| && s.threads[t].todo != [] && s.threads[t].pc.Fill? && StepFill(s, t).Some?
    ensures ThreadRank(StepFill(s, t).value.threads[t]) < ThreadRank(s.threads[t])
  {
    hide ThreadRank, StepAppend;
    var th := s.threads[t];
    if th.rest == [] && th.buf == [] && !th.locked {
      FinishRank(th);
    } else if th.rest != [] && !(th.rest[0].Guarded? && th.rest[0].sections > 0) {
      AppendRank(s.capacity, th);
    } else {
      PcRankDown(th, StepFill(s, t).value.threads[t]);
    }
  }

  lemma InsideRank(s: State, t: nat, direct: bool)
    requires t < |s.threads| && s.threads[t].todo != [] && s.threads[t].pc.Inside? && StepInside(s, t, direct).Some?
    ensures ThreadRank(StepInside(s, t, direct).value.threads[t]) < ThreadRank(s.threads[t])
  {
    hide JobsCost;
    var th := s.threads[t];
    var p := th.rest[0];
    FirstCost(Guarded(p.text, p.sections - 1), th.rest[1..]);
  }

  lemma CheckRank(s: State, t: nat, last: bool)
    requires t < |s.threads| && s.threads[t].todo != [] && s.threads[t].pc == Check(last) && s.threads[t].buf != []
    ensures ThreadRank(StepCheck(s, t, last).value.threads[t]) < ThreadRank(s.threads[t])
  {
    hide JobsCost, PiecesCost;
  }

  lemma WriteRank(th: Thread, r: Response)
    requires th.todo != [] && th.pc.Writing? && th.pc.offset < |th.buf|
    ensures ThreadRank(AfterWrite(th, r)) < ThreadRank(th)
  {
    hide JobsCost, PiecesCost;
  }

  /** The places from which a thread only goes on to a later place, taking or leaving a mutex. */
  predicate Passing(pc: Pc) {
    pc.Closing? || pc.ResolveLock? || pc.Resolving? || pc.FirstLock? || pc.FlushLock? || pc.LastLock?
  }

  /** Such a step changes the place, to one that ranks lower, and at most the hold on the output mutex. */
  predicate Passes(th: Thread, th': Thread) {
    th' == th.(pc := th'.pc, locked := th'.locked) && !th'.pc.Writing? && !th'.pc.Idle? && PcRank(th'.pc) < PcRank(th.pc)
  }

  lemma PassingLock(s: State, t: nat, pc: Pc, s': State)
    requires t < |s.threads| && StepLock(s, t, pc) == Some(s') && LockLeads(s.threads[t].pc, pc)
    ensures |s'.threads| == |s.threads| && Passes(s.threads[t], s'.threads[t])
  {
    PassingThread(s.threads[t], s.threads[t].(locked := true, pc := pc));
    hide Passes;
  }

  lemma PassingClose(s: State, t: nat, s': State)
    requires t < |s.threads| && StepClosing(s, t) == Some(s') && s.threads[t].pc.Closing?
    ensures |s'.threads| == |s.threads| && Passes(s.threads[t], s'.threads[t])
  {
    PassingThread(s.threads[t], s.threads[t].(pc := CloseUnlock));
    hide Passes;
  }

  lemma PassingResolve(s: State, m: Move, s': State)
    requires m.thread < |s.threads| && Step(s, m) == Some(s')
    requires s.threads[m.thread].pc.ResolveLock? || s.threads[m.thread].pc.Resolving?
    ensures |s'.threads| == |s.threads| && Passes(s.threads[m.thread], s'.threads[m.thread])
  {
    hide Passes, StepIdle, StepFill, StepInside, StepCheck, StepWriting, StepLock, StepClosing;
    var th := s.threads[m.thread];
    PassingThread(th, s'.threads[m.thread]);
  }

  lemma PassingMoves(s: State, m: Move, s': State)
    requires m.thread < |s.threads| == |s'.threads| && Step(s, m) == Some(s') && Passing(s.threads[m.thread].pc)
    ensures Passes(s.threads[m.thread], s'.threads[m.thread])
  {
    hide Passes, StepIdle, StepFill, StepInside, StepCheck, StepWriting, StepLock, StepClosing, Put, Finish;
    var pc := s.threads[m.thread].pc;
    if pc.Closing? {
      PassingClose(s, m.thread, s');
    } else if pc.FirstLock? {
      PassingLock(s, m.thread, Fill, s');
    } else if pc.FlushLock? {
      PassingLock(s, m.thread, Check(false), s');
    } else if pc.LastLock? {
      PassingLock(s, m.thread, Check(true), s');
    } else {
      PassingResolve(s, m, s');
    }
  }

  lemma PassingThread(th: Thread, th': Thread)
    requires th' == th.(pc := th'.pc, locked := th'.locked)
    requires th'.pc.CloseUnlock? || th'.pc.Resolving? || th'.pc.FirstLock? || th'.pc.Fill? || th'.pc.Check?
    ensures PcRank(th'.pc) < PcRank(th.pc) ==> Passes(th, th')
  {
  }

  lemma EndingMoves(s: State, m: Move, s': State)
    requires m.thread < |s.threads| == |s'.threads| && Step(s, m) == Some(s') && s.threads[m.thread].todo != []
    requires s.threads[m.thread].pc.Touching? || s.threads[m.thread].pc.CloseUnlock? || s.threads[m.thread].pc.Unlocking?
    ensures s'.threads[m.thread] == Fresh(s.threads[m.thread].todo[1..])
  {
  }

  lemma OtherRank(s: State, m: Move, s': State)
    requires m.thread < |s.threads| == |s'.threads| && Step(s, m) == Some(s') && s.threads[m.thread].todo != []
    requires var pc := s.threads[m.thread].pc;
             !pc.Idle? && !pc.Fill? && !pc.Inside? && !pc.Check? && !pc.Writing?
    ensures ThreadRank(s'.threads[m.thread]) < ThreadRank(s.threads[m.thread])
  {
    hide Step, ThreadRank;
    var th, th' := s.threads[m.thread], s'.threads[m.thread];
    if Passing(th.pc) {
      PassingMoves(s, m, s');
      hide PcRank;
      PcRankDown(th, th');
    } else {
      EndingMoves(s, m, s');
      FinishRank(th);
    }
  }

  lemma ThreadDown(s: State, m: Move, s': State, programs: seq<seq<Job>>)
    requires Inv(s, programs) && m.thread < |s.threads| == |s'.threads| && Step(s, m) == Some(s')
    ensures ThreadRank(s'.threads[m.thread]) < ThreadRank(s.threads[m.thread])
  {
    var t := m.thread;
    Known(s, t, programs);
    var th := s.threads[t];
    hide ThreadRank, StepIdle, StepFill, StepInside, StepCheck, AfterWrite, Inv, Balanced;
    if th.pc.Idle? {
      IdleRank(s, t);
    } else if th.pc.Fill? {
      FillRank(s, t);
    } else if th.pc.Inside? {
      InsideRank(s, t, m.direct);
    } else if th.pc.Check? {
      CheckRank(s, t, th.pc.last);
    } else if th.pc.Writing? {
      WriteRank(th, m.response);
    } else {
      OtherRank(s, m, s');
    }
  }

  lemma OneThreadMoves(s: State, m: Move, s': State)
    requires Step(s, m) == Some(s')
    ensures m.thread < |s.threads| == |s'.threads| && s'.threads == s.threads[m.thread := s'.threads[m.thread]]
  {
    hide AfterWrite;
    if s.threads[m.thread].pc.Writing? {
      assert s' == Put(s.(stream := s'.stream), m.thread, AfterWrite(s.threads[m.thread], m.response));
    } else {
      StepIsModest(s, m);
      hide Step;
    }
  }

  lemma StepDown(s: State, m: Move, programs: seq<seq<Job>>)
    requires Inv(s, programs) && Step(s, m).Some?
    ensures Rank(Step(s, m).value.threads) < Rank(s.threads)
  {
    hide Step, Rank, ThreadRank, Inv;
    var s' := Step(s, m).value;
    OneThreadMoves(s, m, s');
    ThreadDown(s, m, s', programs);
    RankUpdate(s.threads, m.thread, s'.threads[m.thread]);
  }

  /** No schedule is longer than the rank of the state it starts from, whatever the sink does. */
  lemma {:induction false} RunIsBounded(s: State, moves: seq<Move>, programs: seq<seq<Job>>)
    requires Inv(s, programs) && Run(s, moves).Some?
    ensures |moves| <= Rank(s.threads)
    decreases |moves|
  {
    hide Step, Rank, Inv;
    if moves == [] {
    } else {
      StepKeeps(s, moves[0], programs);
      StepDown(s, moves[0], programs);
      RunIsBounded(Step(s, moves[0]).value, moves[1..], programs);
    }
  }

  ghost predicate Stuck(s: State) {
    forall t: nat, r: Response, direct: bool :: Step(s, Move(t, r, direct)).None?
  }

  /**
   A run that cannot go on has finished: every job of every thread is done, in
   program order, both mutexes are free, and the stream is what the sink took of
   the finished lines and nothing else.
   */
  lemma StuckIsFinished(capacity: nat, programs: seq<seq<Job>>, moves: seq<Move>, s: State)
    requires Reachable(capacity, programs, moves, s) && Stuck(s)
    ensures forall t :: 0 <= t < |programs| ==> JobsOf(s.log, t) == programs[t]
    ensures s.output == None && s.state == None
    ensures s.stream == Concat(Gots(s.log))
    ensures AllKind(moves) ==> s.stream == Lines(s.log)
  {
    hide Step, Reachable, Run;
    ReachableIsInv(capacity, programs, moves, s);
    if t :| 0 <= t < |s.threads| && !Done(s.threads[t]) {
      NoDeadlock(s, Response(0, 0), false, programs);
      assert false;
    }
    AllDone(s, programs);
    if AllKind(moves) {
      WholeLines(capacity, programs, moves, s);
    }
    assert Concat(Gots(s.log)) + [] == Concat(Gots(s.log));
    assert Lines(s.log) + [] == Lines(s.log);
  }

  lemma AllDone(s: State, programs: seq<seq<Job>>)
    requires Inv(s, programs) && forall t :: 0 <= t < |s.threads| ==> Done(s.threads[t])
    ensures s.output == None && s.state == None
    ensures forall t :: 0 <= t < |programs| ==> JobsOf(s.log, t) == programs[t]
  {
    if s.output.Some? {
      Known(s, s.output.value, programs);
    }
    if s.state.Some? {
      Known(s, s.state.value, programs);
    }
    forall t | 0 <= t < |programs|
      ensures JobsOf(s.log, t) == programs[t]
    {
      assert JobsOf(s.log, t) + [] == JobsOf(s.log, t);
    }
  }
}
