/**
 Any number of threads that log and close through one output, as a machine of
 small steps over the output mutex, the state mutex and the sink
 (src/pslog.c, `pslog_buffer_flush`, `pslog_write_buffer`, `pslog_close_shared`,
 `pslog_append_timestamp`). The scheduler and the sink are arbitrary.
 */
module LineProtocol {
  import opened Bytes
  import opened Outputs

  /**
   What an emitter appends. A guarded piece comes from a cache: `sections`
   critical sections of the state mutex precede it (timestamp, double).
   */
  datatype Piece = Plain(text: bytes) | Guarded(text: bytes, sections: nat)

  /**
   What a thread does in turn. A console line takes the output mutex before its
   first byte; a kvfmt line resolves its format under the state mutex first.
   `Touch` stands for deriving and releasing loggers, which take the state mutex.
   */
  datatype Job =
    | Emit(console: bool, kvfmt: bool, pieces: seq<Piece>)
    | Close(allow: bool)
    | Touch

  function TextOf(ps: seq<Piece>): bytes {
    if ps == [] then [] else ps[0].text + TextOf(ps[1..])
  }

  function LineOf(j: Job): bytes {
    if j.Emit? then TextOf(j.pieces) else []
  }

  /** Where a thread is. `last` tells the final write from a flush. */
  datatype Pc =
    | Idle
    | Touching
    | Closing
    | CloseUnlock
    | ResolveLock
    | Resolving
    | FirstLock
    | Fill
    | Inside
    | FlushLock
    | LastLock
    | Check(last: bool)
    | Writing(offset: nat, last: bool)
    | Unlocking

  /**
   A thread: its jobs, the one at work first, the line buffer of that one, and
   what became of its bytes so far: the blocks that left the buffer and what the
   sink took of each.
   */
  datatype Thread = Thread(
    todo: seq<Job>,
    pc: Pc,
    rest: seq<Piece>,
    buf: bytes,
    locked: bool,
    got: bytes,
    blocks: seq<bytes>,
    tooks: seq<bytes>,
    lossy: bool,
    dropped: bool)

  function Fresh(todo: seq<Job>): Thread {
    Thread(todo, Idle, [], [], false, [], [], [], false, false)
  }

  /**
   A finished job: the blocks its buffer was emptied of, what the sink took of
   each and in all, and whether any of it was lost or dropped.
   */
  datatype Entry = Entry(
    thread: nat, job: Job, got: bytes, blocks: seq<bytes>, tooks: seq<bytes>, lossy: bool, dropped: bool)

  function EntryOf(t: nat, th: Thread): Entry
    requires th.todo != []
  {
    Entry(t, th.todo[0], th.got, th.blocks, th.tooks, th.lossy, th.dropped)
  }

  datatype State = State(
    capacity: nat,
    threads: seq<Thread>,
    output: Option<nat>,
    state: Option<nat>,
    closed: bool,
    closes: nat,
    stream: bytes,
    log: seq<Entry>)

  /** A scheduling choice, the sink's answer if it is asked, and the direct copy if there is one. */
  datatype Move = Move(thread: nat, response: Response, direct: bool)

  // ----- steps -----

  function Put(s: State, t: nat, th: Thread): State
    requires t < |s.threads|
  {
    s.(threads := s.threads[t := th])
  }

  function Finish(s: State, t: nat, th: Thread): State
    requires t < |s.threads| && th.todo != []
  {
    s.(threads := s.threads[t := Fresh(th.todo[1..])],
       log := s.log + [EntryOf(t, th)])
  }

  function Begin(j: Job): Pc
    requires j.Emit?
  {
    if j.kvfmt then ResolveLock else if j.console then FirstLock else Fill
  }

  function StepIdle(s: State, t: nat): Option<State>
    requires t < |s.threads|
  {
    var th := s.threads[t];
    if th.todo == [] then None
    else
      match th.todo[0]
      case Touch => if s.state.Some? then None else Some(Put(s.(state := Some(t)), t, th.(pc := Touching)))
      case Close(_) => if s.output.Some? then None else Some(Put(s.(output := Some(t)), t, th.(pc := Closing)))
      case Emit(_, _, pieces) =>
        if s.closed then Some(Finish(s, t, th.(dropped := true)))
        else Some(Put(s, t, th.(pc := Begin(th.todo[0]), rest := pieces)))
  }

  function StepClosing(s: State, t: nat): Option<State>
    requires t < |s.threads|
  {
    var th := s.threads[t];
    if th.todo == [] || !th.todo[0].Close? then None
    else
      var s' := Put(s, t, th.(pc := CloseUnlock));
      if th.todo[0].allow && !s.closed then Some(s'.(closed := true, closes := s.closes + 1)) else Some(s')
  }

  /** Take the output mutex. */
  function StepLock(s: State, t: nat, pc: Pc): Option<State>
    requires t < |s.threads|
  {
    if s.output.Some? then None
    else Some(Put(s.(output := Some(t)), t, s.threads[t].(locked := true, pc := pc)))
  }

  function Room(capacity: nat, th: Thread): nat {
    if |th.buf| <= capacity then capacity - |th.buf| else 0
  }

  /** One step of appending: skip a finished piece, copy what fits, or go for more room. */
  function StepAppend(capacity: nat, th: Thread): Thread
    requires th.rest != []
  {
    var text := th.rest[0].text;
    if text == [] then th.(rest := th.rest[1..])
    else if Room(capacity, th) == 0 then th.(pc := if th.locked then Check(false) else FlushLock)
    else
      var n := Min(|text|, Room(capacity, th));
      th.(buf := th.buf + text[..n], rest := [Plain(text[n..])] + th.rest[1..])
  }

  /** The end of the text: on to the final write, or to the end of an empty line. */
  function EndOfText(th: Thread): Thread {
    th.(pc := if th.buf == [] then Unlocking else if th.locked then Check(true) else LastLock)
  }

  function StepFill(s: State, t: nat): Option<State>
    requires t < |s.threads|
  {
    var th := s.threads[t];
    if th.rest == [] then
      if th.buf != [] || th.locked then Some(Put(s, t, EndOfText(th)))
      else if th.todo == [] then None
      else Some(Finish(s, t, th))
    else if th.rest[0].Guarded? && th.rest[0].sections > 0 then
      if s.state.Some? then None else Some(Put(s.(state := Some(t)), t, th.(pc := Inside)))
    else Some(Put(s, t, StepAppend(s.capacity, th)))
  }

  /** Leaving a critical section of the state mutex; the last one may copy the text in place if it fits. */
  function AfterInside(capacity: nat, th: Thread, direct: bool): Thread
    requires th.rest != [] && th.rest[0].Guarded? && th.rest[0].sections > 0
  {
    var p := th.rest[0];
    (if direct && p.sections == 1 && |p.text| <= Room(capacity, th)
     then th.(buf := th.buf + p.text, rest := th.rest[1..])
     else th.(rest := [Guarded(p.text, p.sections - 1)] + th.rest[1..])).(pc := Fill)
  }

  function StepInside(s: State, t: nat, direct: bool): Option<State>
    requires t < |s.threads|
  {
    var th := s.threads[t];
    if th.rest == [] || !th.rest[0].Guarded? || th.rest[0].sections == 0 then None
    else Some(Put(s.(state := None), t, AfterInside(s.capacity, th, direct)))
  }

  /** With the mutex in hand: a closed output drops the block, an open one gets it. */
  function StepCheck(s: State, t: nat, last: bool): Option<State>
    requires t < |s.threads|
  {
    var th := s.threads[t];
    if !s.closed then Some(Put(s, t, th.(pc := Writing(0, last))))
    else if last then Some(Put(s, t, Dropped(th).(pc := Unlocking)))
    else Some(Put(s.(output := None), t, Dropped(th).(locked := false, pc := Fill)))
  }

  /** The block in the buffer is gone and nothing of it was taken. */
  function Dropped(th: Thread): Thread {
    th.(buf := [], blocks := th.blocks + [th.buf], tooks := th.tooks + [[]], dropped := true)
  }

  /** The part of the buffer that the sink has not taken yet. */
  function Unsent(th: Thread): bytes {
    if th.pc.Writing? && th.pc.offset <= |th.buf| then th.buf[th.pc.offset..] else th.buf
  }

  /** What one answer of the sink takes of the block. */
  function Accepted(th: Thread, r: Response): bytes {
    var left := Unsent(th);
    left[..Min(r.written, |left|)]
  }

  /** The retry loop goes on after a short write and ends at an error, an empty answer or the end of the block. */
  function AfterWrite(th: Thread, r: Response): Thread
    requires th.pc.Writing?
  {
    var n, w := |Unsent(th)|, |Accepted(th, r)|;
    var th1 := th.(got := th.got + Accepted(th, r));
    if r.err != 0 || w == 0 || w == n
    then th1.(buf := [], blocks := th.blocks + [th.buf], tooks := th.tooks + [th.buf[..|th.buf| - n + w]],
              lossy := th.lossy || w < n, pc := if th.pc.last then Unlocking else Fill)
    else th1.(pc := Writing(th.pc.offset + w, th.pc.last))
  }

  /** One call of the sink. */
  function StepWriting(s: State, t: nat, r: Response): Option<State>
    requires t < |s.threads|
  {
    var th := s.threads[t];
    if !th.pc.Writing? then None
    else Some(Put(s.(stream := s.stream + Accepted(th, r)), t, AfterWrite(th, r)))
  }

  function Step(s: State, m: Move): Option<State> {
    if m.thread >= |s.threads| then None
    else
      var t := m.thread;
      var th := s.threads[t];
      match th.pc
      case Idle => StepIdle(s, t)
      case Touching => if th.todo == [] then None else Some(Finish(s.(state := None), t, th))
      case Closing => StepClosing(s, t)
      case CloseUnlock => if th.todo == [] then None else Some(Finish(s.(output := None), t, th))
      case ResolveLock =>
        if s.state.Some? then None else Some(Put(s.(state := Some(t)), t, th.(pc := Resolving)))
      case Resolving =>
        if th.todo == [] || !th.todo[0].Emit? then None
        else Some(Put(s.(state := None), t, th.(pc := if th.todo[0].console then FirstLock else Fill)))
      case FirstLock => StepLock(s, t, Fill)
      case Fill => StepFill(s, t)
      case Inside => StepInside(s, t, m.direct)
      case FlushLock => StepLock(s, t, Check(false))
      case LastLock => StepLock(s, t, Check(true))
      case Check(last) => StepCheck(s, t, last)
      case Writing(_, _) => StepWriting(s, t, m.response)
      case Unlocking => if th.todo == [] then None else Some(Finish(s.(output := None), t, th))
  }

  function Run(s: State, moves: seq<Move>): Option<State>
    decreases |moves|
  {
    if moves == [] then Some(s)
    else
      match Step(s, moves[0])
      case None => None
      case Some(s') => Run(s', moves[1..])
  }

  /** Every thread at rest with its program before it; the sink is empty and open. */
  function Init(capacity: nat, programs: seq<seq<Job>>): State {
    State(capacity, seq(|programs|, i requires 0 <= i < |programs| => Fresh(programs[i])), None, None, false, 0, [], [])
  }

  // ----- the invariant -----

  /** The blocks that left, the buffer and what is still to be appended make the line. */
  predicate Spelt(th: Thread)
    requires th.todo != []
  {
    Concat(th.blocks) + (th.buf + TextOf(th.rest)) == LineOf(th.todo[0])
  }

  /** What the sink has taken of the block it is being offered. */
  function Partway(th: Thread): bytes {
    if th.pc.Writing? && th.pc.offset <= |th.buf| then th.buf[..th.pc.offset] else []
  }

  /** What the sink has is a front part of each block, and every block whole unless some of it was lost. */
  predicate Tallied(th: Thread) {
    th.got == Concat(th.tooks) + Partway(th) && FrontsOf(th.tooks, th.blocks) &&
    (!th.dropped && !th.lossy ==> th.tooks == th.blocks)
  }

  /** Only the last block of a line may be short. */
  predicate Sized(capacity: nat, th: Thread) {
    if th.pc.Unlocking? then Sizes(th.blocks, capacity)
    else forall i :: 0 <= i < |th.blocks| ==> |th.blocks[i]| == capacity
  }

  predicate Balanced(capacity: nat, th: Thread)
    requires th.todo != []
  {
    Spelt(th) && Tallied(th) && Sized(capacity, th)
  }

  /** The line buffer of a job that has not appended anything yet. */
  predicate Blank(th: Thread, rest: seq<Piece>) {
    th == Fresh(th.todo).(pc := th.pc, rest := rest)
  }

  predicate PcOk(capacity: nat, closed: bool, th: Thread)
    requires th.todo != []
  {
    var j := th.todo[0];
    match th.pc
    case Idle => true
    case Touching => j.Touch? && Blank(th, [])
    case Closing => j.Close? && Blank(th, [])
    case CloseUnlock => j.Close? && Blank(th, [])
    case ResolveLock => j.Emit? && Blank(th, j.pieces)
    case Resolving => j.Emit? && Blank(th, j.pieces)
    case FirstLock => j.Emit? && Blank(th, j.pieces)
    case Fill => j.Emit?
    case Inside => j.Emit? && th.rest != [] && th.rest[0].Guarded? && th.rest[0].sections > 0
    case FlushLock => j.Emit? && !th.locked && |th.buf| == capacity
    case LastLock => j.Emit? && !th.locked && th.buf != [] && th.rest == []
    case Check(last) => j.Emit? && th.locked && th.buf != [] && LastOrFull(capacity, last, th)
    case Writing(offset, last) => j.Emit? && th.locked && !closed && offset < |th.buf| && LastOrFull(capacity, last, th)
    case Unlocking => j.Emit? && th.locked && th.buf == [] && th.rest == []
  }

  /** The final write comes when nothing is left to append, a flush when the buffer is full. */
  predicate LastOrFull(capacity: nat, last: bool, th: Thread) {
    if last then th.rest == [] else |th.buf| == capacity
  }

  predicate HoldsState(pc: Pc) {
    pc.Touching? || pc.Resolving? || pc.Inside?
  }

  predicate HoldsOutput(th: Thread) {
    th.locked || th.pc.Closing? || th.pc.CloseUnlock?
  }

  /** `output` and `state` say whether the thread owns the two mutexes. */
  predicate ThreadOk(capacity: nat, output: bool, state: bool, closed: bool, th: Thread) {
    state == HoldsState(th.pc) && output == HoldsOutput(th) && |th.buf| <= capacity &&
    (th.dropped ==> closed && th.got == []) &&
    (th.got != [] ==> th.locked && !closed) &&
    (th.pc.Idle? ==> th == Fresh(th.todo)) &&
    (!th.pc.Idle? ==> th.todo != [] && PcOk(capacity, closed, th) && Balanced(capacity, th))
  }

  predicate Threads(s: State) {
    s.capacity >= 1 &&
    (s.output.Some? ==> s.output.value < |s.threads|) && (s.state.Some? ==> s.state.value < |s.threads|) &&
    forall u :: 0 <= u < |s.threads| ==>
      ThreadOk(s.capacity, s.output == Some(u), s.state == Some(u), s.closed, s.threads[u])
  }

  function Gots(log: seq<Entry>): seq<bytes> {
    if log == [] then [] else Gots(log[..|log| - 1]) + [log[|log| - 1].got]
  }

  /** What the owner of the output mutex has written of its line. */
  function Partial(s: State): bytes {
    if s.output.Some? && s.output.value < |s.threads| then s.threads[s.output.value].got else []
  }

  /**
   A finished line left the buffer in its canonical blocks, and the sink has a
   front part of each: all of it unless some was lost, nothing if it was dropped.
   A line that was dropped before it began left no block at all.
   */
  predicate EntryOk(capacity: nat, closed: bool, e: Entry)
    requires capacity >= 1
  {
    (e.dropped ==> closed && e.got == []) &&
    e.got == Concat(e.tooks) && FrontsOf(e.tooks, e.blocks) &&
    (!e.dropped || e.blocks != [] ==> e.blocks == Blocks(LineOf(e.job), capacity)) &&
    (!e.dropped && !e.lossy ==> e.tooks == e.blocks)
  }

  predicate Stream(s: State) {
    s.capacity >= 1 && s.stream == Concat(Gots(s.log)) + Partial(s) &&
    forall i :: 0 <= i < |s.log| ==> EntryOk(s.capacity, s.closed, s.log[i])
  }

  /** The jobs of one thread in the order in which they finished. */
  function JobsOf(log: seq<Entry>, t: nat): seq<Job> {
    if log == [] then []
    else
      var e := log[|log| - 1];
      JobsOf(log[..|log| - 1], t) + (if e.thread == t then [e.job] else [])
  }

  predicate Order(s: State, programs: seq<seq<Job>>) {
    |s.threads| == |programs| && (forall i :: 0 <= i < |s.log| ==> s.log[i].thread < |programs|) &&
    forall u :: 0 <= u < |programs| ==> JobsOf(s.log, u) + s.threads[u].todo == programs[u]
  }

  predicate Inv(s: State, programs: seq<seq<Job>>) {
    Threads(s) && Stream(s) && Order(s, programs) && s.closes == (if s.closed then 1 else 0)
  }

  lemma Stands(capacity: nat, output: bool, state: bool, closed: bool, th: Thread)
    requires ThreadOk(capacity, output, state, closed, th)
    ensures state == HoldsState(th.pc) && output == HoldsOutput(th) && (th.pc.Idle? ==> th == Fresh(th.todo))
    ensures (Holding(th.pc) ==> output) && (Waiting(th.pc) ==> !output)
  {
    hide Balanced;
  }

  lemma Known(s: State, t: nat, programs: seq<seq<Job>>)
    requires Inv(s, programs) && t < |s.threads|
    ensures ThreadOk(s.capacity, s.output == Some(t), s.state == Some(t), s.closed, s.threads[t])
    ensures s.capacity >= 1
    ensures (s.state == Some(t) <==> HoldsState(s.threads[t].pc)) && (s.output == Some(t) <==> HoldsOutput(s.threads[t]))
    ensures s.threads[t].pc.Idle? ==> s.threads[t] == Fresh(s.threads[t].todo)
    ensures (Holding(s.threads[t].pc) ==> s.output == Some(t)) && (Waiting(s.threads[t].pc) ==> s.output != Some(t))
  {
    hide ThreadOk, Stream, Order;
    assert ThreadOk(s.capacity, s.output == Some(t), s.state == Some(t), s.closed, s.threads[t]);
    Stands(s.capacity, s.output == Some(t), s.state == Some(t), s.closed, s.threads[t]);
  }

  /** Places where a thread has the output mutex, and where it does not. */
  predicate Holding(pc: Pc) {
    pc.Closing? || pc.CloseUnlock? || pc.Check? || pc.Writing? || pc.Unlocking?
  }

  predicate Waiting(pc: Pc) {
    pc.Idle? || pc.Touching? || pc.ResolveLock? || pc.Resolving? || pc.FirstLock? || pc.FlushLock? || pc.LastLock?
  }

  // ----- four kinds of change to the state keep it -----

  /** A mutex did not move, or passed between nobody and `t`. */
  predicate Mine(m: Option<nat>, m': Option<nat>, t: nat) {
    m' == m || (m == None && m' == Some(t)) || (m == Some(t) && m' == None)
  }

  lemma ThreadsKept(s: State, s': State, t: nat)
    requires Threads(s) && t < |s.threads| == |s'.threads| && s'.threads == s.threads[t := s'.threads[t]]
    requires s'.capacity == s.capacity && Mine(s.output, s'.output, t) && Mine(s.state, s'.state, t)
    requires s'.closed == s.closed
    requires ThreadOk(s'.capacity, s'.output == Some(t), s'.state == Some(t), s'.closed, s'.threads[t])
    ensures Threads(s')
  {
    hide ThreadOk;
    forall u | 0 <= u < |s'.threads|
      ensures ThreadOk(s'.capacity, s'.output == Some(u), s'.state == Some(u), s'.closed, s'.threads[u])
    {
      assert ThreadOk(s.capacity, s.output == Some(u), s.state == Some(u), s.closed, s.threads[u]);
    }
  }

  lemma GotNeedsOutput(capacity: nat, output: bool, state: bool, closed: bool, th: Thread)
    requires ThreadOk(capacity, output, state, closed, th)
    ensures th.got != [] ==> output
  {
  }

  /** One thread moves on, perhaps taking or leaving a mutex; nothing reaches the sink. */
  lemma Moves(s: State, t: nat, th: Thread, output: Option<nat>, state: Option<nat>, programs: seq<seq<Job>>)
    requires Inv(s, programs) && t < |s.threads| && Mine(s.output, output, t) && Mine(s.state, state, t)
    requires ThreadOk(s.capacity, output == Some(t), state == Some(t), s.closed, th)
    requires th.todo == s.threads[t].todo && th.got == s.threads[t].got
    ensures Inv(Put(s.(output := output, state := state), t, th), programs)
  {
    hide ThreadOk, Stream, Order, Threads;
    var s' := Put(s.(output := output, state := state), t, th);
    Known(s, t, programs);
    GotNeedsOutput(s.capacity, s.output == Some(t), s.state == Some(t), s.closed, s.threads[t]);
    GotNeedsOutput(s.capacity, output == Some(t), state == Some(t), s.closed, th);
    ThreadsKept(s, s', t);
    PartialKept(s, s', t);
    StreamKept(s, s');
    OrderKept(s, s', t, programs);
  }

  lemma PartialKept(s: State, s': State, t: nat)
    requires t < |s.threads| == |s'.threads| && s'.threads == s.threads[t := s'.threads[t]]
    requires Mine(s.output, s'.output, t) && s'.threads[t].got == s.threads[t].got
    requires s.threads[t].got != [] ==> s.output == Some(t) && s'.output == Some(t)
    ensures Partial(s') == Partial(s)
  {
  }

  lemma StreamKept(s: State, s': State)
    requires Stream(s) && s'.capacity == s.capacity && s'.closed == s.closed && s'.stream == s.stream && s'.log == s.log
    requires Partial(s') == Partial(s)
    ensures Stream(s')
  {
    hide EntryOk, Gots, Concat, Partial;
  }

  lemma OrderKept(s: State, s': State, t: nat, programs: seq<seq<Job>>)
    requires Order(s, programs) && s'.log == s.log && t < |s.threads| == |s'.threads|
    requires s'.threads == s.threads[t := s'.threads[t]] && s'.threads[t].todo == s.threads[t].todo
    ensures Order(s', programs)
  {
    hide JobsOf;
  }

  lemma OthersClosed(capacity: nat, state: bool, th: Thread)
    requires ThreadOk(capacity, false, state, false, th)
    ensures ThreadOk(capacity, false, state, true, th)
  {
    hide Balanced;
  }

  lemma OwnerCloses(capacity: nat, th: Thread)
    requires th.pc.Closing? && ThreadOk(capacity, true, false, false, th)
    ensures ThreadOk(capacity, true, false, true, th.(pc := CloseUnlock))
  {
  }

  lemma EntryClosed(capacity: nat, e: Entry)
    requires capacity >= 1 && EntryOk(capacity, false, e)
    ensures EntryOk(capacity, true, e)
  {
    hide Blocks;
  }

  lemma ThreadsClosed(s: State, s': State, t: nat)
    requires Threads(s) && t < |s.threads| && !s.closed && s.output == Some(t) && s.threads[t].pc.Closing?
    requires s.state != Some(t) && s' == Put(s, t, s.threads[t].(pc := CloseUnlock)).(closed := true, closes := s'.closes)
    ensures Threads(s')
  {
    hide ThreadOk;
    forall u | 0 <= u < |s'.threads|
      ensures ThreadOk(s'.capacity, s'.output == Some(u), s'.state == Some(u), s'.closed, s'.threads[u])
    {
      assert ThreadOk(s.capacity, s.output == Some(u), s.state == Some(u), s.closed, s.threads[u]);
      if u == t {
        OwnerCloses(s.capacity, s.threads[t]);
      } else {
        OthersClosed(s.capacity, s.state == Some(u), s.threads[u]);
      }
    }
  }

  lemma StreamClosed(s: State, s': State)
    requires Stream(s) && !s.closed && s'.capacity == s.capacity && s'.stream == s.stream && s'.log == s.log && s'.closed
    requires Partial(s') == Partial(s)
    ensures Stream(s')
  {
    hide EntryOk, Gots, Concat, Partial;
    forall i | 0 <= i < |s'.log|
      ensures EntryOk(s'.capacity, s'.closed, s'.log[i])
    {
      EntryClosed(s.capacity, s.log[i]);
    }
  }

  /** The output is closed by the thread that owns its mutex. */
  lemma Closes(s: State, t: nat, programs: seq<seq<Job>>)
    requires Inv(s, programs) && t < |s.threads| && s.threads[t].pc.Closing? && !s.closed
    requires s.output == Some(t) && s.state != Some(t)
    ensures Inv(Put(s, t, s.threads[t].(pc := CloseUnlock)).(closed := true, closes := s.closes + 1), programs)
  {
    hide Threads, Stream, Order;
    var s' := Put(s, t, s.threads[t].(pc := CloseUnlock)).(closed := true, closes := s.closes + 1);
    ThreadsClosed(s, s', t);
    assert Partial(s') == Partial(s);
    StreamClosed(s, s');
    OrderKept(s, s', t, programs);
  }

  /** The owner of the output mutex gets some bytes through to the sink. */
  lemma Writes(s: State, t: nat, th: Thread, w: bytes, programs: seq<seq<Job>>)
    requires Inv(s, programs) && t < |s.threads| && s.output == Some(t)
    requires ThreadOk(s.capacity, true, s.state == Some(t), s.closed, th)
    requires th.todo == s.threads[t].todo && th.got == s.threads[t].got + w
    ensures Inv(Put(s.(stream := s.stream + w), t, th), programs)
  {
    hide ThreadOk, EntryOk, Order, Gots, Concat;
    var s' := Put(s.(stream := s.stream + w), t, th);
    ThreadsKept(s, s', t);
    Assoc(Concat(Gots(s.log)), s.threads[t].got, w);
    OrderKept(s, s', t, programs);
  }

  lemma {:induction false} GotsSnoc(log: seq<Entry>, e: Entry)
    ensures Concat(Gots(log + [e])) == Concat(Gots(log)) + e.got
  {
    assert (log + [e])[..|log|] == log;
    ConcatSnoc(Gots(log), e.got);
  }

  lemma {:induction false} JobsSnoc(log: seq<Entry>, e: Entry, u: nat)
    ensures JobsOf(log + [e], u) == if e.thread == u then JobsOf(log, u) + [e.job] else JobsOf(log, u)
  {
    assert (log + [e])[..|log|] == log;
  }

  lemma FreshOk(capacity: nat, closed: bool, todo: seq<Job>)
    ensures ThreadOk(capacity, false, false, closed, Fresh(todo))
  {
  }

  /** A job is over: its thread lets go of what it holds, and its entry goes to the log. */
  lemma Finishes(s: State, t: nat, th: Thread, output: Option<nat>, state: Option<nat>, programs: seq<seq<Job>>)
    requires Inv(s, programs) && t < |s.threads| && Mine(s.output, output, t) && Mine(s.state, state, t)
    requires output != Some(t) && state != Some(t)
    requires th.todo != [] && th.todo == s.threads[t].todo && th.got == s.threads[t].got
    requires EntryOk(s.capacity, s.closed, EntryOf(t, th))
    ensures Inv(Finish(s.(output := output, state := state), t, th), programs)
  {
    var s' := Finish(s.(output := output, state := state), t, th);
    Known(s, t, programs);
    GotNeedsOutput(s.capacity, s.output == Some(t), s.state == Some(t), s.closed, s.threads[t]);
    FreshOk(s.capacity, s.closed, th.todo[1..]);
    hide ThreadOk, EntryOk, Stream, Order;
    ThreadsKept(s, s', t);
    StreamFinished(s, s', t, EntryOf(t, th));
    OrderFinished(s, s', t, EntryOf(t, th), programs);
  }

  lemma StreamFinished(s: State, s': State, t: nat, e: Entry)
    requires Stream(s) && t < |s.threads| == |s'.threads| && s'.threads == s.threads[t := s'.threads[t]]
    requires s'.capacity == s.capacity && s'.closed == s.closed && s'.stream == s.stream && s'.log == s.log + [e]
    requires EntryOk(s.capacity, s.closed, e)
    requires e.got == s.threads[t].got && (e.got != [] ==> s.output == Some(t))
    requires if s.output == Some(t) then s'.output == None else s'.output == s.output
    ensures Stream(s')
  {
    GotsSnoc(s.log, e);
    hide Gots, Concat, EntryOk;
    if s.output == Some(t) {
      assert Partial(s) == e.got && Partial(s') == [];
      assert Concat(Gots(s'.log)) + [] == Concat(Gots(s'.log));
    } else {
      assert Concat(Gots(s.log)) + [] == Concat(Gots(s.log));
      assert Partial(s') == Partial(s);
    }
  }

  lemma OrderFinished(s: State, s': State, t: nat, e: Entry, programs: seq<seq<Job>>)
    requires Order(s, programs) && t < |s.threads| && s.threads[t].todo != []
    requires s'.threads == s.threads[t := Fresh(s.threads[t].todo[1..])]
    requires s'.log == s.log + [e] && e.thread == t && e.job == s.threads[t].todo[0]
    ensures Order(s', programs)
  {
    var todo := s.threads[t].todo;
    forall u | 0 <= u < |programs|
      ensures JobsOf(s'.log, u) + s'.threads[u].todo == programs[u]
    {
      JobsSnoc(s.log, e, u);
      hide JobsOf;
      if u == t {
        Assoc(JobsOf(s.log, t), [todo[0]], todo[1..]);
        assert [todo[0]] + todo[1..] == todo;
      }
    }
  }

  // ----- what each step does to its thread -----

  lemma StartBalanced(capacity: nat, th: Thread)
    requires th.todo != [] && !th.pc.Idle? && Blank(th, th.rest) && TextOf(th.rest) == LineOf(th.todo[0])
    ensures Balanced(capacity, th)
  {
    assert [] + TextOf(th.rest) == TextOf(th.rest);
    assert Concat([]) + ([] + TextOf(th.rest)) == TextOf(th.rest);
  }

  lemma BeginOk(capacity: nat, closed: bool, todo: seq<Job>)
    requires todo != [] && todo[0].Emit?
    ensures ThreadOk(capacity, false, false, closed, Fresh(todo).(pc := Begin(todo[0]), rest := todo[0].pieces))
  {
    StartBalanced(capacity, Fresh(todo).(pc := Begin(todo[0]), rest := todo[0].pieces));
    hide Balanced, TextOf;
  }

  lemma TakeOk(capacity: nat, closed: bool, todo: seq<Job>)
    requires todo != [] && !todo[0].Emit?
    ensures todo[0].Touch? ==> ThreadOk(capacity, false, true, closed, Fresh(todo).(pc := Touching))
    ensures todo[0].Close? ==> ThreadOk(capacity, true, false, closed, Fresh(todo).(pc := Closing))
  {
    StartBalanced(capacity, Fresh(todo).(pc := Touching));
    StartBalanced(capacity, Fresh(todo).(pc := Closing));
    hide Balanced, TextOf;
  }

  /** A step to another place that leaves the buffer and the ledger alone. */
  lemma PcBalances(capacity: nat, th: Thread, th': Thread)
    requires th.todo != [] && capacity >= 1 && Balanced(capacity, th)
    requires th' == th.(pc := th'.pc, locked := th'.locked) && !th.pc.Writing? && !th.pc.Unlocking?
    requires th'.pc.Writing? ==> th'.pc.offset == 0
    ensures Balanced(capacity, th')
  {
    hide TextOf, LineOf, Concat;
    assert th.buf[..0] == [];
  }

  /** Taking the output mutex. */
  lemma LockOk(capacity: nat, closed: bool, th: Thread, pc: Pc)
    requires capacity >= 1 && ThreadOk(capacity, false, false, closed, th) && LockLeads(th.pc, pc)
    ensures ThreadOk(capacity, true, false, closed, th.(locked := true, pc := pc))
  {
    hide Balanced;
    PcBalances(capacity, th, th.(locked := true, pc := pc));
  }

  lemma CloseRefusedOk(capacity: nat, closed: bool, th: Thread)
    requires capacity >= 1 && th.pc.Closing? && ThreadOk(capacity, true, false, closed, th)
    ensures ThreadOk(capacity, true, false, closed, th.(pc := CloseUnlock))
  {
    hide Balanced;
    PcBalances(capacity, th, th.(pc := CloseUnlock));
  }

  /** Where taking the output mutex leads. */
  predicate LockLeads(from: Pc, to: Pc) {
    (from.FirstLock? && to == Fill) || (from.FlushLock? && to == Check(false)) || (from.LastLock? && to == Check(true))
  }

  lemma ResolveOk(capacity: nat, closed: bool, th: Thread)
    requires capacity >= 1
    ensures th.pc.ResolveLock? && ThreadOk(capacity, false, false, closed, th) ==>
              ThreadOk(capacity, false, true, closed, th.(pc := Resolving))
    ensures th.pc.Resolving? && ThreadOk(capacity, false, true, closed, th) ==>
              ThreadOk(capacity, false, false, closed, th.(pc := if th.todo[0].console then FirstLock else Fill))
  {
    hide Balanced;
    if th.pc.ResolveLock? && ThreadOk(capacity, false, false, closed, th) {
      PcBalances(capacity, th, th.(pc := Resolving));
    }
    if th.pc.Resolving? && ThreadOk(capacity, false, true, closed, th) {
      PcBalances(capacity, th, th.(pc := if th.todo[0].console then FirstLock else Fill));
    }
  }

  lemma EndOfTextOk(capacity: nat, output: bool, closed: bool, th: Thread)
    requires capacity >= 1 && ThreadOk(capacity, output, false, closed, th) && th.pc.Fill? && th.rest == []
    requires th.buf == [] ==> th.locked
    ensures ThreadOk(capacity, output, false, closed, EndOfText(th))
  {
    hide Balanced;
    PcBalances(capacity, th, EndOfText(th));
  }

  lemma EnterOk(capacity: nat, output: bool, closed: bool, th: Thread)
    requires capacity >= 1 && ThreadOk(capacity, output, false, closed, th) && th.pc.Fill?
    requires th.rest != [] && th.rest[0].Guarded? && th.rest[0].sections > 0
    ensures ThreadOk(capacity, output, true, closed, th.(pc := Inside))
  {
    hide Balanced;
    PcBalances(capacity, th, th.(pc := Inside));
  }

  lemma {:induction false} TextOfFirst(p: Piece, ps: seq<Piece>)
    ensures TextOf([p] + ps) == p.text + TextOf(ps)
  {
    assert ([p] + ps)[1..] == ps;
  }

  lemma {:induction false} TakePiece(buf: bytes, rest: seq<Piece>, n: nat)
    requires rest != [] && n <= |rest[0].text|
    ensures buf + TextOf(rest) == buf + rest[0].text[..n] + TextOf([Plain(rest[0].text[n..])] + rest[1..])
  {
    var text, tail := rest[0].text, TextOf(rest[1..]);
    TextOfFirst(Plain(text[n..]), rest[1..]);
    Halves(text, n);
    Assoc(text[..n], text[n..], tail);
    Assoc(buf, text[..n], text[n..] + tail);
  }

  /** Moving text from the pieces to the buffer leaves the line as it is. */
  lemma TextMoves(capacity: nat, th: Thread, th': Thread)
    requires th.todo != [] && Balanced(capacity, th)
    requires th' == th.(buf := th'.buf, rest := th'.rest, pc := th'.pc)
    requires !th.pc.Writing? && !th'.pc.Writing? && !th.pc.Unlocking? && !th'.pc.Unlocking?
    requires th'.buf + TextOf(th'.rest) == th.buf + TextOf(th.rest)
    ensures Balanced(capacity, th')
  {
    hide TextOf, LineOf, Concat;
  }

  lemma AppendMoves(capacity: nat, th: Thread)
    requires th.rest != []
    ensures var th' := StepAppend(capacity, th);
            th' == th.(buf := th'.buf, rest := th'.rest, pc := th'.pc) &&
            th'.buf + TextOf(th'.rest) == th.buf + TextOf(th.rest)
  {
    var text := th.rest[0].text;
    if text == [] {
      assert text + TextOf(th.rest[1..]) == TextOf(th.rest[1..]);
    } else if Room(capacity, th) > 0 {
      TakePiece(th.buf, th.rest, Min(|text|, Room(capacity, th)));
    }
  }

  lemma AppendPlace(capacity: nat, closed: bool, th: Thread)
    requires capacity >= 1 && th.pc.Fill? && th.rest != [] && |th.buf| <= capacity
    requires th.todo != [] && th.todo[0].Emit?
    ensures var th' := StepAppend(capacity, th);
            |th'.buf| <= capacity && PcOk(capacity, closed, th') && (th'.pc.Fill? || th'.pc.FlushLock? || th'.pc.Check?)
  {
    var text := th.rest[0].text;
    assert text != [] && Room(capacity, th) > 0 ==> |text[..Min(|text|, Room(capacity, th))]| <= Room(capacity, th);
  }

  lemma AppendOk(capacity: nat, output: bool, closed: bool, th: Thread)
    requires capacity >= 1 && th.pc.Fill? && th.rest != [] && ThreadOk(capacity, output, false, closed, th)
    ensures ThreadOk(capacity, output, false, closed, StepAppend(capacity, th))
    ensures StepAppend(capacity, th).todo == th.todo && StepAppend(capacity, th).got == th.got
  {
    hide Balanced, StepAppend, TextOf;
    AppendMoves(capacity, th);
    AppendPlace(capacity, closed, th);
    TextMoves(capacity, th, StepAppend(capacity, th));
  }

  lemma InsideMoves(capacity: nat, th: Thread, direct: bool)
    requires th.rest != [] && th.rest[0].Guarded? && th.rest[0].sections > 0
    ensures var th' := AfterInside(capacity, th, direct);
            th' == th.(buf := th'.buf, rest := th'.rest, pc := Fill) &&
            th'.buf + TextOf(th'.rest) == th.buf + TextOf(th.rest)
    ensures |th.buf| <= capacity ==> |AfterInside(capacity, th, direct).buf| <= capacity
  {
    var p := th.rest[0];
    TextOfFirst(Guarded(p.text, p.sections - 1), th.rest[1..]);
    Assoc(th.buf, p.text, TextOf(th.rest[1..]));
  }

  lemma InsideOk(capacity: nat, output: bool, closed: bool, th: Thread, direct: bool)
    requires th.pc.Inside? && ThreadOk(capacity, output, true, closed, th)
    ensures th.rest != [] && th.rest[0].Guarded? && th.rest[0].sections > 0
    ensures ThreadOk(capacity, output, false, closed, AfterInside(capacity, th, direct))
  {
    hide Balanced, AfterInside, TextOf;
    InsideMoves(capacity, th, direct);
    TextMoves(capacity, th, AfterInside(capacity, th, direct));
  }

  // ----- blocks that leave the buffer -----

  lemma {:induction false} BlockLeaves(blocks: seq<bytes>, buf: bytes, tail: bytes)
    ensures Concat(blocks) + (buf + tail) == Concat(blocks + [buf]) + ([] + tail)
  {
    ConcatSnoc(blocks, buf);
    Assoc(Concat(blocks), buf, tail);
    assert [] + tail == tail;
  }

  lemma LeaveTallied(th: Thread, th': Thread, took: bytes)
    requires Tallied(th) && !th'.pc.Writing? && took <= th.buf && th'.got == Concat(th.tooks) + took
    requires th'.blocks == th.blocks + [th.buf] && th'.tooks == th.tooks + [took]
    requires !th'.dropped && !th'.lossy ==> !th.dropped && !th.lossy && took == th.buf
    ensures Tallied(th')
  {
    ConcatSnoc(th.tooks, took);
    FrontsMore(th.tooks, th.blocks, took, th.buf);
    hide Concat, FrontsOf;
    assert th'.got == Concat(th'.tooks) + [];
  }

  lemma LeaveSized(capacity: nat, th: Thread, th': Thread)
    requires Sized(capacity, th) && !th.pc.Unlocking? && 1 <= |th.buf| <= capacity
    requires th'.blocks == th.blocks + [th.buf] && (th'.pc.Unlocking? || |th.buf| == capacity)
    ensures Sized(capacity, th')
  {
  }

  /** The buffer's block has left, the sink having a front part `took` of it. */
  lemma LeaveBalances(capacity: nat, th: Thread, th': Thread, took: bytes)
    requires th.todo != [] && Balanced(capacity, th) && !th.pc.Unlocking?
    requires 1 <= |th.buf| <= capacity && (th'.pc.Unlocking? || |th.buf| == capacity) && !th'.pc.Writing?
    requires th' == th.(pc := th'.pc, locked := th'.locked, got := th'.got, buf := [], blocks := th.blocks + [th.buf],
                        tooks := th.tooks + [took], lossy := th'.lossy, dropped := th'.dropped)
    requires took <= th.buf && th'.got == Concat(th.tooks) + took
    requires !th'.dropped && !th'.lossy ==> !th.dropped && !th.lossy && took == th.buf
    ensures Balanced(capacity, th')
  {
    hide TextOf, LineOf, Concat, Tallied, Sized;
    LeaveTallied(th, th', took);
    LeaveSized(capacity, th, th');
    BlockLeaves(th.blocks, th.buf, TextOf(th.rest));
  }

  lemma DropOk(capacity: nat, th: Thread, th': Thread)
    requires capacity >= 1 && th.pc.Check? && ThreadOk(capacity, true, false, true, th)
    requires th' == if th.pc.last then Dropped(th).(pc := Unlocking) else Dropped(th).(locked := false, pc := Fill)
    ensures ThreadOk(capacity, th.pc.last, false, true, th')
  {
    hide Balanced, Concat;
    NothingPartway(capacity, th);
    LeaveBalances(capacity, th, th', []);
  }

  lemma NothingPartway(capacity: nat, th: Thread)
    requires th.todo != [] && Balanced(capacity, th) && !th.pc.Writing?
    ensures th.got == Concat(th.tooks) + []
  {
    hide Concat, TextOf;
  }

  lemma OfferOk(capacity: nat, th: Thread)
    requires capacity >= 1 && th.pc.Check? && ThreadOk(capacity, true, false, false, th)
    ensures ThreadOk(capacity, true, false, false, th.(pc := Writing(0, th.pc.last)))
  {
    hide Balanced;
    PcBalances(capacity, th, th.(pc := Writing(0, th.pc.last)));
  }

  /** The block in numbers: what was taken before, what is taken now. */
  lemma TakenSoFar(th: Thread, r: Response)
    requires th.pc.Writing? && th.pc.offset < |th.buf|
    ensures var w := |Accepted(th, r)|;
            th.pc.offset + w <= |th.buf| && |Unsent(th)| == |th.buf| - th.pc.offset &&
            th.buf[..th.pc.offset] + Accepted(th, r) == th.buf[..th.pc.offset + w]
  {
    var w := |Accepted(th, r)|;
    assert Accepted(th, r) == th.buf[th.pc.offset..th.pc.offset + w];
  }

  /** The end of the retry loop. */
  predicate Ends(th: Thread, r: Response) {
    r.err != 0 || |Accepted(th, r)| == 0 || |Accepted(th, r)| == |Unsent(th)|
  }

  lemma WriteOnTallied(th: Thread, th': Thread, accepted: bytes)
    requires Tallied(th) && th.pc.Writing? && th'.pc.Writing? && th.pc.offset <= th'.pc.offset <= |th.buf|
    requires th' == th.(got := th.got + accepted, pc := th'.pc)
    requires th.buf[..th.pc.offset] + accepted == th.buf[..th'.pc.offset]
    ensures Tallied(th')
  {
    hide Concat, FrontsOf;
    Assoc(Concat(th.tooks), th.buf[..th.pc.offset], accepted);
  }

  lemma WriteOnBalances(capacity: nat, th: Thread, r: Response)
    requires th.todo != [] && th.pc.Writing? && th.pc.offset < |th.buf| && Balanced(capacity, th) && !Ends(th, r)
    ensures Balanced(capacity, AfterWrite(th, r))
  {
    hide TextOf, LineOf, Concat, Accepted, Unsent, Tallied;
    TakenSoFar(th, r);
    WriteOnTallied(th, AfterWrite(th, r), Accepted(th, r));
  }

  lemma WriteEndBalances(capacity: nat, th: Thread, r: Response)
    requires th.todo != [] && th.pc.Writing? && th.pc.offset < |th.buf| <= capacity && Balanced(capacity, th)
    requires Ends(th, r) && LastOrFull(capacity, th.pc.last, th)
    ensures Balanced(capacity, AfterWrite(th, r))
  {
    TakenSoFar(th, r);
    hide TextOf, LineOf, Concat, Accepted, Unsent;
    var took := th.buf[..th.pc.offset + |Accepted(th, r)|];
    Assoc(Concat(th.tooks), th.buf[..th.pc.offset], Accepted(th, r));
    LeaveBalances(capacity, th, AfterWrite(th, r), took);
  }

  lemma WriteOk(capacity: nat, closed: bool, th: Thread, r: Response)
    requires th.pc.Writing? && ThreadOk(capacity, true, false, closed, th)
    ensures ThreadOk(capacity, true, false, closed, AfterWrite(th, r))
    ensures AfterWrite(th, r).todo == th.todo && AfterWrite(th, r).got == th.got + Accepted(th, r)
  {
    hide Balanced, Accepted, Unsent;
    TakenSoFar(th, r);
    if Ends(th, r) {
      WriteEndBalances(capacity, th, r);
    } else {
      WriteOnBalances(capacity, th, r);
    }
  }

  /** A thread at the end of its line leaves an entry that tells all of it. */
  lemma EndEntry(capacity: nat, output: bool, closed: bool, t: nat, th: Thread)
    requires capacity >= 1 && ThreadOk(capacity, output, false, closed, th)
    requires th.pc.Unlocking? || (th.pc.Fill? && th.rest == [] && th.buf == [])
    ensures EntryOk(capacity, closed, EntryOf(t, th))
  {
    hide Blocks, Balanced, Concat;
    EndBalanced(capacity, th);
    SizedIsCanonical(th.blocks, capacity);
  }

  lemma EndBalanced(capacity: nat, th: Thread)
    requires capacity >= 1 && th.todo != [] && Balanced(capacity, th)
    requires th.rest == [] && th.buf == [] && !th.pc.Writing?
    ensures Concat(th.blocks) == LineOf(th.todo[0]) && Sizes(th.blocks, capacity)
    ensures th.got == Concat(th.tooks) && FrontsOf(th.tooks, th.blocks)
    ensures !th.dropped && !th.lossy ==> th.tooks == th.blocks
  {
    hide Concat, LineOf;
    assert TextOf(th.rest) == [];
    assert Concat(th.blocks) + ([] + []) == Concat(th.blocks);
    assert Concat(th.tooks) + [] == Concat(th.tooks);
  }

  lemma BlankEntry(capacity: nat, output: bool, state: bool, closed: bool, t: nat, th: Thread)
    requires capacity >= 1 && ThreadOk(capacity, output, state, closed, th) && (th.pc.Touching? || th.pc.CloseUnlock?)
    ensures EntryOk(capacity, closed, EntryOf(t, th))
  {
  }

  // ----- every step keeps the invariant -----

  lemma IdleKeeps(s: State, t: nat, programs: seq<seq<Job>>)
    requires Inv(s, programs) && t < |s.threads| && s.threads[t].pc.Idle? && StepIdle(s, t).Some?
    ensures Inv(StepIdle(s, t).value, programs)
  {
    hide Inv, ThreadOk;
    Known(s, t, programs);
    var th := s.threads[t];
    assert th == Fresh(th.todo) && s.output != Some(t) && s.state != Some(t);
    if th.todo[0].Emit? {
      BeginKeeps(s, t, programs);
    } else {
      TakeOk(s.capacity, s.closed, th.todo);
      if th.todo[0].Touch? {
        Moves(s, t, th.(pc := Touching), s.output, Some(t), programs);
      } else {
        Moves(s, t, th.(pc := Closing), Some(t), s.state, programs);
      }
    }
  }

  lemma BeginKeeps(s: State, t: nat, programs: seq<seq<Job>>)
    requires Inv(s, programs) && t < |s.threads| && s.threads[t] == Fresh(s.threads[t].todo)
    requires s.threads[t].todo != [] && s.threads[t].todo[0].Emit? && s.output != Some(t) && s.state != Some(t)
    ensures Inv(StepIdle(s, t).value, programs)
  {
    hide Inv, ThreadOk;
    Known(s, t, programs);
    var th := s.threads[t];
    if s.closed {
      Finishes(s, t, th.(dropped := true), s.output, s.state, programs);
    } else {
      BeginOk(s.capacity, s.closed, th.todo);
      Moves(s, t, th.(pc := Begin(th.todo[0]), rest := th.todo[0].pieces), s.output, s.state, programs);
    }
  }

  lemma TouchingKeeps(s: State, t: nat, programs: seq<seq<Job>>)
    requires Inv(s, programs) && t < |s.threads| && s.threads[t].pc.Touching? && s.threads[t].todo != []
    ensures Inv(Finish(s.(state := None), t, s.threads[t]), programs)
  {
    hide Inv, ThreadOk;
    Known(s, t, programs);
    BlankEntry(s.capacity, s.output == Some(t), s.state == Some(t), s.closed, t, s.threads[t]);
    assert s.output != Some(t) && s.state == Some(t);
    hide EntryOk;
    Finishes(s, t, s.threads[t], s.output, None, programs);
  }

  lemma ClosingKeeps(s: State, t: nat, programs: seq<seq<Job>>)
    requires Inv(s, programs) && t < |s.threads| && s.threads[t].pc.Closing? && StepClosing(s, t).Some?
    ensures Inv(StepClosing(s, t).value, programs)
  {
    hide Inv, ThreadOk;
    Known(s, t, programs);
    var th := s.threads[t];
    assert s.output == Some(t) && s.state != Some(t);
    if th.todo[0].allow && !s.closed {
      Closes(s, t, programs);
    } else {
      CloseRefusedOk(s.capacity, s.closed, th);
      Moves(s, t, th.(pc := CloseUnlock), s.output, s.state, programs);
    }
  }

  lemma UnlockKeeps(s: State, t: nat, programs: seq<seq<Job>>)
    requires Inv(s, programs) && t < |s.threads| && s.threads[t].todo != []
    requires s.threads[t].pc.CloseUnlock? || s.threads[t].pc.Unlocking?
    ensures Inv(Finish(s.(output := None), t, s.threads[t]), programs)
  {
    hide Inv, ThreadOk;
    Known(s, t, programs);
    assert s.output == Some(t) && s.state != Some(t);
    if s.threads[t].pc.CloseUnlock? {
      BlankEntry(s.capacity, true, false, s.closed, t, s.threads[t]);
    } else {
      EndEntry(s.capacity, true, s.closed, t, s.threads[t]);
    }
    hide EntryOk;
    Finishes(s, t, s.threads[t], None, s.state, programs);
  }

  lemma LockKeeps(s: State, t: nat, pc: Pc, programs: seq<seq<Job>>)
    requires Inv(s, programs) && t < |s.threads| && StepLock(s, t, pc).Some? && LockLeads(s.threads[t].pc, pc)
    ensures Inv(StepLock(s, t, pc).value, programs)
  {
    hide Inv, ThreadOk;
    Known(s, t, programs);
    assert s.state != Some(t);
    LockOk(s.capacity, s.closed, s.threads[t], pc);
    Moves(s, t, s.threads[t].(locked := true, pc := pc), Some(t), s.state, programs);
  }

  lemma ResolveKeeps(s: State, m: Move, programs: seq<seq<Job>>)
    requires Inv(s, programs) && m.thread < |s.threads| && Step(s, m).Some?
    requires s.threads[m.thread].pc.ResolveLock? || s.threads[m.thread].pc.Resolving?
    ensures Inv(Step(s, m).value, programs)
  {
    hide Inv, ThreadOk, StepIdle, StepClosing, StepFill, StepInside, StepCheck, StepWriting, StepLock;
    var t := m.thread;
    var th := s.threads[t];
    Known(s, t, programs);
    assert s.output != Some(t) && (s.state == Some(t) <==> th.pc.Resolving?);
    ResolveOk(s.capacity, s.closed, th);
    if th.pc.ResolveLock? {
      Moves(s, t, th.(pc := Resolving), s.output, Some(t), programs);
    } else {
      Moves(s, t, th.(pc := if th.todo[0].console then FirstLock else Fill), s.output, None, programs);
    }
  }

  lemma FillKeeps(s: State, t: nat, programs: seq<seq<Job>>)
    requires Inv(s, programs) && t < |s.threads| && s.threads[t].pc.Fill? && StepFill(s, t).Some?
    ensures Inv(StepFill(s, t).value, programs)
  {
    hide Inv, ThreadOk, StepAppend;
    Known(s, t, programs);
    var th := s.threads[t];
    assert s.state != Some(t);
    if th.rest == [] {
      FillEndKeeps(s, t, programs);
    } else if th.rest[0].Guarded? && th.rest[0].sections > 0 {
      EnterOk(s.capacity, s.output == Some(t), s.closed, th);
      Moves(s, t, th.(pc := Inside), s.output, Some(t), programs);
    } else {
      AppendOk(s.capacity, s.output == Some(t), s.closed, th);
      Moves(s, t, StepAppend(s.capacity, th), s.output, s.state, programs);
    }
  }

  lemma FillEndKeeps(s: State, t: nat, programs: seq<seq<Job>>)
    requires Inv(s, programs) && t < |s.threads| && s.threads[t].pc.Fill? && StepFill(s, t).Some?
    requires s.threads[t].rest == []
    ensures Inv(StepFill(s, t).value, programs)
  {
    hide Inv, ThreadOk, StepAppend;
    Known(s, t, programs);
    var th := s.threads[t];
    assert s.state != Some(t) && (th.locked <==> s.output == Some(t));
    if th.buf == [] && !th.locked {
      EndEntry(s.capacity, false, s.closed, t, th);
      hide EntryOk;
      Finishes(s, t, th, s.output, s.state, programs);
    } else {
      EndOfTextOk(s.capacity, s.output == Some(t), s.closed, th);
      Moves(s, t, EndOfText(th), s.output, s.state, programs);
    }
  }

  lemma InsideKeeps(s: State, t: nat, direct: bool, programs: seq<seq<Job>>)
    requires Inv(s, programs) && t < |s.threads| && s.threads[t].pc.Inside?
    ensures StepInside(s, t, direct).Some? && Inv(StepInside(s, t, direct).value, programs)
  {
    hide Inv, ThreadOk;
    Known(s, t, programs);
    assert s.state == Some(t);
    InsideOk(s.capacity, s.output == Some(t), s.closed, s.threads[t], direct);
    Moves(s, t, AfterInside(s.capacity, s.threads[t], direct), s.output, None, programs);
  }

  lemma CheckKeeps(s: State, t: nat, last: bool, programs: seq<seq<Job>>)
    requires Inv(s, programs) && t < |s.threads| && s.threads[t].pc == Check(last)
    ensures Inv(StepCheck(s, t, last).value, programs)
  {
    hide Inv, ThreadOk;
    Known(s, t, programs);
    var th := s.threads[t];
    assert s.output == Some(t) && s.state != Some(t);
    if !s.closed {
      OfferOk(s.capacity, th);
      Moves(s, t, th.(pc := Writing(0, last)), s.output, s.state, programs);
    } else {
      var th' := if last then Dropped(th).(pc := Unlocking) else Dropped(th).(locked := false, pc := Fill);
      DropOk(s.capacity, th, th');
      Moves(s, t, th', if last then s.output else None, s.state, programs);
    }
  }

  lemma WritingKeeps(s: State, t: nat, r: Response, programs: seq<seq<Job>>)
    requires Inv(s, programs) && t < |s.threads| && s.threads[t].pc.Writing?
    ensures Inv(StepWriting(s, t, r).value, programs)
  {
    hide Inv, ThreadOk, AfterWrite, Accepted;
    Known(s, t, programs);
    var th := s.threads[t];
    assert s.output == Some(t) && s.state != Some(t);
    WriteOk(s.capacity, s.closed, th, r);
    Writes(s, t, AfterWrite(th, r), Accepted(th, r), programs);
  }

  /** Every step of every thread, with any answer of the sink, keeps the invariant. */
  lemma StepKeeps(s: State, m: Move, programs: seq<seq<Job>>)
    requires Inv(s, programs) && Step(s, m).Some?
    ensures Inv(Step(s, m).value, programs)
  {
    hide Inv, StepIdle, StepClosing, StepLock, StepFill, StepInside, StepCheck, StepWriting;
    var t := m.thread;
    match s.threads[t].pc
    case Idle => IdleKeeps(s, t, programs);
    case Touching => TouchingKeeps(s, t, programs);
    case Closing => ClosingKeeps(s, t, programs);
    case CloseUnlock => UnlockKeeps(s, t, programs);
    case ResolveLock => ResolveKeeps(s, m, programs);
    case Resolving => ResolveKeeps(s, m, programs);
    case FirstLock => LockKeeps(s, t, Fill, programs);
    case Fill => FillKeeps(s, t, programs);
    case Inside => InsideKeeps(s, t, m.direct, programs);
    case FlushLock => LockKeeps(s, t, Check(false), programs);
    case LastLock => LockKeeps(s, t, Check(true), programs);
    case Check(last) => CheckKeeps(s, t, last, programs);
    case Writing(_, _) => WritingKeeps(s, t, m.response, programs);
    case Unlocking => UnlockKeeps(s, t, programs);
  }

  lemma InitHolds(capacity: nat, programs: seq<seq<Job>>)
    requires capacity >= 1
    ensures Inv(Init(capacity, programs), programs)
  {
  }

  lemma {:induction false} RunKeeps(s: State, moves: seq<Move>, programs: seq<seq<Job>>)
    requires Inv(s, programs) && Run(s, moves).Some?
    ensures Inv(Run(s, moves).value, programs)
    decreases |moves|
  {
    hide Inv, Step;
    if moves == [] {
    } else {
      StepKeeps(s, moves[0], programs);
      RunKeeps(Step(s, moves[0]).value, moves[1..], programs);
    }
  }
}
