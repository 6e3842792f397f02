/**
 The caches of rendered values (src/pslog.c, `pslog_append_timestamp` and
 `pslog_buffer_append_double`). A call looks a value up in one critical section
 of the state mutex, renders it outside when it is not there, and stores it in
 another; sections of different threads interleave at will.
 */
module ValueCaches {
  import opened Bytes
  import opened Hashing

  const STAMP_CAPACITY: nat := 64
  const DOUBLES: nat := 32
  const RENDERED_CAPACITY: nat := 32

  /** A call: a timestamp for the second it read from the clock, or a finite double by its bits. */
  datatype Request = Stamp(now: int) | Number(bits: nat)

  /** How values render without any cache; the results fit the 64-byte scratch buffers. */
  datatype Renderers = Renderers(stamp: int -> bytes, number: nat -> bytes)

  ghost predicate Bounded(r: Renderers) {
    (forall n :: |r.stamp(n)| < STAMP_CAPACITY) && (forall b :: |r.number(b)| < STAMP_CAPACITY)
  }

  function Direct(r: Renderers, q: Request): bytes {
    match q
    case Stamp(now) => r.stamp(now)
    case Number(bits) => r.number(bits)
  }

  datatype Slot = Invalid | Rendered(bits: nat, text: bytes)

  /** The one remembered timestamp, empty at first, and the table of doubles. */
  datatype Caches = Caches(second: int, stamp: bytes, doubles: seq<Slot>)

  /** The eight bytes of a double, least significant first. */
  function BytesOf(bits: nat, n: nat): bytes {
    if n == 0 then [] else [bits % 256] + BytesOf(bits / 256, n - 1)
  }

  function SlotOf(bits: nat): (i: nat)
    ensures i < DOUBLES
  {
    (Hash(BytesOf(bits, 8)) % 32) as nat
  }

  function Cut(text: bytes, capacity: nat): bytes
    requires capacity >= 1
  {
    if |text| >= capacity then text[..capacity - 1] else text
  }

  /** The first critical section: a hit, or nothing. */
  function LookUp(c: Caches, q: Request): Option<bytes> {
    match q
    case Stamp(now) =>
      if |c.stamp| > 0 && c.second == now then Some(Cut(c.stamp, STAMP_CAPACITY)) else None
    case Number(bits) =>
      if SlotOf(bits) >= |c.doubles| then None
      else
        var slot := c.doubles[SlotOf(bits)];
        if slot.Rendered? && slot.bits == bits then
          Some(if 0 < |slot.text| < STAMP_CAPACITY then slot.text else [])
        else None
  }

  /** Whether a rendered value goes on to the second section at all. */
  predicate Stores(q: Request, text: bytes) {
    text != [] && (q.Number? ==> |text| < RENDERED_CAPACITY)
  }

  /** The second critical section; another thread may have stored the same second meanwhile. */
  function Store(c: Caches, q: Request, text: bytes): (Caches, bytes) {
    match q
    case Stamp(now) =>
      if c.second != now || |c.stamp| == 0 then
        var kept := Cut(text, STAMP_CAPACITY);
        (c.(second := now, stamp := kept), kept)
      else (c, c.stamp)
    case Number(bits) =>
      if SlotOf(bits) >= |c.doubles| then (c, text)
      else (c.(doubles := c.doubles[SlotOf(bits) := Rendered(bits, text)]), text)
  }

  // ----- threads -----

  datatype Pc = Ready | Storing(text: bytes)
  datatype Thread = Thread(todo: seq<Request>, pc: Pc)
  datatype Served = Served(thread: nat, request: Request, text: bytes)
  datatype State = State(caches: Caches, threads: seq<Thread>, log: seq<Served>)

  function Serve(s: State, t: nat, text: bytes): State
    requires t < |s.threads| && s.threads[t].todo != []
  {
    var th := s.threads[t];
    State(s.caches, s.threads[t := Thread(th.todo[1..], Ready)], s.log + [Served(t, th.todo[0], text)])
  }

  /** One critical section of one thread, with the rendering that follows a miss. */
  function Step(r: Renderers, s: State, t: nat): Option<State> {
    if t >= |s.threads| || s.threads[t].todo == [] then None
    else
      var th := s.threads[t];
      var q := th.todo[0];
      match th.pc
      case Ready =>
        (match LookUp(s.caches, q)
         case Some(text) => Some(Serve(s, t, text))
         case None =>
           var text := Direct(r, q);
           if Stores(q, text) then Some(s.(threads := s.threads[t := th.(pc := Storing(text))]))
           else Some(Serve(s, t, text)))
      case Storing(text) =>
        var (caches, out) := Store(s.caches, q, text);
        Some(Serve(s.(caches := caches), t, out))
  }

  function Run(r: Renderers, s: State, schedule: seq<nat>): Option<State>
    decreases |schedule|
  {
    if schedule == [] then Some(s)
    else
      match Step(r, s, schedule[0])
      case None => None
      case Some(s') => Run(r, s', schedule[1..])
  }

  function Init(programs: seq<seq<Request>>): State {
    State(Caches(0, [], seq(DOUBLES, _ => Invalid)),
          seq(|programs|, i requires 0 <= i < |programs| => Thread(programs[i], Ready)), [])
  }

  // ----- what is cached is what would be rendered, and fits -----

  predicate SlotOk(r: Renderers, slot: Slot) {
    slot.Rendered? ==> slot.text == r.number(slot.bits) && 0 < |slot.text| < RENDERED_CAPACITY
  }

  predicate CachesOk(r: Renderers, c: Caches) {
    (c.stamp != [] ==> c.stamp == r.stamp(c.second)) && |c.stamp| < STAMP_CAPACITY && |c.doubles| == DOUBLES &&
    forall i :: 0 <= i < DOUBLES ==> SlotOk(r, c.doubles[i])
  }

  predicate ThreadOk(r: Renderers, th: Thread) {
    th.pc.Storing? ==> th.todo != [] && th.pc.text == Direct(r, th.todo[0]) && Stores(th.todo[0], th.pc.text)
  }

  predicate Inv(r: Renderers, s: State) {
    CachesOk(r, s.caches) &&
    (forall t :: 0 <= t < |s.threads| ==> ThreadOk(r, s.threads[t])) &&
    (forall i :: 0 <= i < |s.log| ==> s.log[i].text == Direct(r, s.log[i].request))
  }

  lemma LookUpIsDirect(r: Renderers, c: Caches, q: Request)
    requires Bounded(r) && CachesOk(r, c) && LookUp(c, q).Some?
    ensures LookUp(c, q) == Some(Direct(r, q))
  {
    match q
    case Stamp(now) => assert |r.stamp(now)| < STAMP_CAPACITY;
    case Number(bits) =>
      assert SlotOk(r, c.doubles[SlotOf(bits)]);
      assert |r.number(bits)| < STAMP_CAPACITY;
  }

  lemma StoreIsDirect(r: Renderers, c: Caches, q: Request)
    requires Bounded(r) && CachesOk(r, c) && Stores(q, Direct(r, q))
    ensures CachesOk(r, Store(c, q, Direct(r, q)).0) && Store(c, q, Direct(r, q)).1 == Direct(r, q)
  {
    if q.Stamp? {
      assert |r.stamp(q.now)| < STAMP_CAPACITY;
    }
  }

  /** What was stored is found by the next call for the same value. */
  lemma StoredIsFound(c: Caches, q: Request, text: bytes)
    requires |c.doubles| == DOUBLES && 0 < |text| < STAMP_CAPACITY
    requires q.Stamp? && c.second == q.now ==> c.stamp == [] || c.stamp == text
    ensures LookUp(Store(c, q, text).0, q) == Some(text)
  {
  }

  lemma StepKeeps(r: Renderers, s: State, t: nat)
    requires Bounded(r) && Inv(r, s) && Step(r, s, t).Some?
    ensures Inv(r, Step(r, s, t).value)
  {
    hide LookUp, Store, Direct, Stores, CachesOk;
    var th := s.threads[t];
    var q := th.todo[0];
    assert ThreadOk(r, th);
    if th.pc.Storing? {
      StoreIsDirect(r, s.caches, q);
    } else if LookUp(s.caches, q).Some? {
      LookUpIsDirect(r, s.caches, q);
    }
  }

  /** A request that was served with a text that fits is in the cache when the step is over. */
  lemma ServedIsFound(r: Renderers, s: State, t: nat)
    requires Bounded(r) && Inv(r, s) && Step(r, s, t).Some? && |Step(r, s, t).value.log| > |s.log|
    requires 0 < |Direct(r, s.threads[t].todo[0])| < 32
    ensures LookUp(Step(r, s, t).value.caches, s.threads[t].todo[0]) == Some(Direct(r, s.threads[t].todo[0]))
  {
    var th := s.threads[t];
    var q := th.todo[0];
    assert ThreadOk(r, th);
    hide CachesOk, LookUp, Store, Direct;
    assert Stores(q, Direct(r, q));
    if th.pc.Ready? {
      assert LookUp(s.caches, q).Some?;
      LookUpIsDirect(r, s.caches, q);
    } else {
      StoreIsFound(r, s.caches, q);
    }
  }

  lemma StoreIsFound(r: Renderers, c: Caches, q: Request)
    requires Bounded(r) && CachesOk(r, c) && Stores(q, Direct(r, q)) && |Direct(r, q)| < 32
    ensures LookUp(Store(c, q, Direct(r, q)).0, q) == Some(Direct(r, q))
  {
    StoredIsFound(c, q, Direct(r, q));
  }

  /**
   In every interleaving of the critical sections, for any clock readings, in
   any order, and any doubles, however they collide: each call appends exactly
   what it would have appended without a cache.
   */
  lemma {:induction false} CachesAreTransparent(r: Renderers, s: State, schedule: seq<nat>)
    requires Bounded(r) && Inv(r, s) && Run(r, s, schedule).Some?
    ensures Inv(r, Run(r, s, schedule).value)
    ensures forall i :: 0 <= i < |Run(r, s, schedule).value.log| ==>
              Run(r, s, schedule).value.log[i].text == Direct(r, Run(r, s, schedule).value.log[i].request)
    decreases |schedule|
  {
    if schedule == [] {
    } else {
      hide Step;
      StepKeeps(r, s, schedule[0]);
      CachesAreTransparent(r, Step(r, s, schedule[0]).value, schedule[1..]);
    }
  }

  /** The requests of one thread in the order in which they were served. */
  function RequestsOf(log: seq<Served>, t: nat): seq<Request> {
    if log == [] then []
    else
      var e := log[|log| - 1];
      RequestsOf(log[..|log| - 1], t) + (if e.thread == t then [e.request] else [])
  }

  /** Every thread's requests are served in order, none skipped and none twice. */
  predicate Order(s: State, programs: seq<seq<Request>>) {
    |s.threads| == |programs| &&
    forall t :: 0 <= t < |programs| ==> RequestsOf(s.log, t) + s.threads[t].todo == programs[t]
  }

  lemma {:induction false} RequestsSnoc(log: seq<Served>, e: Served, t: nat)
    ensures RequestsOf(log + [e], t) == if e.thread == t then RequestsOf(log, t) + [e.request] else RequestsOf(log, t)
  {
    assert (log + [e])[..|log|] == log;
  }

  lemma ServeKeepsOrder(s: State, t: nat, text: bytes, programs: seq<seq<Request>>)
    requires Order(s, programs) && t < |s.threads| && s.threads[t].todo != []
    ensures Order(Serve(s, t, text), programs)
  {
    hide RequestsOf;
    var todo := s.threads[t].todo;
    forall u | 0 <= u < |programs|
      ensures RequestsOf(Serve(s, t, text).log, u) + Serve(s, t, text).threads[u].todo == programs[u]
    {
      RequestsSnoc(s.log, Served(t, todo[0], text), u);
      assert u == t ==> RequestsOf(s.log, t) + [todo[0]] + todo[1..] == RequestsOf(s.log, t) + todo;
    }
  }

  lemma StepKeepsOrder(r: Renderers, s: State, t: nat, programs: seq<seq<Request>>)
    requires Order(s, programs) && Step(r, s, t).Some?
    ensures Order(Step(r, s, t).value, programs)
  {
    hide RequestsOf, LookUp, Store, Direct, Stores, Serve;
    var th, s' := s.threads[t], Step(r, s, t).value;
    if !(th.pc.Ready? && LookUp(s.caches, th.todo[0]).None? && Stores(th.todo[0], Direct(r, th.todo[0]))) {
      var c := if th.pc.Ready? then s.caches else Store(s.caches, th.todo[0], th.pc.text).0;
      var text := if th.pc.Storing? then Store(s.caches, th.todo[0], th.pc.text).1
                  else if LookUp(s.caches, th.todo[0]).Some? then LookUp(s.caches, th.todo[0]).value
                  else Direct(r, th.todo[0]);
      assert s' == Serve(s.(caches := c), t, text);
      ServeKeepsOrder(s.(caches := c), t, text, programs);
    }
  }

  lemma {:induction false} RunKeepsOrder(r: Renderers, s: State, schedule: seq<nat>, programs: seq<seq<Request>>)
    requires Order(s, programs) && Run(r, s, schedule).Some?
    ensures Order(Run(r, s, schedule).value, programs)
    decreases |schedule|
  {
    hide Step, Order;
    if schedule == [] {
    } else {
      StepKeepsOrder(r, s, schedule[0], programs);
      RunKeepsOrder(r, Step(r, s, schedule[0]).value, schedule[1..], programs);
    }
  }

  /** From the empty caches on: every thread's calls are served in order, each with its direct text. */
  lemma {:induction false} FromTheStart(r: Renderers, programs: seq<seq<Request>>, schedule: seq<nat>, s: State)
    requires Bounded(r) && Run(r, Init(programs), schedule) == Some(s)
    ensures forall i :: 0 <= i < |s.log| ==> s.log[i].text == Direct(r, s.log[i].request)
    ensures |s.threads| == |programs|
    ensures forall t :: 0 <= t < |programs| ==> RequestsOf(s.log, t) + s.threads[t].todo == programs[t]
  {
    assert Inv(r, Init(programs));
    CachesAreTransparent(r, Init(programs), schedule);
    RunKeepsOrder(r, Init(programs), schedule, programs);
  }
}
