/**
 The line protocol with the JSON emitters in it: whatever the interleaving, a
 reader who cuts the stream at its newlines gets one JSON object for each event.
 */
module LineDocuments {
  import opened Bytes
  import opened LineProtocol
  import opened LineGuarantees
  import Events
  import JsonLine
  import JsonReads
  import JsonString
  import JsonText
  import LineProgress

  // ----- a reader of lines -----

  /** The texts that a newline ends, and what follows the last newline. */
  datatype Cuts = Cuts(lines: seq<bytes>, rest: bytes)

  function Cut(s: bytes): Cuts {
    if s == [] then Cuts([], [])
    else
      var r := Cut(s[1..]);
      if s[0] == NL then Cuts([[]] + r.lines, r.rest)
      else if r.lines == [] then Cuts([], [s[0]] + r.rest)
      else Cuts([[s[0]] + r.lines[0]] + r.lines[1..], r.rest)
  }

  lemma {:induction false} CutFront(text: bytes, s: bytes)
    requires NL !in text
    ensures Cut(text + [NL] + s) == Cuts([text] + Cut(s).lines, Cut(s).rest)
  {
    var t := text + [NL] + s;
    if text == [] {
      assert t == [NL] + s && t[1..] == s;
    } else {
      CutFront(text[1..], s);
      assert t[1..] == text[1..] + [NL] + s;
      assert text == [text[0]] + text[1..];
    }
  }

  lemma {:induction false} CutRest(p: bytes)
    requires NL !in p
    ensures Cut(p) == Cuts([], p)
  {
    if p == [] {
    } else {
      CutRest(p[1..]);
      assert p == [p[0]] + p[1..];
    }
  }

  lemma {:induction false} CutLine(line: bytes, s: bytes)
    requires JsonReads.OneLine(line)
    ensures Cut(line + s) == Cuts([JsonReads.Body(line)] + Cut(s).lines, Cut(s).rest)
  {
    var text := JsonReads.Body(line);
    assert line == text + [NL];
    CutFront(text, s);
  }

  // ----- what the jobs of a run say -----

  /** One call of a logger. */
  datatype Call = Call(log: Events.Logger, event: Events.Event)

  /** A job that emits the JSON line of a call, by its fields or by a format. */
  ghost predicate Says(j: Job, c: Call) {
    j.Emit? && JsonLine.Consistent(c.log) && !c.log.shared.colour && Events.Sound(c.log.shared.platform) &&
    Events.AllWellMade(c.log.fields) && (c.log.shared.timestamps ==> JsonString.Trusted(c.event.stamp)) &&
    if j.kvfmt then Events.AllKvMade(c.event.fields) && LineOf(j) == JsonLine.KvLine(c.log, c.event)
    else Events.AllWellMade(c.event.fields) && LineOf(j) == JsonLine.Line(c.log, c.event)
  }

  /** The object that a call stands for; a format with a key that is not well-formed gives none. */
  ghost function Object(j: Job, c: Call): Option<seq<JsonText.Pair>>
    requires Says(j, c)
  {
    if !j.kvfmt then Some(JsonReads.Pairs(c.log, c.event))
    else if !JsonReads.ValidKeys(c.event.fields) then None
    else Some(JsonReads.Pairs(c.log, c.event.(fields := Events.AllConstructed(c.event.fields))))
  }

  lemma JobReads(j: Job, c: Call)
    requires Says(j, c)
    ensures JsonReads.OneLine(LineOf(j)) && JsonText.Document(JsonReads.Body(LineOf(j))) == Object(j, c)
  {
    hide JsonText.Document, JsonReads.Pairs, JsonReads.OneLine, JsonLine.Line, JsonLine.KvLine, JsonReads.ValidKeys;
    if j.kvfmt {
      JsonReads.KvLineReads(c.log, c.event);
    } else {
      JsonReads.LineReads(c.log, c.event);
    }
  }

  /** Each event of the programs is what its job says. */
  ghost predicate AllSay(programs: seq<seq<Job>>, what: Job -> Call) {
    forall u, k :: 0 <= u < |programs| && 0 <= k < |programs[u]| && programs[u][k].Emit? ==>
      Says(programs[u][k], what(programs[u][k]))
  }

  /** The finished events that were not dropped, in the order in which they finished. */
  function Kept(log: seq<Entry>): seq<Entry> {
    if log == [] then []
    else
      var e := log[|log| - 1];
      Kept(log[..|log| - 1]) + (if e.job.Emit? && !e.dropped then [e] else [])
  }

  function Emits(js: seq<Job>): seq<Job> {
    if js == [] then [] else Emits(js[..|js| - 1]) + (if js[|js| - 1].Emit? then [js[|js| - 1]] else [])
  }

  function Joined(es: seq<Entry>): bytes {
    if es == [] then [] else LineOf(es[0].job) + Joined(es[1..])
  }

  lemma {:induction false} JoinedConcat(a: seq<Entry>, b: seq<Entry>)
    ensures Joined(a + b) == Joined(a) + Joined(b)
  {
    if a == [] {
      assert a + b == b;
    } else {
      JoinedConcat(a[1..], b);
      assert (a + b)[1..] == a[1..] + b;
      Assoc(LineOf(a[0].job), Joined(a[1..]), Joined(b));
    }
  }

  lemma JoinedOne(e: Entry)
    ensures Joined([e]) == LineOf(e.job)
  {
    assert [e][1..] == [];
  }

  lemma {:induction false} LinesAreKept(log: seq<Entry>)
    ensures Lines(log) == Joined(Kept(log))
  {
    if log == [] {
    } else {
      var front, e := log[..|log| - 1], log[|log| - 1];
      LinesAreKept(front);
      JoinedOne(e);
      JoinedConcat(Kept(front), [e]);
      assert Kept(front) + [] == Kept(front);
    }
  }

  ghost predicate AllRead(es: seq<Entry>, what: Job -> Call) {
    forall i :: 0 <= i < |es| ==> Says(es[i].job, what(es[i].job))
  }

  /** One document for each entry: its object, or none. */
  ghost predicate Documents(lines: seq<bytes>, es: seq<Entry>, what: Job -> Call)
    requires AllRead(es, what)
  {
    |lines| == |es| &&
    forall i :: 0 <= i < |es| ==> JsonText.Document(lines[i]) == Object(es[i].job, what(es[i].job))
  }

  lemma {:induction false} CutJoined(es: seq<Entry>, p: bytes, what: Job -> Call)
    requires AllRead(es, what) && NL !in p
    ensures Cut(Joined(es) + p).rest == p && Documents(Cut(Joined(es) + p).lines, es, what)
  {
    hide Says, JsonText.Document, JsonReads.OneLine, LineOf;
    if es == [] {
      CutRest(p);
      assert Joined(es) + p == p;
    } else {
      var line := LineOf(es[0].job);
      assert Says(es[0].job, what(es[0].job));
      JobReads(es[0].job, what(es[0].job));
      CutJoined(es[1..], p, what);
      Assoc(line, Joined(es[1..]), p);
      CutLine(line, Joined(es[1..]) + p);
    }
  }

  /** With one more whole line, one more document. */
  lemma {:induction false} WholePart(es: seq<Entry>, e: Entry, what: Job -> Call)
    requires AllRead(es, what) && Says(e.job, what(e.job))
    ensures var cut := Cut(Joined(es) + LineOf(e.job));
            cut.rest == [] && |cut.lines| == |es| + 1 && Documents(cut.lines[..|es|], es, what) &&
            JsonText.Document(cut.lines[|es|]) == Object(e.job, what(e.job))
  {
    hide Says, JsonText.Document, Cut, Object, LineOf, Joined;
    var all := es + [e];
    CutJoined(all, [], what);
    JoinedConcat(es, [e]);
    JoinedOne(e);
    assert Joined(all) + [] == Joined(all);
    assert forall i :: 0 <= i < |es| ==> all[i] == es[i];
    assert all[|es|] == e;
  }

  // ----- the jobs of the log are those of the programs -----

  lemma {:induction false} KeptIsLogged(log: seq<Entry>, k: nat) returns (i: nat)
    requires k < |Kept(log)|
    ensures i < |log| && Kept(log)[k] == log[i] && log[i].job.Emit?
  {
    var front := log[..|log| - 1];
    if k < |Kept(front)| {
      i := KeptIsLogged(front, k);
    } else {
      i := |log| - 1;
    }
  }

  lemma {:induction false} JobOfProgram(s: State, programs: seq<seq<Job>>, what: Job -> Call, u: nat, j: Job)
    requires Order(s, programs) && AllSay(programs, what) && u < |programs| && j.Emit?
    requires j in JobsOf(s.log, u) + s.threads[u].todo
    ensures Says(j, what(j))
  {
    hide Says, JobsOf;
    JobFromProgram(s, u, j, programs);
  }

  lemma KeptRead(s: State, programs: seq<seq<Job>>, what: Job -> Call)
    requires Order(s, programs) && AllSay(programs, what)
    ensures AllRead(Kept(s.log), what)
  {
    hide Says, Kept, JobsOf, AllSay;
    forall k | 0 <= k < |Kept(s.log)|
      ensures Says(Kept(s.log)[k].job, what(Kept(s.log)[k].job))
    {
      var i := KeptIsLogged(s.log, k);
      JobIsListed(s.log, i);
      JobOfProgram(s, programs, what, s.log[i].thread, s.log[i].job);
    }
  }

  lemma InOrder(s: State, programs: seq<seq<Job>>)
    requires Inv(s, programs)
    ensures Order(s, programs)
  {
  }

  /** What is on its way of a line: the whole of it, or a part without a newline. */
  lemma PartOfLine(p: bytes, line: bytes)
    requires JsonReads.OneLine(line) && p <= line
    ensures p == line || NL !in p
  {
  }

  /**
   Over a kind sink, in every interleaving: cut at its newlines, the stream is
   one text for each finished event that was not dropped, in finishing order,
   and each reads as the JSON object of its event. What follows is either the
   owner's line so far, without a newline, or the owner's whole line, which
   reads as its object and has nothing after it.
   */
  lemma StreamReads(capacity: nat, programs: seq<seq<Job>>, what: Job -> Call, moves: seq<Move>, s: State)
    requires Reachable(capacity, programs, moves, s) && AllKind(moves) && AllSay(programs, what)
    ensures AllRead(Kept(s.log), what)
    ensures var cut, n := Cut(s.stream), |Kept(s.log)|;
            n <= |cut.lines| <= n + 1 && Documents(cut.lines[..n], Kept(s.log), what) &&
            if |cut.lines| == n then cut.rest == Partial(s)
            else
              cut.rest == [] && s.output.Some? && s.output.value < |s.threads| &&
              s.threads[s.output.value].todo != [] &&
              var j := s.threads[s.output.value].todo[0];
              Says(j, what(j)) && JsonText.Document(cut.lines[n]) == Object(j, what(j))
  {
    hide Says, Reachable, AllKind, AllSay, JsonText.Document, Kept, Cut;
    ReachableIsInv(capacity, programs, moves, s);
    WholeLines(capacity, programs, moves, s);
    hide Inv;
    InOrder(s, programs);
    KeptRead(s, programs, what);
    LinesAreKept(s.log);
    var p, es := Partial(s), Kept(s.log);
    if p == [] {
      CutJoined(es, [], what);
    } else {
      var u := s.output.value;
      var j := s.threads[u].todo[0];
      JobOfProgram(s, programs, what, u, j);
      JobReads(j, what(j));
      PartOfLine(p, LineOf(j));
      if p == LineOf(j) {
        WholePart(es, EntryOf(u, s.threads[u]), what);
      } else {
        CutJoined(es, p, what);
      }
    }
  }

  // ----- a run that is over -----

  lemma {:induction false} KeptByThread(log: seq<Entry>, u: nat)
    requires forall i :: 0 <= i < |log| ==> !log[i].dropped
    ensures JobsOf(Kept(log), u) == Emits(JobsOf(log, u))
  {
    if log == [] {
    } else {
      hide JobsOf, Emits, Kept;
      var front, e := log[..|log| - 1], log[|log| - 1];
      KeptByThread(front, u);
      assert log == front + [e];
      KeptSnoc(front, e);
      JobsSnoc(front, e, u);
      JobsSnoc(Kept(front), e, u);
      EmitsSnoc(JobsOf(front, u), e.job);
    }
  }

  lemma {:induction false} KeptSnoc(log: seq<Entry>, e: Entry)
    ensures Kept(log + [e]) == if e.job.Emit? && !e.dropped then Kept(log) + [e] else Kept(log)
  {
    assert (log + [e])[..|log|] == log;
  }

  lemma {:induction false} EmitsSnoc(js: seq<Job>, j: Job)
    ensures Emits(js + [j]) == if j.Emit? then Emits(js) + [j] else Emits(js)
  {
    assert (js + [j])[..|js|] == js;
  }

  /**
   When the run is over the stream is nothing but those documents; if the
   output was not closed there is one for every event of every thread, each
   thread's in program order.
   */
  lemma FinishedStreamReads(capacity: nat, programs: seq<seq<Job>>, what: Job -> Call, moves: seq<Move>, s: State)
    requires Reachable(capacity, programs, moves, s) && AllKind(moves) && AllSay(programs, what)
    requires LineProgress.Stuck(s)
    ensures AllRead(Kept(s.log), what)
    ensures Cut(s.stream).rest == [] && Documents(Cut(s.stream).lines, Kept(s.log), what)
    ensures !s.closed ==> forall u :: 0 <= u < |programs| ==> JobsOf(Kept(s.log), u) == Emits(programs[u])
  {
    hide Says, Reachable, AllKind, AllSay, LineProgress.Stuck, JsonText.Document, Kept, Cut, JobsOf, Emits;
    StreamReads(capacity, programs, what, moves, s);
    LineProgress.StuckIsFinished(capacity, programs, moves, s);
    WholeLines(capacity, programs, moves, s);
    var lines := Cut(s.stream).lines;
    assert lines[..|lines|] == lines;
    if !s.closed {
      forall u | 0 <= u < |programs|
        ensures JobsOf(Kept(s.log), u) == Emits(programs[u])
      {
        KeptByThread(s.log, u);
      }
    }
  }

  /** Where no program may close the output, every event of every thread ends up as its object. */
  lemma EveryEventReads(capacity: nat, programs: seq<seq<Job>>, what: Job -> Call, moves: seq<Move>, s: State)
    requires Reachable(capacity, programs, moves, s) && AllKind(moves) && AllSay(programs, what)
    requires LineProgress.Stuck(s) && Harmless(programs)
    ensures AllRead(Kept(s.log), what)
    ensures Cut(s.stream).rest == [] && Documents(Cut(s.stream).lines, Kept(s.log), what)
    ensures forall u :: 0 <= u < |programs| ==> JobsOf(Kept(s.log), u) == Emits(programs[u])
  {
    hide Reachable, AllKind, AllSay, LineProgress.Stuck, Harmless, Cut, Kept, JobsOf, Emits, AllRead, Documents;
    OpenStaysOpen(capacity, programs, moves, s);
    FinishedStreamReads(capacity, programs, what, moves, s);
  }
}
