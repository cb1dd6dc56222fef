/** Exactly when the accepted writes are a prefix of the log: a condition on the capture ring, readable
    before the proxy reads. */
module CommitRing {
  import opened Bytes
  import opened Framer
  import opened FramerAgreement
  import opened CommitGate
  import opened CommitSystem
  import opened CommitSafety
  import opened CommitFirst
  import opened CommitTheorem
  import opened CommitReactor
  import opened CommitPrefix
  import opened CommitFree
  import opened CommitClimb
  import opened CommitTally
  import opened CommitRoom

  /** The proxy reads records and messages and polls; what the master has batched reaches the channel. */
  predicate Reading(e: Event) {
    e.TakeRecord? || e.TakeMsg? || e.Flush? || e.PollEdge?
  }

  predicate OnlyReads(events: seq<Event>) {
    events == [] || (Reading(events[0]) && OnlyReads(events[1..]))
  }

  // ---------------------------------------------------------------- in order: always a prefix

  predicate Still(plan: Plan) {
    plan.mode == Halted && plan.busy == None && plan.closed == {} && plan.dropped == {}
  }

  lemma ReadAllowed(s: Sys, plan: Plan, e: Event)
    requires RInv(s, plan) && Still(plan) && Enabled(s, e) && Reading(e)
    ensures Allowed(s, plan, e) && Onward(s, plan, e) == plan
  {
    hide Inv, DescOrder, RingOrder, ConnsOrdered, BusyOk, GateOrder, Done, CleanRun;
    if e.TakeMsg? { assert Wire(s)[0] == s.channel[0]; }
  }

  lemma {:induction false} ReadsDisciplined(s: Sys, plan: Plan, more: seq<Event>)
    requires RInv(s, plan) && Still(plan) && IsRun(s, more) && OnlyReads(more)
    ensures Disciplined(s, plan, more)
    decreases |more|
  {
    hide RInv, Enabled, Next, Allowed, Onward, Reading;
    if more != [] {
      ReadAllowed(s, plan, more[0]);
      NextR(s, plan, more[0]);
      ReadsDisciplined(Next(s, more[0]), plan, more[1..]);
    }
  }

  lemma HaltHere(s: Sys, plan: Plan)
    requires Ready(s, plan) && RingOrder(s)
    ensures RInv(s, Plan(Halted, None, {}, {}, s.base + 1))
  {
    hide Inv, DescOrder, RingOrder, Rising, Wire, Waiting, Got, Started, Done, Tally;
    NotStartedFresh(s, plan.first);
  }

  lemma InOrderPrefix(s: Sys, plan: Plan, more: seq<Event>)
    requires Ready(s, plan) && RingOrder(s) && IsRun(s, more) && OnlyReads(more)
    ensures var t := After(s, more); !t.gate.faulted ==> LogPrefix(Accepted(t.gate), t.base, t.log)
  {
    hide IsRun, OnlyReads, Disciplined, After, RInv, Accepted, LogPrefix, Ready, RingOrder;
    var still := Plan(Halted, None, {}, {}, s.base + 1);
    HaltHere(s, plan);
    ReadsDisciplined(s, still, more);
    var plan1 := RunR(s, still, more);
    if !After(s, more).gate.faulted { PrefixHere(After(s, more), plan1); }
  }

  // ---------------------------------------------------------------- out of order: a run that is not

  /** What is framed stays framed. */
  lemma {:induction false} FramedOn(s: Sys, j: nat, i: nat, c: nat, k: nat)
    requires MasterInv(s) && FramedAt(s, j, c, k) && j <= i <= |s.ring|
    ensures FramedAt(s, i, c, k)
    decreases i - j
  {
    if j < i {
      NextFramed(s, j, c, k);
      hide FramedAt, MasterInv;
      FramedOn(s, j + 1, i, c, k);
    }
  }

  lemma NextFramed(s: Sys, j: nat, c: nat, k: nat)
    requires MasterInv(s) && FramedAt(s, j, c, k) && j < |s.ring|
    ensures FramedAt(s, j + 1, c, k)
  {
    hide MasterInv, Run, CleanRun;
    RingSuffix(s, j, c);
    RingSuffix(s, j + 1, c);
    assert s.ring[j..][1..] == s.ring[j + 1..];
    assert |RingBytes(s.ring[j + 1..], c)| <= |RingBytes(s.ring[j..], c)|;
    assert ReadAt(s, j, c) <= ReadAt(s, j + 1, c);
    ProxyPrefix(ReadAt(s, j, c), ReadAt(s, j + 1, c));
  }

  lemma ProxyPrefix(a: bytes, b: bytes)
    requires a <= b
    ensures Cmds(Proxy, a) <= Cmds(Proxy, b)
  {
    hide Run;
    assert a + b[|a|..] == b;
    ProxyChunk(a, b[|a|..]);
  }

  /** While the first write is not framed, a gate that starts does not start there. */
  lemma StartsElsewhere(s: Sys, e: Event, first: nat, i: nat, c: nat, k: nat)
    requires MasterInv(s) && UniqueOne(s) && Enabled(s, e) && StartsAt(s, e, first)
    requires i <= |s.ring| && (e.TakeRecord? ==> 0 < i) && IsOne(s, c, k) && !FramedAt(s, i, c, k)
    ensures first != s.base + 1
  {
    hide MasterInv, FramedAt, UniqueOne, CleanRun;
    if first == s.base + 1 {
      var j, x := if e.TakeRecord? then 1 else 0, if e.TakeRecord? then s.ring[0].cookie else s.channel[0].cookie;
      var n: nat :| IsWrite(s, x, n) && s.conns[x].descs[n].global == first && FramedAt(s, j, x, n);
      assert IsOne(s, x, n);
      SameOne(s, c, k, x, n);
      FramedOn(s, j, i, c, k);
    }
  }

  lemma SameOne(s: Sys, c: nat, k: nat, x: nat, n: nat)
    requires UniqueOne(s) && IsOne(s, c, k) && IsOne(s, x, n)
    ensures c == x && k == n
  {
  }

  /** A read by a proxy that delivers, from a state in which nothing has been accepted. */
  ghost predicate Delivering(e: Event) {
    e.Flush? || e == TakeRecord(ALWAYS) || e == TakeMsg(ALWAYS)
  }

  lemma ReadyStep(s: Sys, plan: Plan, e: Event) returns (plan1: Plan)
    requires Ready(s, plan) && Small(s) && Enabled(s, e) && Delivering(e)
    ensures var t := Next(s, e);
      && !t.gate.faulted && Small(t) && StartsAt(s, e, plan1.first) && Inv(t)
      && if Fresh(t.gate) then Ready(t, plan1) else Started(t.gate, plan1.first)
  {
    hide RInv, Inv, Tally, OnRecord, OnBaseline, OnDesc, OnResume, OnIgnore, OnForget, CleanRun, StartsAt, Started;
    var first := FreeStep(s, plan, e);
    plan1 := plan.(first := first);
    TallyStep(s, plan, e);
    var t := Next(s, e);
    assert !t.gate.faulted by {
      if e.TakeRecord? { RecordRoom(s, plan); } else if e.TakeMsg? { MsgRoom(s, plan); }
    }
    RInvParts(t, plan1);
    assert t.conns == s.conns;
    BegunHere(t, plan1);
  }

  lemma BegunHere(s: Sys, plan: Plan)
    requires RInv(s, plan) && !s.gate.faulted
    ensures Fresh(s.gate) || Started(s.gate, plan.first)
  {
    hide Inv, MasterOrder, Started, Served, Fresh;
  }

  lemma Led(s: Sys, e: Event, more: seq<Event>)
    requires Enabled(s, e) && IsRun(Next(s, e), more) && Reading(e) && OnlyReads(more)
    ensures IsRun(s, [e] + more) && After(s, [e] + more) == After(Next(s, e), more) && OnlyReads([e] + more)
  {
    hide Enabled, Next, Reading;
    assert ([e] + more)[1..] == more;
  }

  /** A bad order at place i: write k of connection c is framed there, the first write is not. */
  ghost predicate OutOfOrder(s: Sys, i: nat, c: nat, k: nat, c1: nat, k1: nat) {
    i <= |s.ring| && IsWrite(s, c, k) && FramedAt(s, i, c, k) && IsOne(s, c1, k1) && !FramedAt(s, i, c1, k1)
  }

  lemma SameBad(s: Sys, t: Sys, i: nat, j: nat, c: nat, k: nat, c1: nat, k1: nat)
    requires OutOfOrder(s, i, c, k, c1, k1) && t.conns == s.conns && t.base == s.base
    requires j <= |t.ring| && t.ring[j..] == s.ring[i..]
    ensures OutOfOrder(t, j, c, k, c1, k1)
  {
    hide Cmds, RingBytes;
  }

  /** With the channel and the ring up to i read, the framed write would have been matched. */
  lemma Caught(s: Sys, plan: Plan, c: nat, k: nat)
    requires Ready(s, plan) && s.batch == [] && s.channel == [] && IsWrite(s, c, k)
    ensures !FramedAt(s, 0, c, k)
  {
    hide Inv, MasterOrder, GateOrder, Tally, Cmds, Consumed, ReadAt, WireDescs;
    assert Wire(s) == [];
    assert WireDescs([], c) == [] by { NoDescs(c); }
    assert Got(s, c) == s.conns[c].descs;
    ReadNow(s, c);
    NotBoth(s, plan, c, k);
  }

  lemma NoDescs(c: nat)
    ensures WireDescs([], c) == []
  {
  }

  /** The step a proxy takes that reads the channel first and then the ring up to place i. */
  function Choice(s: Sys, i: nat): Event {
    if s.batch != [] then Flush else if s.channel != [] then TakeMsg(ALWAYS) else TakeRecord(ALWAYS)
  }

  lemma ChoiceStep(s: Sys, plan: Plan, i: nat, c: nat, k: nat, c1: nat, k1: nat) returns (e: Event, j: nat)
    requires Ready(s, plan) && OutOfOrder(s, i, c, k, c1, k1)
    ensures Delivering(e) && Enabled(s, e) && OutOfOrder(Next(s, e), j, c, k, c1, k1)
    ensures e.TakeRecord? ==> 0 < i
    ensures var t := Next(s, e);
      || (s.batch != [] && t.batch == [])
      || (t.batch == s.batch == [] && |t.channel| < |s.channel|)
      || (t.batch == s.batch == [] && t.channel == s.channel && j < i)
  {
    hide Ready, OutOfOrder, OnRecord, OnBaseline, OnDesc, OnResume, OnIgnore, OnForget, CleanRun;
    e, j := Choice(s, i), i;
    if s.batch == [] && s.channel == [] {
      BadParts(s, i, c, k, c1, k1);
      if i == 0 { Caught(s, plan, c, k); }
      j := i - 1;
      assert Next(s, e).ring[j..] == s.ring[i..];
    }
    assert i <= |s.ring| by { BadParts(s, i, c, k, c1, k1); }
    SameBad(s, Next(s, e), i, j, c, k, c1, k1);
  }

  lemma BadParts(s: Sys, i: nat, c: nat, k: nat, c1: nat, k1: nat)
    requires OutOfOrder(s, i, c, k, c1, k1)
    ensures i <= |s.ring| && IsWrite(s, c, k) && FramedAt(s, i, c, k) && IsOne(s, c1, k1) && !FramedAt(s, i, c1, k1)
  {
  }

  /** From a ring out of order the proxy can accept, without a fault, writes that are no prefix. */
  lemma {:induction false} BadRun(s: Sys, plan: Plan, i: nat, c: nat, k: nat, c1: nat, k1: nat)
    returns (more: seq<Event>)
    requires Ready(s, plan) && Small(s) && OutOfOrder(s, i, c, k, c1, k1)
    ensures IsRun(s, more) && OnlyReads(more)
    ensures var t := After(s, more); !t.gate.faulted && !LogPrefix(Accepted(t.gate), t.base, t.log)
    decreases if s.batch == [] then 0 else 1, |s.channel|, i
  {
    hide Ready, Small, OutOfOrder, Enabled, Next, Fresh, Started, StartsAt, Accepted, LogPrefix, Inv;
    var e, j := ChoiceStep(s, plan, i, c, k, c1, k1);
    var plan1 := ReadyStep(s, plan, e);
    var t := Next(s, e);
    more := [];
    if Fresh(t.gate) {
      more := BadRun(t, plan1, j, c, k, c1, k1);
    } else {
      BadParts(s, i, c, k, c1, k1);
      ReadyParts(s, plan);
      StartsElsewhere(s, e, plan1.first, i, c1, k1);
      SameBase(s, e);
      NoPrefix(t, plan1.first);
      assert IsRun(t, []) && OnlyReads([]) && After(t, []) == t;
    }
    Led(s, e, more);
    more := [e] + more;
  }

  lemma ReadyParts(s: Sys, plan: Plan)
    requires Ready(s, plan)
    ensures MasterInv(s) && UniqueOne(s)
  {
    hide RInv, RingStamped, GateStamped, UniqueOne, Inv, MasterInv;
    assert Inv(s) by { RInvParts(s, plan); }
    MasterPart(s);
  }

  lemma SameBase(s: Sys, e: Event)
    requires Enabled(s, e) && Delivering(e)
    ensures Next(s, e).base == s.base
  {
    hide OnRecord, OnBaseline, OnDesc, OnResume, OnIgnore, OnForget, CleanRun;
  }

  lemma NoPrefix(s: Sys, first: nat)
    requires Inv(s) && !s.gate.faulted && Started(s.gate, first) && first != s.base + 1
    ensures !LogPrefix(Accepted(s.gate), s.base, s.log)
  {
    hide Inv, Accepted, LogPrefix;
    PrefixExact(s);
  }

  // ---------------------------------------------------------------- the theorem

  lemma {:induction false} RunReady(s: Sys, plan: Plan, events: seq<Event>) returns (plan1: Plan)
    requires RInv(s, plan) && Free(plan) && Tally(s) && IsRun(s, events) && NoDrops(events)
    ensures RInv(After(s, events), plan1) && Free(plan1) && Tally(After(s, events))
    decreases |events|
  {
    hide RInv, Next, Enabled, Fresh, Tally, StartsAt;
    plan1 := plan;
    if events != [] {
      var first := FreeStep(s, plan, events[0]);
      TallyStep(s, plan, events[0]);
      plan1 := RunReady(Next(s, events[0]), plan.(first := first), events[1..]);
    }
  }

  lemma StartTally(base: nat, buffering: bool)
    ensures Tally(Start(base, buffering))
  {
  }

  /** Whatever the proxy reads next, if it does not fault it has accepted a prefix of the log. */
  ghost predicate OnlyPrefixes(s: Sys) {
    forall more :: IsRun(s, more) && OnlyReads(more) ==>
      var t := After(s, more); !t.gate.faulted ==> LogPrefix(Accepted(t.gate), t.base, t.log)
  }

  /** THE RING DECIDES.  Take any run of master and proxy in which nobody has been dropped and the gate has
      not accepted anything, within the proxy's limits.  Every continuation in which the proxy reads on
      without a fault accepts a prefix of the committed-write log if and only if no write leaves the ring
      before the session's first one. */
  lemma RingDecides(base: nat, buffering: bool, events: seq<Event>)
    requires IsRun(Start(base, buffering), events) && NoDrops(events)
    requires var s := After(Start(base, buffering), events); !s.gate.faulted && Fresh(s.gate) && Small(s)
    ensures var s := After(Start(base, buffering), events); OnlyPrefixes(s) <==> RingOrder(s)
  {
    hide RInv, Tally, Fresh, Small, RingOrder, IsRun, After, Inv;
    StartR(base, buffering, Any);
    StartTally(base, buffering);
    var s := After(Start(base, buffering), events);
    var plan := RunReady(Start(base, buffering), AtStart(base, Any), events);
    assert Ready(s, plan);
    if RingOrder(s) {
      forall more | IsRun(s, more) && OnlyReads(more)
        ensures var t := After(s, more); !t.gate.faulted ==> LogPrefix(Accepted(t.gate), t.base, t.log)
      {
        InOrderPrefix(s, plan, more);
      }
    } else {
      var i, c, k, c1, k1 := Broken(s);
      var more := BadRun(s, plan, i, c, k, c1, k1);
      assert IsRun(s, more) && OnlyReads(more);
    }
  }

  lemma Broken(s: Sys) returns (i: nat, c: nat, k: nat, c1: nat, k1: nat)
    requires !RingOrder(s)
    ensures OutOfOrder(s, i, c, k, c1, k1)
  {
    hide ReadAt, Cmds;
    i, c, k, c1, k1 :| IsWrite(s, c, k) && FramedAt(s, i, c, k) && IsOne(s, c1, k1) && !FramedAt(s, i, c1, k1);
  }
}
