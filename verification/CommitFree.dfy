/** Every interleaving, without any discipline: wherever the gate starts, it starts at a write that was
    framed and announced, and until then nothing but SKIPs has been matched. */
module CommitFree {
  import opened Bytes
  import opened Framer
  import opened FramerAgreement
  import opened CommitGate
  import opened CommitMatch
  import opened CommitSystem
  import opened CommitSafety
  import opened CommitFirst
  import opened CommitTheorem
  import opened CommitReactor
  import opened CommitPrefix

  /** The number of the first write the context can match once `extra` more commands are queued. */
  function Lead(ctx: Ctx, extra: nat, other: nat): (n: nat)
    ensures Leads(ctx, extra, n)
  {
    var f := FirstWrite(ctx.descs);
    if f < |ctx.descs| && f < |ctx.cmds| + extra then ctx.descs[f].global else other
  }

  /** `n` is the number of a write of connection c that is framed once ring[i..] is left. */
  ghost predicate FramedNumber(s: Sys, i: nat, c: nat, n: nat) {
    exists k: nat :: IsWrite(s, c, k) && s.conns[c].descs[k].global == n && FramedAt(s, i, c, k)
  }

  /** A fresh gate may start anywhere. */
  lemma Anywhere(s: Sys, plan: Plan, first: nat)
    requires RInv(s, plan) && plan.mode == Any && !s.gate.faulted && Fresh(s.gate) && first > 0
    ensures RInv(s, plan.(first := first))
  {
    hide Inv, DescOrder, RingOrder, Rising, Wire, Waiting, Got, Started, Fresh, Done;
    NotStartedFresh(s, plan.first);
  }

  /** What connection c has framed and got, in the gate's terms. */
  lemma QueuedWrite(s: Sys, c: nat, f: nat) returns (k: nat)
    requires Inv(s) && !s.gate.faulted && c in s.conns && Baselined(s.gate, c)
    requires f < |s.gate.ctxs[c].descs| && s.gate.ctxs[c].descs[f].write
    ensures k + |s.gate.ctxs[c].cmds| == |Cmds(Proxy, Consumed(s, c))| + f
    ensures IsWrite(s, c, k) && s.conns[c].descs[k] == s.gate.ctxs[c].descs[f]
  {
    hide Inv, Cmds, Waiting, Wire, Got, Consumed;
    CtxFacts(s, c);
    GotLePart(s, c);
    k := |Cmds(Proxy, Consumed(s, c))| - |s.gate.ctxs[c].cmds| + f;
    assert Got(s, c)[k] == s.gate.ctxs[c].descs[f];
  }

  /** Where a fresh gate starts, if it starts when the head record is read. */
  lemma RecordStart(s: Sys, plan: Plan) returns (first: nat)
    requires RInv(s, plan) && !s.gate.faulted && s.ring != []
    ensures RecordLed(s, first)
    ensures first == s.base + 2 || FramedNumber(s, 1, s.ring[0].cookie, first)
  {
    hide Inv, MasterOrder, GateOrder, Cmds, Tail, Waiting, Wire, Got, Consumed, Aligned, ReadAt;
    var c, p := s.ring[0].cookie, s.ring[0].payload;
    first := s.base + 2;
    if Fresh(s.gate) && Baselined(s.gate, c) {
      RingCookie(s);
      CtxFacts(s, c);
      ProxyChunk(Consumed(s, c), p);
      var ctx := s.gate.ctxs[c];
      var n := |Cmds(Proxy, ctx.buf + p)|;
      first := Lead(ctx, n, s.base + 2);
      var f := FirstWrite(ctx.descs);
      if f < |ctx.descs| && f < |ctx.cmds| + n {
        var k := QueuedWrite(s, c, f);
        ReadOne(s, c);
        assert FramedAt(s, 1, c, k);
      }
    }
  }

  /** Where it starts, if it starts when a descriptor is read. */
  lemma DescStart(s: Sys, plan: Plan) returns (first: nat)
    requires RInv(s, plan) && !s.gate.faulted && s.channel != [] && s.channel[0].DescMsg?
    ensures DescLed(s, first)
    ensures first == s.base + 2 || FramedNumber(s, 0, s.channel[0].cookie, first)
  {
    hide Inv, MasterOrder, GateOrder, Cmds, Tail, Waiting, Wire, Got, Consumed, Aligned, ReadAt;
    var c, d := s.channel[0].cookie, s.channel[0].desc;
    first := s.base + 2;
    if Fresh(s.gate) && Baselined(s.gate, c) {
      MasterPart(s);
      HeadCookie(s);
      var ctx := s.gate.ctxs[c];
      var descs := ctx.descs + [d];
      first := Lead(ctx.(descs := descs), 0, s.base + 2);
      var f := FirstWrite(descs);
      if f < |descs| && f < |ctx.cmds| {
        ReadNow(s, c);
        FramedCount(s, c);
        if f < |ctx.descs| {
          var k := QueuedWrite(s, c, f);
          assert FramedAt(s, 0, c, k);
        } else {
          HeadWrite(s, plan);
          GotCount(s, c);
          assert FramedAt(s, 0, c, |Got(s, c)|);
        }
      }
    }
  }

  lemma FramedCount(s: Sys, c: nat)
    requires Inv(s) && !s.gate.faulted && c in s.conns && Baselined(s.gate, c)
    ensures |s.gate.ctxs[c].cmds| <= |Cmds(Proxy, Consumed(s, c))|
  {
    hide Inv, Cmds, Waiting, Wire, Got, Consumed;
    CtxFacts(s, c);
  }

  lemma GotCount(s: Sys, c: nat)
    requires Inv(s) && !s.gate.faulted && c in s.conns && Baselined(s.gate, c)
    ensures |Got(s, c)| + |s.gate.ctxs[c].cmds| == |Cmds(Proxy, Consumed(s, c))| + |s.gate.ctxs[c].descs|
  {
    hide Inv, Cmds, Waiting, Wire, Got, Consumed;
    CtxFacts(s, c);
  }

  /** The master may do anything but drop a connection. */
  predicate NoDrop(e: Event) {
    !e.Close? && !e.ToReplica?
  }

  predicate NoDrops(events: seq<Event>) {
    events == [] || (NoDrop(events[0]) && NoDrops(events[1..]))
  }

  /** No discipline, nobody dropped. */
  predicate Free(plan: Plan) {
    plan.mode == Any && plan.busy == None && plan.closed == {} && plan.dropped == {}
  }

  lemma NothingDropping(s: Sys, plan: Plan)
    requires RInv(s, plan) && Free(plan) && s.channel != []
    ensures !Dropping(s.channel[0])
  {
    hide Inv, DescOrder, RingOrder, ConnsOrdered, BusyOk, GateOrder, Done;
    assert Wire(s)[0] == s.channel[0];
  }

  /** `first` is the number of a write that step e completes, or the second of the session. */
  ghost predicate StartsAt(s: Sys, e: Event, first: nat)
    requires Enabled(s, e)
  {
    || first == s.base + 2
    || (e.TakeRecord? && FramedNumber(s, 1, s.ring[0].cookie, first))
    || (e.TakeMsg? && s.channel[0].DescMsg? && FramedNumber(s, 0, s.channel[0].cookie, first))
  }

  /** The number the gate starts at after a step: the one it had, or where it starts now. */
  lemma FreeStep(s: Sys, plan: Plan, e: Event) returns (first: nat)
    requires RInv(s, plan) && Free(plan) && Enabled(s, e) && NoDrop(e)
    ensures RInv(Next(s, e), plan.(first := first))
    ensures Fresh(s.gate) && !s.gate.faulted ==> StartsAt(s, e, first)
  {
    hide RInv, Inv, CleanRun, OnRecord, TakeMsgStep, ParseStep, Done, RecordLed, DescLed, Fresh, FramedNumber;
    assert Inv(s) by { RInvParts(s, plan); }
    NextInv(s, e);
    first := plan.first;
    var p := plan;
    if Fresh(s.gate) && !s.gate.faulted {
      first := s.base + 2;
      if e.TakeRecord? {
        first := RecordStart(s, plan);
      } else if e.TakeMsg? && s.channel[0].DescMsg? {
        first := DescStart(s, plan);
      }
      FramedPositive(s, first);
      Anywhere(s, plan, first);
      p := plan.(first := first);
    }
    match e
    case Recv(c, b) => RecvR(s, p, c, b);
    case Parse(c, writes) => ParseR(s, p, c, writes);
    case TakeRecord(ok) =>
      if !s.gate.faulted && !Fresh(s.gate) { LedAnyhow(s, first); }
      RecordR(s, p, Next(s, e), ok);
    case TakeMsg(ok) =>
      NothingDropping(s, plan);
      if !s.gate.faulted && !Fresh(s.gate) { LedAnyhow(s, first); }
      TakeMsgR(s, p, ok);
    case PollEdge(b) => PollR(s, p, Next(s, e));
    case Trouble => PollR(s, p, Next(s, e));
    case _ => SendR(s, p, e);
  }

  lemma FramedPositive(s: Sys, first: nat)
    requires Inv(s)
    ensures forall i: nat, c: nat :: FramedNumber(s, i, c, first) ==> first > 0
  {
    hide Inv, MasterInv, FramedAt;
    MasterPart(s);
    forall i: nat, c: nat | FramedNumber(s, i, c, first) ensures first > 0 {
      var k: nat :| IsWrite(s, c, k) && s.conns[c].descs[k].global == first && FramedAt(s, i, c, k);
      WriteNumber(s, c, k);
    }
  }

  lemma LedAnyhow(s: Sys, first: nat)
    requires !Fresh(s.gate)
    ensures s.ring != [] ==> RecordLed(s, first)
    ensures s.channel != [] && s.channel[0].DescMsg? ==> DescLed(s, first)
  {
  }
}
