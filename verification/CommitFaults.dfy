/** Master and proxy through faults: what has been accepted is a piece of the log in every state of every
    run, and a fault ends it. */
module CommitFaults {
  import opened Bytes
  import opened Framer
  import opened CommitGate
  import CommitOrder
  import opened CommitClosed
  import opened CommitMatch
  import opened CommitSystem
  import opened CommitSafety
  import opened CommitRuns
  import opened CommitTheorem

  // ---------------------------------------------------------------- a number is given once

  function InWire(wire: seq<Msg>, n: nat): nat {
    if wire == [] then 0
    else (if wire[0].DescMsg? && wire[0].desc.write && wire[0].desc.global == n then 1 else 0) + InWire(wire[1..], n)
  }

  predicate Given(s: Sys, n: nat) {
    s.base < n <= s.base + |s.log|
  }

  /** A number of the session is on its way or held by the gate at most once, any other not at all. */
  ghost predicate Once(s: Sys) {
    s.gate.faulted || forall n: nat :: Copies(s.gate, n) + InWire(Wire(s), n) <= if Given(s, n) then 1 else 0
  }

  lemma {:induction false} InWireAppend(a: seq<Msg>, b: seq<Msg>, n: nat)
    ensures InWire(a + b, n) == InWire(a, n) + InWire(b, n)
  {
    if a == [] {
      assert a + b == b;
    } else {
      assert (a + b)[1..] == a[1..] + b;
      InWireAppend(a[1..], b, n);
    }
  }

  lemma OnceSingle(s: Sys)
    requires Once(s) && !s.gate.faulted
    ensures Single(s.gate)
  {
    hide Copies, InWire;
    assert Copies(s.gate, 0) + InWire(Wire(s), 0) <= 0;
  }

  /** A message that is no descriptor. */
  lemma SendOnce(s: Sys, s1: Sys, m: Msg)
    requires Once(s) && !m.DescMsg? && s1.gate == s.gate && s1.base == s.base && s1.log == s.log
    requires s1.channel == s.channel + [m] && s1.batch == s.batch
    ensures Once(s1)
  {
    hide Copies;
    forall n: nat ensures InWire(Wire(s1), n) == InWire(Wire(s), n) {
      InWireAppend(s.channel + [m], s.batch, n);
      InWireAppend(s.channel, [m], n);
      InWireAppend(s.channel, s.batch, n);
      assert InWire([m], n) == 0;
    }
  }

  lemma PublishOneOnce(s: Sys, c: nat, data: bytes, write: bool)
    requires Once(s) && c in s.conns
    ensures Once(PublishOne(s, c, data, write))
  {
    hide Copies;
    var s1 := PublishOne(s, c, data, write);
    var m := s1.batch[|s.batch|];
    assert Wire(s1) == Wire(s) + [m];
    forall n: nat | !s.gate.faulted
      ensures Copies(s1.gate, n) + InWire(Wire(s1), n) <= if Given(s1, n) then 1 else 0
    {
      InWireAppend(Wire(s), [m], n);
      assert [m][1..] == [];
      assert Copies(s.gate, n) + InWire(Wire(s), n) <= if Given(s, n) then 1 else 0;
    }
  }

  lemma {:induction false} PublishOnce(s: Sys, c: nat, cmds: seq<bytes>, writes: seq<bool>)
    requires Once(s) && c in s.conns && |cmds| == |writes|
    ensures var r := Publish(s, c, cmds, writes);
      Once(r) && r.gate == s.gate && r.base == s.base && s.log <= r.log
    decreases |cmds|
  {
    hide Once;
    if cmds != [] {
      PublishOneOnce(s, c, cmds[0], writes[0]);
      PublishOnce(PublishOne(s, c, cmds[0], writes[0]), c, cmds[1..], writes[1..]);
    }
  }

  lemma SameOnce(s: Sys, s1: Sys)
    requires Once(s) && Wire(s1) == Wire(s) && s1.base == s.base && s1.log == s.log
    requires s1.gate.faulted || (!s.gate.faulted && Fewer(s.gate, s1.gate))
    ensures Once(s1)
  {
    hide Copies, InWire;
    forall n: nat | !s1.gate.faulted
      ensures Copies(s1.gate, n) + InWire(Wire(s1), n) <= if Given(s1, n) then 1 else 0
    {
      assert Copies(s.gate, n) + InWire(Wire(s), n) <= if Given(s, n) then 1 else 0;
      assert Copies(s1.gate, n) <= Copies(s.gate, n);
    }
  }

  // ---------------------------------------------------------------- committed through the fault

  lemma RecordCommitted(ok: Deliver, g: Gate, c: nat, n: nat, p: bytes,
                        first: nat, consumed: bytes, got: seq<Desc>, waiting: bool, base: nat, log: seq<bytes>)
    requires CtxOk(g.ctxs, c, first, consumed, got, waiting) && Committed(g, base, log)
    requires Honest(first, Cmds(Proxy, consumed + p), got, base, log)
    ensures Committed(OnRecord(ok, g, c, n, p), base, log)
  {
    hide Cmds, Tail, FrameCtx, Honest, Aligned, Committed;
    var r := OnRecord(ok, g, c, n, p);
    var g1 := WithCtx(g, c);
    var ctx := g1.ctxs[c];
    if g.faulted || NoRoom(g, c) || ctx.ignored || (ctx.recvValid && n != ctx.lastRecv + 1)
       || |ctx.buf| + |p| > CTX_BUF_CAP || !ctx.baseline {
      CommittedSame(g, r, base, log);
    } else {
      var g2 := g1.(ctxs := g1.ctxs[c := ctx.(lastRecv := n, recvValid := true, buf := ctx.buf + p)]);
      CommittedSame(g, g2, base, log);
      FrameMore(ok, g2, c, ctx, p, first, consumed, got, base, log);
    }
  }

  lemma DescCommitted(ok: Deliver, g: Gate, c: nat, d: Desc,
                      first: nat, consumed: bytes, got: seq<Desc>, base: nat, log: seq<bytes>)
    requires CtxOk(g.ctxs, c, first, consumed, got, false) && Committed(g, base, log)
    requires Honest(first, Cmds(Proxy, consumed), got + [d], base, log)
    ensures Committed(OnDesc(ok, g, c, d), base, log)
  {
    hide Run, TryMatch, Honest, Aligned, Committed, Cmds, Tail;
    var r := OnDesc(ok, g, c, d);
    var g1 := WithCtx(g, c);
    var ctx := g1.ctxs[c];
    if g.faulted || NoRoom(g, c) || ctx.ignored || !ctx.baseline {
      CommittedSame(g, r, base, log);
    } else {
      var g2 := g1.(ctxs := g1.ctxs[c := ctx.(descs := ctx.descs + [d])]);
      CommittedSame(g, g2, base, log);
      AlignedDesc(ctx, first, Cmds(Proxy, consumed), got, d);
      MatchAligned(ok, g2, c, first, Cmds(Proxy, consumed), got + [d], base, log);
    }
  }

  lemma SegmentPrefix(a: seq<Rec>, b: seq<Rec>, base: nat, log: seq<bytes>)
    requires a <= b && LogSegment(b, base, log)
    ensures LogSegment(a, base, log)
  {
  }

  lemma SegmentGrows(a: seq<Rec>, base: nat, log: seq<bytes>, log': seq<bytes>)
    requires LogSegment(a, base, log) && log <= log'
    ensures LogSegment(a, base, log')
  {
  }

  // ---------------------------------------------------------------- every step

  ghost predicate FInv(s: Sys) {
    Inv(s) && Once(s) && LogSegment(Accepted(s.gate), s.base, s.log)
  }

  lemma HealthyGate(s: Sys)
    requires Inv(s) && Once(s) && !s.gate.faulted
    ensures Solid(s.gate) && CommitOrder.GateInv(s.gate) && Committed(s.gate, s.base, s.log)
  {
    hide CommitOrder.GateInv, Committed, Solid, Single, Once, MasterInv, CtxOk;
    OnceSingle(s);
    HealthySolid(s.gate);
  }

  lemma RecordStep(s: Sys, ok: Deliver)
    requires FInv(s) && s.ring != []
    ensures var p := s.ring[0]; var s1 := s.(ring := s.ring[1..],
                                             gate := OnRecord(ok, s.gate, p.cookie, p.recvSeq, p.payload));
      Once(s1) && LogSegment(Accepted(s1.gate), s1.base, s1.log)
  {
    hide Inv, Once, OnRecord, Accepted, LogSegment, Solid, Fewer;
    var p := s.ring[0];
    var g := OnRecord(ok, s.gate, p.cookie, p.recvSeq, p.payload);
    var s1 := s.(ring := s.ring[1..], gate := g);
    if s.gate.faulted {
      FaultedRecord(ok, s.gate, p.cookie, p.recvSeq, p.payload);
      Reflexive(g);
    } else {
      HealthyGate(s);
      RecordSolid(ok, s.gate, p.cookie, p.recvSeq, p.payload);
      RecordLog(s, ok);
      SolidRow(g);
      AcceptedInLog(g, s.base, s.log);
    }
    SameOnce(s, s1);
  }

  lemma FaultedRecord(ok: Deliver, g: Gate, c: nat, n: nat, p: bytes)
    requires g.faulted
    ensures OnRecord(ok, g, c, n, p) == g
  {
  }

  lemma SolidRow(g: Gate)
    requires Solid(g)
    ensures Numbered(Accepted(g))
  {
  }

  /** The record's bytes are the next of the connection's stream. */
  lemma RecordLog(s: Sys, ok: Deliver)
    requires Inv(s) && s.ring != [] && !s.gate.faulted
    ensures Committed(OnRecord(ok, s.gate, s.ring[0].cookie, s.ring[0].recvSeq, s.ring[0].payload), s.base, s.log)
  {
    hide ConnOk, WireOk, WireDescs, RingBytes, IsSuffix, Consumed;
    hide Got, Committed, CommitOrder.GateInv, CtxOk, OnRecord, Cmds, Waiting;
    var p := s.ring[0];
    var s1 := s.(ring := s.ring[1..]);
    PopRing(s, s.gate, p.cookie);
    assert ConnInv(s, p.cookie);
    GotPrefix(s, p.cookie);
    HonestConn(s.conns[p.cookie], Consumed(s1, p.cookie), Got(s, p.cookie), s.base, s.log);
    RecordCommitted(ok, s.gate, p.cookie, p.recvSeq, p.payload, s.conns[p.cookie].first, Consumed(s, p.cookie),
                    Got(s, p.cookie), Waiting(Wire(s), p.cookie), s.base, s.log);
  }

  lemma DescLog(s: Sys, ok: Deliver)
    requires Inv(s) && s.channel != [] && s.channel[0].DescMsg? && !s.gate.faulted
    ensures Committed(OnDesc(ok, s.gate, s.channel[0].cookie, s.channel[0].desc), s.base, s.log)
  {
    hide ConnOk, RingBytes, WireDescs, Waiting, CtxOk, Committed, CommitOrder.GateInv, OnDesc, Cmds, Front;
    var m := s.channel[0];
    var c := m.cookie;
    assert Wire(s)[0] == m;
    PopDescs(s, c);
    assert ConnInv(s, c);
    GotPrefix(s, c);
    HonestConn(s.conns[c], Consumed(s, c), Got(s, c) + [m.desc], s.base, s.log);
    NotWaiting(s.gate.ctxs, c, s.conns[c].first, Consumed(s, c), Got(s, c), Waiting(Wire(s), c));
    DescCommitted(ok, s.gate, c, m.desc, s.conns[c].first, Consumed(s, c), Got(s, c), s.base, s.log);
  }

  /** The head of the channel takes its number along. */
  lemma PopInWire(s: Sys, n: nat)
    requires s.channel != []
    ensures var m := s.channel[0];
      InWire(Wire(s), n) == InWire(Wire(s.(channel := s.channel[1..])), n)
        + if m.DescMsg? && m.desc.write && m.desc.global == n then 1 else 0
  {
    assert Wire(s)[1..] == Wire(s.(channel := s.channel[1..]));
    assert Wire(s)[0] == s.channel[0];
  }

  lemma DescStep(s: Sys, ok: Deliver)
    requires FInv(s) && s.channel != [] && s.channel[0].DescMsg? && !s.gate.faulted
    ensures var s1 := TakeMsgStep(ok, s);
      Once(s1) && LogSegment(Accepted(s1.gate), s1.base, s1.log)
  {
    hide Inv, OnDesc, Accepted, LogSegment, Solid, Copies, InWire;
    var m := s.channel[0];
    var s1 := TakeMsgStep(ok, s);
    HealthyGate(s);
    if m.desc.write {
      PopInWire(s, m.desc.global);
      assert Copies(s.gate, m.desc.global) + InWire(Wire(s), m.desc.global) <= 1;
      assert Given(s, m.desc.global);
    }
    DescSolid(ok, s.gate, m.cookie, m.desc);
    DescLog(s, ok);
    SolidRow(s1.gate);
    AcceptedInLog(s1.gate, s.base, s.log);
    forall n: nat ensures Copies(s1.gate, n) + InWire(Wire(s1), n) <= if Given(s1, n) then 1 else 0 {
      PopInWire(s, n);
      assert Wire(s1) == Wire(s.(channel := s.channel[1..]));
      assert Copies(s.gate, n) + InWire(Wire(s), n) <= if Given(s, n) then 1 else 0;
    }
  }

  /** A message that is no descriptor: at most fewer copies, and nothing new accepted. */
  lemma OtherMsgStep(s: Sys, ok: Deliver, g: Gate)
    requires Once(s) && LogSegment(Accepted(s.gate), s.base, s.log) && s.channel != [] && !s.channel[0].DescMsg?
    requires (g.faulted || (!s.gate.faulted && Fewer(s.gate, g))) && Accepted(g) <= Accepted(s.gate)
    ensures var s1 := s.(channel := s.channel[1..], gate := g);
      Once(s1) && LogSegment(Accepted(s1.gate), s1.base, s1.log)
  {
    hide Copies, InWire, Accepted, LogSegment;
    var s0 := s.(channel := s.channel[1..]);
    SegmentPrefix(Accepted(g), Accepted(s.gate), s.base, s.log);
    forall n: nat ensures InWire(Wire(s0), n) == InWire(Wire(s), n) { PopInWire(s, n); }
    assert Once(s0);
    SameOnce(s0, s0.(gate := g));
  }

  lemma ResumeCopies(ok: Deliver, g: Gate, m: nat)
    ensures Fewer(g, OnResume(ok, g, m))
  {
    SameCopies(g, OnResume(ok, g, m));
  }

  lemma MsgStep(s: Sys, ok: Deliver)
    requires FInv(s) && s.channel != []
    ensures var s1 := TakeMsgStep(ok, s);
      Once(s1) && LogSegment(Accepted(s1.gate), s1.base, s1.log)
  {
    hide Inv, Once, OnDesc, OnBaseline, OnIgnore, OnForget, OnResume, Accepted, LogSegment, Solid, Fewer, InWire;
    if s.gate.faulted {
      FaultedMsg(s, ok);
      FaultedOnce(TakeMsgStep(ok, s));
      SegmentPrefix(Accepted(TakeMsgStep(ok, s).gate), Accepted(s.gate), s.base, s.log);
    } else if s.channel[0].DescMsg? {
      DescStep(s, ok);
    } else {
      HealthyGate(s);
      NothingAdded(s, ok);
      OtherMsgStep(s, ok, TakeMsgStep(ok, s).gate);
    }
  }

  lemma NothingAdded(s: Sys, ok: Deliver)
    requires s.channel != [] && !s.channel[0].DescMsg? && Solid(s.gate)
    ensures var g := TakeMsgStep(ok, s).gate; Fewer(s.gate, g) && Accepted(g) <= Accepted(s.gate)
  {
    hide OnBaseline, OnIgnore, OnForget, OnResume, Accepted, Solid, Fewer;
    match s.channel[0]
    case BaselineMsg(c, n) =>
      BaselineSolid(ok, s.gate, c, n);
      BaselineUnmatched(ok, s.gate, c, n);
      SameAccepted(s.gate, OnBaseline(ok, s.gate, c, n));
    case IgnoreMsg(c) =>
      IgnoreSolid(s.gate, c);
      DropAccepted(s.gate, c);
    case ForgetMsg(c) =>
      ForgetSolid(s.gate, c);
      DropAccepted(s.gate, c);
    case ResumeMsg(m) =>
      ResumeTakes(ok, s.gate, m);
      ResumeCopies(ok, s.gate, m);
  }

  lemma DropAccepted(g: Gate, c: nat)
    ensures Accepted(OnIgnore(g, c)) == Accepted(g) && Accepted(OnForget(g, c)) == Accepted(g)
  {
    hide ReleaseAll, Accepted;
    SameAccepted(g, OnIgnore(g, c));
    SameAccepted(g, OnForget(g, c));
  }

  function AsInput(m: Msg): CommitOrder.Input {
    match m
    case BaselineMsg(c, n) => CommitOrder.Baseline(c, n)
    case DescMsg(c, d) => CommitOrder.Descriptor(c, d)
    case IgnoreMsg(c) => CommitOrder.Ignore(c)
    case ForgetMsg(c) => CommitOrder.Forget(c)
    case ResumeMsg(m) => CommitOrder.Resume(m)
  }

  lemma FaultedMsg(s: Sys, ok: Deliver)
    requires s.channel != [] && s.gate.faulted
    ensures var g := TakeMsgStep(ok, s).gate;
      g.faulted && s.gate.settled <= g.settled && Accepted(g) <= Accepted(s.gate)
  {
    hide OnDesc, OnBaseline, OnIgnore, OnForget, OnResume, Accepted;
    FaultedTurn(ok, s.gate, AsInput(s.channel[0]));
  }

  lemma FaultedOnce(s: Sys)
    requires s.gate.faulted
    ensures Once(s)
  {
  }

  lemma ParseOnce(s: Sys, c: nat, writes: seq<bool>)
    requires FInv(s) && Enabled(s, Parse(c, writes))
    ensures var s1 := Next(s, Parse(c, writes)); Once(s1) && LogSegment(Accepted(s1.gate), s1.base, s1.log)
  {
    hide Inv, Cmds, Tail, Publish, Accepted, LogSegment, Once;
    var s1 := Publish(s, c, Cmds(Master, s.conns[c].inbuf), writes);
    PublishOnce(s, c, Cmds(Master, s.conns[c].inbuf), writes);
    SegmentGrows(Accepted(s.gate), s.base, s.log, s1.log);
    Reflexive(s1.gate);
    if s1.gate.faulted { FaultedOnce(Next(s, Parse(c, writes))); } else { SameOnce(s1, Next(s, Parse(c, writes))); }
  }

  lemma StepFInv(s: Sys, e: Event)
    requires FInv(s) && Enabled(s, e)
    ensures FInv(Next(s, e))
  {
    hide Inv, Once, Accepted, LogSegment, OnRecord, TakeMsgStep, ParseStep, Cmds;
    var s1 := Next(s, e);
    NextInv(s, e);
    match e
    case Open(c, first) => SendOnce(s, s1, BaselineMsg(c, first));
    case Close(c) => SendOnce(s, s1, ForgetMsg(c));
    case ToReplica(c) => SendOnce(s, s1, IgnoreMsg(c));
    case SendResume(m) => SendOnce(s, s1, ResumeMsg(m));
    case Parse(c, writes) => ParseOnce(s, c, writes);
    case TakeRecord(ok) => RecordStep(s, ok);
    case TakeMsg(ok) => MsgStep(s, ok);
    case _ => QuietStep(s, e);
  }

  lemma QuietStep(s: Sys, e: Event)
    requires FInv(s) && Enabled(s, e) && (e.Recv? || e.Flush? || e.PollEdge? || e.Trouble?)
    ensures var s1 := Next(s, e); Once(s1) && LogSegment(Accepted(s1.gate), s1.base, s1.log)
  {
    hide Inv, Once, Accepted, LogSegment, Copies, InWire;
    var s1 := Next(s, e);
    assert Wire(s1) == Wire(s);
    SameCopies(s.gate, s1.gate);
    SameAccepted(s.gate, s1.gate);
    if s1.gate.faulted { FaultedOnce(s1); } else { SameOnce(s, s1); }
  }

  lemma {:induction false} RunFInv(s: Sys, events: seq<Event>)
    requires FInv(s) && IsRun(s, events)
    ensures FInv(After(s, events))
    decreases |events|
  {
    hide FInv, Next, Enabled;
    if events != [] {
      StepFInv(s, events[0]);
      RunFInv(Next(s, events[0]), events[1..]);
    }
  }

  lemma StartFInv(base: nat, buffering: bool)
    ensures FInv(Start(base, buffering))
  {
    hide Inv;
    StartInv(base, buffering);
  }

  // ---------------------------------------------------------------- after a fault

  lemma FaultedStep(s: Sys, e: Event)
    requires s.gate.faulted && Enabled(s, e)
    ensures var g := Next(s, e).gate;
      g.faulted && s.gate.settled <= g.settled && Accepted(g) <= Accepted(s.gate)
  {
    hide Accepted, TakeMsgStep, ParseStep, OnRecord, Cmds;
    var g := Next(s, e).gate;
    match e
    case TakeMsg(ok) => FaultedMsg(s, ok);
    case TakeRecord(ok) => FaultedRecord(ok, s.gate, s.ring[0].cookie, s.ring[0].recvSeq, s.ring[0].payload);
    case Parse(c, writes) => ParseGate(s, c, writes);
    case _ => SameAccepted(s.gate, g);
  }

  lemma ParseGate(s: Sys, c: nat, writes: seq<bool>)
    requires s.gate.faulted && Enabled(s, Parse(c, writes))
    ensures Next(s, Parse(c, writes)).gate == s.gate
  {
    hide Cmds, Tail, Publish;
    FaultedOnce(s);
    PublishOnce(s, c, Cmds(Master, s.conns[c].inbuf), writes);
  }

  lemma {:induction false} FaultedRuns(s: Sys, events: seq<Event>)
    requires s.gate.faulted && IsRun(s, events)
    ensures var g := After(s, events).gate;
      g.faulted && s.gate.settled <= g.settled && Accepted(g) <= Accepted(s.gate)
    decreases |events|
  {
    hide Next, Enabled, Accepted;
    if events != [] {
      FaultedStep(s, events[0]);
      FaultedRuns(Next(s, events[0]), events[1..]);
    }
  }

  /** END TO END.  In every run of master and proxy, whatever the interleaving, with connections forgotten or
      turned replica at any moment, whether the gate has faulted or not, all it has accepted since the session
      began - delivered, dropped or kept - is, in order and byte for byte, one contiguous piece of the
      committed-write log: nothing past a missing number. */
  lemma AcceptsTheLog(base: nat, buffering: bool, events: seq<Event>)
    requires IsRun(Start(base, buffering), events)
    ensures var s := After(Start(base, buffering), events); LogSegment(Accepted(s.gate), s.base, s.log)
  {
    hide FInv, Accepted, LogSegment;
    StartFInv(base, buffering);
    RunFInv(Start(base, buffering), events);
    FInvSegment(After(Start(base, buffering), events));
  }

  /** FAIL CLOSED.  From a fault on, in every run that follows, what is delivered is a beginning of what had
      been accepted by then; after a failed delivery, with nothing kept, nothing more. */
  lemma FailClosed(s: Sys, events: seq<Event>)
    requires s.gate.faulted && IsRun(s, events)
    ensures var g := After(s, events).gate;
      && g.faulted && s.gate.settled <= g.settled && Accepted(g) <= Accepted(s.gate)
      && (s.gate.rec == [] ==> g.settled == s.gate.settled)
  {
    hide Accepted;
    FaultedRuns(s, events);
    NothingLeft(s.gate, After(s, events).gate);
  }

  lemma FInvSegment(s: Sys)
    requires FInv(s)
    ensures LogSegment(Accepted(s.gate), s.base, s.log)
  {
  }

  lemma NothingLeft(g: Gate, g1: Gate)
    requires g.settled <= g1.settled && Accepted(g1) <= Accepted(g)
    ensures g.rec == [] ==> g1.settled == g.settled
  {
  }
}
