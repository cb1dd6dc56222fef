/** Master and proxy without drops: no write is left behind.  What is accepted when everything has been read
    without a fault is the whole log. */
module CommitComplete {
  import opened Bytes
  import opened Framer
  import opened FramerTheorems
  import opened FramerAgreement
  import opened Sums
  import opened CommitGate
  import CommitOrder
  import opened CommitClosed
  import opened CommitMatch
  import opened CommitSystem
  import opened CommitSafety
  import opened CommitRuns
  import opened CommitTheorem
  import opened CommitFaults
  import opened CommitWhole

  /** Nobody disconnects or turns replica. */
  predicate Stays(e: Event) {
    !e.Close? && !e.ToReplica?
  }

  predicate AllStay(events: seq<Event>) {
    forall i :: 0 <= i < |events| ==> Stays(events[i])
  }

  // ---------------------------------------------------------------- what every step keeps

  /** Every number of the session is exactly once on its way, held or accepted, and no other number is. */
  ghost predicate AllKnown(s: Sys) {
    s.gate.faulted || forall n: nat :: Known(s.gate, n) + InWire(Wire(s), n) == if Given(s, n) then 1 else 0
  }

  ghost predicate NoDrops(wire: seq<Msg>) {
    forall m :: m in wire ==> !m.IgnoreMsg? && !m.ForgetMsg?
  }

  predicate Serving(ctxs: map<nat, Ctx>, c: nat) {
    c in ctxs && ctxs[c].baseline
  }

  /** Every connection's BASELINE is on its way or has been read; nobody is ignored. */
  ghost predicate Served(s: Sys) {
    s.gate.faulted ||
    (&& (forall c :: c in s.conns ==> Waiting(Wire(s), c) || Serving(s.gate.ctxs, c))
     && (forall c :: c in s.gate.ctxs ==> !s.gate.ctxs[c].ignored))
  }

  // ---------------------------------------------------------------- what an input does to the contexts

  /** Only connection c may change, and it keeps its BASELINE. */
  ghost predicate Touches(g: Gate, r: Gate, c: nat) {
    && (forall k :: k != c ==> (k in r.ctxs <==> k in g.ctxs) && (k in g.ctxs ==> r.ctxs[k] == g.ctxs[k]))
    && (Serving(g.ctxs, c) ==> Serving(r.ctxs, c))
    && (c in r.ctxs && r.ctxs[c].ignored ==> c in g.ctxs && g.ctxs[c].ignored)
  }

  lemma TouchesTwice(a: Gate, b: Gate, d: Gate, c: nat)
    requires Touches(a, b, c) && Touches(b, d, c)
    ensures Touches(a, d, c)
  {
  }

  lemma MatchTouches(ok: Deliver, g: Gate, c: nat)
    requires c in g.ctxs
    ensures Touches(g, TryMatch(ok, g, c), c)
  {
    hide TryMatch;
    MatchBaseline(ok, g, c);
  }

  lemma {:induction false} FrameTouches(ok: Deliver, g: Gate, c: nat, cmds: seq<bytes>)
    requires c in g.ctxs
    ensures Touches(g, FrameAll(ok, g, c, cmds), c)
    decreases |cmds|
  {
    hide TryMatch;
    if cmds != [] {
      var g1 := Queue(g, c, cmds[0]);
      var r := FrameOne(ok, g, c, cmds[0]);
      MatchTouches(ok, g1, c);
      assert Touches(g, g1, c) && Touches(g1, r, c);
      hide Touches;
      TouchesTwice(g, g1, r, c);
      FrameTouches(ok, r, c, cmds[1..]);
      TouchesTwice(g, r, FrameAll(ok, g, c, cmds), c);
    }
  }

  lemma FrameCtxTouches(ok: Deliver, g: Gate, c: nat)
    requires c in g.ctxs
    ensures Touches(g, FrameCtx(ok, g, c), c)
  {
    hide FrameAll, Cmds, Tail;
    FrameTouches(ok, g, c, Cmds(Proxy, g.ctxs[c].buf));
  }

  lemma SetTouches(g: Gate, r: Gate, c: nat, ctx: Ctx)
    requires r.ctxs == g.ctxs[c := ctx]
    requires (Serving(g.ctxs, c) ==> ctx.baseline) && (ctx.ignored ==> c in g.ctxs && g.ctxs[c].ignored)
    ensures Touches(g, r, c)
  {
  }

  lemma SameTouches(g: Gate, r: Gate, c: nat)
    requires r.ctxs == g.ctxs
    ensures Touches(g, r, c)
  {
  }

  lemma RecordTouches(ok: Deliver, g: Gate, c: nat, n: nat, p: bytes)
    ensures Touches(g, OnRecord(ok, g, c, n, p), c)
  {
    hide TryMatch, FrameCtx, Touches;
    var r, g1 := OnRecord(ok, g, c, n, p), WithCtx(g, c);
    var ctx := g1.ctxs[c];
    var seen := ctx.(lastRecv := n, recvValid := true);
    if g.faulted || NoRoom(g, c) {
      SameTouches(g, r, c);
    } else if ctx.ignored || (ctx.recvValid && n != ctx.lastRecv + 1) {
      SetTouches(g, r, c, ctx);
    } else if |ctx.buf| + |p| > CTX_BUF_CAP {
      SetTouches(g, r, c, seen);
    } else {
      var g2 := g1.(ctxs := g1.ctxs[c := seen.(buf := ctx.buf + p)]);
      SetTouches(g, g2, c, seen.(buf := ctx.buf + p));
      MatchTouches(ok, g2, c);
      FrameCtxTouches(ok, g2, c);
      TouchesTwice(g, g2, r, c);
    }
  }

  lemma DescTouches(ok: Deliver, g: Gate, c: nat, d: Desc)
    ensures Touches(g, OnDesc(ok, g, c, d), c)
  {
    hide TryMatch, Touches;
    var r, g1 := OnDesc(ok, g, c, d), WithCtx(g, c);
    var ctx := g1.ctxs[c];
    if g.faulted || NoRoom(g, c) {
      SameTouches(g, r, c);
    } else if ctx.ignored {
      SetTouches(g, r, c, ctx);
    } else {
      var g2 := g1.(ctxs := g1.ctxs[c := ctx.(descs := ctx.descs + [d])]);
      SetTouches(g, g2, c, ctx.(descs := ctx.descs + [d]));
      MatchTouches(ok, g2, c);
      TouchesTwice(g, g2, TryMatch(ok, g2, c), c);
    }
  }

  lemma BaselineTouches(ok: Deliver, g: Gate, c: nat, n: nat)
    ensures var r := OnBaseline(ok, g, c, n); Touches(g, r, c) && (r.faulted || Serving(r.ctxs, c))
  {
    hide TryMatch, FrameCtx, ReleaseAll, Touches;
    var r := OnBaseline(ok, g, c, n);
    if NoRoom(g, c) {
      SameTouches(g, r, c);
    } else {
      var g1 := WithCtx(g, c);
      var ctx := g1.ctxs[c];
      var reset := Ctx(if ctx.baseline then [] else ctx.buf, true, false, if n == 0 then 1 else n, 0, false, [], []);
      var g3 := ReleaseAll(g1, ctx.cmds).(ctxs := g1.ctxs[c := reset]);
      var f := FrameCtx(ok, g3, c);
      SetTouches(g, g3, c, reset);
      FrameCtxTouches(ok, g3, c);
      MatchTouches(ok, f, c);
      TouchesTwice(g, g3, f, c);
      TouchesTwice(g3, f, r, c);
      TouchesTwice(g, f, r, c);
      ServingStays(g3, r, c);
    }
  }

  lemma ServingStays(g: Gate, r: Gate, c: nat)
    requires Touches(g, r, c) && Serving(g.ctxs, c)
    ensures Serving(r.ctxs, c)
  {
  }

  // ---------------------------------------------------------------- steps of the master

  ghost predicate Rest(s: Sys) {
    AllKnown(s) && NoDrops(Wire(s)) && Served(s)
  }

  /** The wire and the connections as the gate knows them are the same. */
  lemma SameRest(s: Sys, s1: Sys)
    requires Rest(s) && s1.gate == s.gate && Wire(s1) == Wire(s) && s1.conns.Keys == s.conns.Keys
    requires s1.base == s.base && s1.log == s.log
    ensures Rest(s1)
  {
    hide Known, InWire, Waiting;
  }

  lemma InWireInsert(a: seq<Msg>, m: Msg, b: seq<Msg>, n: nat)
    requires !m.DescMsg?
    ensures InWire(a + [m] + b, n) == InWire(a + b, n)
  {
    InWireAppend(a + [m], b, n);
    InWireAppend(a, [m], n);
    InWireAppend(a, b, n);
    assert InWire([m], n) == 0;
  }

  lemma SentRest(s: Sys, s1: Sys, m: Msg)
    requires Rest(s) && (m.BaselineMsg? || m.ResumeMsg?)
    requires s1.gate == s.gate && s1.base == s.base && s1.log == s.log
    requires s1.channel == s.channel + [m] && s1.batch == s.batch
    requires s1.conns.Keys == s.conns.Keys + if m.BaselineMsg? then {m.cookie} else {}
    ensures Rest(s1)
  {
    hide Known, InWire, Waiting;
    assert Wire(s1) == s.channel + [m] + s.batch;
    forall n: nat ensures InWire(Wire(s1), n) == InWire(Wire(s), n) { InWireInsert(s.channel, m, s.batch, n); }
    forall x | x in Wire(s1) ensures !x.IgnoreMsg? && !x.ForgetMsg? { assert x == m || x in Wire(s); }
    forall c | c in s1.conns && !s1.gate.faulted ensures Waiting(Wire(s1), c) || Serving(s1.gate.ctxs, c) {
      WaitingInsert(s.channel, m, s.batch, c);
      assert c in s.conns || c == m.cookie;
    }
  }

  lemma PublishOneRest(s: Sys, c: nat, data: bytes, write: bool)
    requires Rest(s) && c in s.conns
    ensures Rest(PublishOne(s, c, data, write))
  {
    hide Known, Waiting, Serving;
    var s1 := PublishOne(s, c, data, write);
    var m := s1.batch[|s.batch|];
    assert Wire(s1) == Wire(s) + [m];
    forall n: nat | !s.gate.faulted
      ensures Known(s1.gate, n) + InWire(Wire(s1), n) == if Given(s1, n) then 1 else 0
    {
      InWireAppend(Wire(s), [m], n);
      assert [m][1..] == [];
      assert Known(s.gate, n) + InWire(Wire(s), n) == if Given(s, n) then 1 else 0;
    }
    hide InWire;
    forall k | k in s1.conns && !s1.gate.faulted ensures Waiting(Wire(s1), k) || Serving(s1.gate.ctxs, k) {
      WaitingMore(Wire(s), m, k);
    }
  }

  lemma WaitingMore(wire: seq<Msg>, m: Msg, c: nat)
    ensures Waiting(wire, c) ==> Waiting(wire + [m], c)
  {
    if Waiting(wire, c) {
      var i :| 0 <= i < |wire| && wire[i].BaselineMsg? && wire[i].cookie == c;
      assert (wire + [m])[i] == wire[i];
    }
  }

  lemma {:induction false} PublishRest(s: Sys, c: nat, cmds: seq<bytes>, writes: seq<bool>)
    requires Rest(s) && c in s.conns && |cmds| == |writes|
    ensures Rest(Publish(s, c, cmds, writes)) && Publish(s, c, cmds, writes).gate == s.gate
    decreases |cmds|
  {
    hide Rest;
    if cmds != [] {
      PublishOneRest(s, c, cmds[0], writes[0]);
      PublishRest(PublishOne(s, c, cmds[0], writes[0]), c, cmds[1..], writes[1..]);
    }
  }

  lemma ParseRest(s: Sys, c: nat, writes: seq<bool>)
    requires Rest(s) && Enabled(s, Parse(c, writes))
    ensures Rest(Next(s, Parse(c, writes))) && Next(s, Parse(c, writes)).gate == s.gate
  {
    hide Rest, Cmds, Tail, Publish;
    PublishRest(s, c, Cmds(Master, s.conns[c].inbuf), writes);
    SameRest(Publish(s, c, Cmds(Master, s.conns[c].inbuf), writes), Next(s, Parse(c, writes)));
  }

  // ---------------------------------------------------------------- steps of the proxy

  /** The gate took an input about connection c and lost no number. */
  lemma GateRest(s: Sys, s1: Sys, c: nat)
    requires Rest(s) && NoDrops(Wire(s1)) && s1.conns == s.conns && s1.base == s.base && s1.log == s.log
    requires (s.gate.faulted ==> s1.gate.faulted) && Touches(s.gate, s1.gate, c)
    requires s1.gate.faulted ||
      forall n: nat :: Known(s1.gate, n) + InWire(Wire(s1), n) == Known(s.gate, n) + InWire(Wire(s), n)
    requires s1.gate.faulted || forall k :: k in s.conns && Waiting(Wire(s), k) ==>
      Waiting(Wire(s1), k) || Serving(s1.gate.ctxs, k)
    ensures Rest(s1)
  {
    hide Known, InWire, Waiting;
    if !s1.gate.faulted {
      forall n: nat ensures Known(s1.gate, n) + InWire(Wire(s1), n) == if Given(s1, n) then 1 else 0 {
        assert Known(s.gate, n) + InWire(Wire(s), n) == if Given(s, n) then 1 else 0;
      }
    }
  }

  lemma RecordRest(s: Sys, ok: Deliver)
    requires Rest(s) && s.ring != []
    ensures var p := s.ring[0];
      Rest(s.(ring := s.ring[1..], gate := OnRecord(ok, s.gate, p.cookie, p.recvSeq, p.payload)))
  {
    hide Rest, Known, InWire, Waiting, Touches, OnRecord;
    var p := s.ring[0];
    var g := OnRecord(ok, s.gate, p.cookie, p.recvSeq, p.payload);
    var s1 := s.(ring := s.ring[1..], gate := g);
    RecordConserves(ok, s.gate, p.cookie, p.recvSeq, p.payload);
    RecordTouches(ok, s.gate, p.cookie, p.recvSeq, p.payload);
    assert Wire(s1) == Wire(s);
    assert NoDrops(Wire(s1)) by { RestDrops(s); }
    GateRest(s, s1, p.cookie);
  }

  lemma RestDrops(s: Sys)
    requires Rest(s)
    ensures NoDrops(Wire(s))
  {
  }

  /** The head of the channel is read. */
  lemma PopRest(s: Sys)
    requires MasterInv(s) && Rest(s) && s.channel != []
    ensures var w1 := Wire(s.(channel := s.channel[1..]));
      && NoDrops(w1) && !s.channel[0].IgnoreMsg? && !s.channel[0].ForgetMsg?
      && forall k :: Waiting(w1, k) <==> Waiting(Wire(s), k) && !(s.channel[0].BaselineMsg? && s.channel[0].cookie == k)
  {
    hide AllKnown, Served, Waiting, ConnInv;
    var w := Wire(s);
    assert w[0] == s.channel[0] && w[1..] == Wire(s.(channel := s.channel[1..]));
    forall m | m in w[1..] ensures !m.IgnoreMsg? && !m.ForgetMsg? { assert m in w; }
    assert w[0] in w;
    forall k ensures Waiting(w[1..], k) <==> Waiting(w, k) && !(w[0].BaselineMsg? && w[0].cookie == k) {
      WaitingPop(w, k);
    }
  }

  lemma NotIgnored(s: Sys, c: nat)
    requires Rest(s) && !s.gate.faulted && c in s.gate.ctxs
    ensures !s.gate.ctxs[c].ignored
  {
    hide AllKnown, NoDrops, Waiting;
  }

  lemma DescRest(s: Sys, ok: Deliver)
    requires MasterInv(s) && Rest(s) && s.channel != [] && s.channel[0].DescMsg? && !s.gate.faulted
    ensures Rest(TakeMsgStep(ok, s))
  {
    hide MasterInv, Rest, Known, InWire, Waiting, Touches, OnDesc, NoDrops;
    var m, s1 := s.channel[0], TakeMsgStep(ok, s);
    PopRest(s);
    if m.cookie in s.gate.ctxs { NotIgnored(s, m.cookie); }
    DescConserves(ok, s.gate, m.cookie, m.desc);
    DescTouches(ok, s.gate, m.cookie, m.desc);
    assert Wire(s1) == Wire(s.(channel := s.channel[1..]));
    forall n: nat | !s1.gate.faulted
      ensures Known(s1.gate, n) + InWire(Wire(s1), n) == Known(s.gate, n) + InWire(Wire(s), n)
    {
      PopInWire(s, n);
    }
    GateRest(s, s1, m.cookie);
  }

  /** A connection whose BASELINE has not been read has no descriptors in the gate. */
  lemma NoDescsYet(s: Sys)
    requires Inv(s) && !s.gate.faulted && s.channel != [] && s.channel[0].BaselineMsg?
    ensures var c := s.channel[0].cookie; c in s.gate.ctxs ==> s.gate.ctxs[c].descs == []
  {
    hide ConnInv, Committed, CommitOrder.GateInv, Cmds, Tail, Consumed, Got, Aligned;
    var m := s.channel[0];
    assert Wire(s)[0] == m && m in Wire(s);
    assert Waiting(Wire(s), m.cookie);
    assert CtxOk(s.gate.ctxs, m.cookie, s.conns[m.cookie].first, Consumed(s, m.cookie), Got(s, m.cookie), true);
  }

  lemma OtherRest(s: Sys, ok: Deliver)
    requires Inv(s) && Rest(s) && s.channel != [] && !s.channel[0].DescMsg? && !s.gate.faulted
    ensures Rest(TakeMsgStep(ok, s))
  {
    assert MasterInv(s);
    hide Inv, MasterInv, Rest, Known, InWire, Waiting, Touches, OnBaseline, OnResume, NoDrops, Serving;
    var m, s1 := s.channel[0], TakeMsgStep(ok, s);
    PopRest(s);
    assert Wire(s1) == Wire(s.(channel := s.channel[1..]));
    forall n: nat ensures InWire(Wire(s1), n) == InWire(Wire(s), n) { PopInWire(s, n); }
    match m {
      case BaselineMsg(c, n) =>
        NoDescsYet(s);
        BaselineConserves(ok, s.gate, c, n);
        BaselineTouches(ok, s.gate, c, n);
        GateRest(s, s1, c);
      case ResumeMsg(marker) =>
        ResumeConserves(ok, s.gate, marker);
        ResumeCtxs(ok, s.gate, marker);
        SameTouches(s.gate, s1.gate, 0);
        GateRest(s, s1, 0);
    }
  }

  lemma ResumeCtxs(ok: Deliver, g: Gate, m: nat)
    ensures OnResume(ok, g, m).ctxs == g.ctxs
  {
  }

  lemma FaultedRest(s: Sys)
    requires s.gate.faulted && NoDrops(Wire(s))
    ensures Rest(s)
  {
  }

  lemma MsgRest(s: Sys, ok: Deliver)
    requires Inv(s) && Rest(s) && s.channel != []
    ensures Rest(TakeMsgStep(ok, s))
  {
    assert MasterInv(s);
    hide Inv, MasterInv, Rest, TakeMsgStep, NoDrops;
    if s.gate.faulted {
      PopRest(s);
      FaultedMsg(s, ok);
      PoppedWire(s, ok);
      FaultedRest(TakeMsgStep(ok, s));
    } else if s.channel[0].DescMsg? {
      DescRest(s, ok);
    } else {
      OtherRest(s, ok);
    }
  }

  lemma PoppedWire(s: Sys, ok: Deliver)
    requires s.channel != []
    ensures Wire(TakeMsgStep(ok, s)) == Wire(s.(channel := s.channel[1..]))
  {
    hide OnDesc, OnBaseline, OnIgnore, OnForget, OnResume;
  }

  // ---------------------------------------------------------------- every run

  lemma StepRest(s: Sys, e: Event)
    requires Inv(s) && Rest(s) && Enabled(s, e) && Stays(e)
    ensures Rest(Next(s, e))
  {
    hide Inv, Rest, OnRecord, TakeMsgStep, ParseStep, Cmds;
    var s1 := Next(s, e);
    match e
    case Open(c, first) => SentRest(s, s1, BaselineMsg(c, first));
    case SendResume(m) => SentRest(s, s1, ResumeMsg(m));
    case Parse(c, writes) => ParseRest(s, c, writes);
    case TakeRecord(ok) => RecordRest(s, ok);
    case TakeMsg(ok) => MsgRest(s, ok);
    case PollEdge(b) => PolledRest(s, OnPoll(s.gate, b));
    case Trouble => PolledRest(s, Fault(s.gate));
    case _ => QuietRest(s, e);
  }

  lemma QuietRest(s: Sys, e: Event)
    requires Rest(s) && Enabled(s, e) && (e.Recv? || e.Flush?)
    ensures Rest(Next(s, e))
  {
    hide Rest;
    assert Wire(Next(s, e)) == Wire(s);
    SameRest(s, Next(s, e));
  }

  lemma PolledRest(s: Sys, g: Gate)
    requires Rest(s) && g.ctxs == s.gate.ctxs && g.ready == s.gate.ready && g.settled == s.gate.settled
    requires g.rec == s.gate.rec && (s.gate.faulted ==> g.faulted)
    ensures Rest(s.(gate := g))
  {
    hide Known, InWire, Waiting, Touches, Rest, NoDrops;
    var s1 := s.(gate := g);
    assert Wire(s1) == Wire(s);
    RestDrops(s);
    SameKnown(s.gate, g);
    SameTouches(s.gate, g, 0);
    GateRest(s, s1, 0);
  }

  lemma StepQuiet(s: Sys, e: Event)
    requires Quiet(s.gate) && Enabled(s, e)
    ensures Quiet(Next(s, e).gate)
  {
    hide Quiet, OnRecord, OnDesc, OnBaseline, OnIgnore, OnForget, OnResume, ParseStep, Cmds;
    match e
    case TakeRecord(ok) => RecordQuiet(ok, s.gate, s.ring[0].cookie, s.ring[0].recvSeq, s.ring[0].payload);
    case TakeMsg(ok) => ApplyQuiet(ok, s.gate, AsInput(s.channel[0]));
    case PollEdge(b) => UntouchedQuiet(s.gate, OnPoll(s.gate, b));
    case Trouble => UntouchedQuiet(s.gate, Fault(s.gate));
    case Parse(c, writes) => ParsedGate(s, c, writes);
    case _ =>
  }

  lemma ParsedGate(s: Sys, c: nat, writes: seq<bool>)
    requires Enabled(s, Parse(c, writes))
    ensures Next(s, Parse(c, writes)).gate == s.gate
  {
    hide Published, Publish, Writes, Batch, Cmds, Tail, Next;
    ParsedNext(s, c, writes);
  }

  lemma {:induction false} RunRest(s: Sys, events: seq<Event>)
    requires Inv(s) && Rest(s) && Quiet(s.gate) && IsRun(s, events) && AllStay(events)
    ensures var t := After(s, events); Inv(t) && Rest(t) && Quiet(t.gate)
    decreases |events|
  {
    hide Inv, Rest, Quiet, Next, Enabled;
    if events != [] {
      assert Stays(events[0]);
      NextInv(s, events[0]);
      StepRest(s, events[0]);
      StepQuiet(s, events[0]);
      RunRest(Next(s, events[0]), events[1..]);
    }
  }

  lemma StartRest(base: nat, buffering: bool)
    ensures var s := Start(base, buffering); Rest(s) && Quiet(s.gate)
  {
    var s := Start(base, buffering);
    assert Wire(s) == [];
    forall n: nat ensures Known(s.gate, n) == 0 {}
  }

  // ---------------------------------------------------------------- everything has been read

  predicate ReadOut(s: Sys) {
    s.ring == [] && s.batch == [] && s.channel == []
  }

  /** All descriptors of a connection have met their commands. */
  lemma AllMatched(s: Sys, c: nat)
    requires Inv(s) && Rest(s) && Quiet(s.gate) && !s.gate.faulted && ReadOut(s) && c in s.gate.ctxs
    ensures s.gate.ctxs[c].descs == []
  {
    hide Committed, CommitOrder.GateInv, Cmds, Tail, AllKnown, CleanRun, Describes;
    assert Wire(s) == [] && !Waiting(Wire(s), c);
    assert c in s.conns && ConnInv(s, c) && Serving(s.gate.ctxs, c);
    var conn, ctx := s.conns[c], s.gate.ctxs[c];
    assert Consumed(s, c) == conn.stream && Got(s, c) == conn.descs;
    assert Aligned(ctx, conn.first, Cmds(Proxy, conn.stream), conn.descs);
    assert Matched(ctx);
    SentFramed(conn, s.base, s.log);
  }

  /** The proxy has framed at least what the master has dispatched. */
  lemma SentFramed(conn: Conn, base: nat, log: seq<bytes>)
    requires ConnOk(conn, base, log)
    ensures |conn.descs| <= |Cmds(Proxy, conn.stream)|
  {
    hide Run, Describes, CleanRun, Cmds, Tail, Calm;
    BothFrame(conn.stream);
    CmdsPrefix(Master, conn.stream[..conn.parsed], conn.stream);
  }

  /** A number that is nowhere but in the ready list or among the accepted. */
  lemma HeldOrAccepted(s: Sys, n: nat)
    requires Inv(s) && Rest(s) && Quiet(s.gate) && !s.gate.faulted && ReadOut(s) && Given(s, n)
    ensures InReady(s.gate.ready, n) + InRecs(Accepted(s.gate), n) == 1
  {
    hide Inv, MasterInv, Served, NoDrops, Quiet, Accepted, InRecs, InReady;
    assert Wire(s) == [];
    assert Known(s.gate, n) + InWire([], n) == 1;
    forall c | c in s.gate.ctxs ensures OfNumber(n)(s.gate.ctxs[c]) == 0 { AllMatched(s, c); }
    MapSumZero(s.gate.ctxs, OfNumber(n));
  }

  lemma {:induction false} NotReady(ready: seq<Cmd>, n: nat)
    requires CommitOrder.InOrder(ready) && (ready != [] ==> n < ready[0].global)
    ensures InReady(ready, n) == 0
  {
    if ready != [] { NotReady(ready[1..], n); }
  }

  lemma {:induction false} NotAmong(a: seq<Rec>, n: nat)
    requires forall i :: 0 <= i < |a| ==> a[i].global != n
    ensures InRecs(a, n) == 0
  {
    if a != [] { NotAmong(a[1..], n); }
  }

  /** Nothing waits for a number that will not come. */
  lemma NothingReady(s: Sys)
    requires Inv(s) && Rest(s) && Quiet(s.gate) && !s.gate.faulted && ReadOut(s)
    ensures s.gate.ready == []
  {
    HealthyParts(s);
    hide Inv, Rest, Accepted;
    var g, a := s.gate, Accepted(s.gate);
    if g.ready != [] {
      assert InLog(g.ready[0].global, g.ready[0].data, s.base, s.log);
      AcceptedLogged(g, s.base, s.log);
      HeldOrAccepted(s, g.nextGlobal);
      NotReady(g.ready, g.nextGlobal);
      NotAmong(a, g.nextGlobal);
    }
  }

  lemma HealthyParts(s: Sys)
    requires Inv(s) && !s.gate.faulted
    ensures Committed(s.gate, s.base, s.log) && CommitOrder.Consecutive(s.gate) && CommitOrder.InOrder(s.gate.ready)
  {
    hide MasterInv, CtxOk, Committed, CommitOrder.Consecutive, CommitOrder.InOrder;
  }

  lemma AcceptedLogged(g: Gate, base: nat, log: seq<bytes>)
    requires Committed(g, base, log)
    ensures forall i :: 0 <= i < |Accepted(g)| ==> InLog(Accepted(g)[i].global, Accepted(g)[i].data, base, log)
  {
    var a := Accepted(g);
    forall i | 0 <= i < |a| ensures InLog(a[i].global, a[i].data, base, log) {
      if i < |g.settled| { assert a[i] == g.settled[i].rec; } else { assert a[i] == g.rec[i - |g.settled|]; }
    }
  }

  /** THE WHOLE LOG.  In every run of master and proxy in which nobody disconnects or turns replica, whatever the
      interleaving: when ring, batch and channel have been read out and the gate has not faulted, the accepted
      writes are the whole log, every write once, in order and byte for byte. */
  lemma WholeLog(base: nat, buffering: bool, events: seq<Event>)
    requires IsRun(Start(base, buffering), events) && AllStay(events)
    ensures var s := After(Start(base, buffering), events);
      !s.gate.faulted && ReadOut(s) ==>
        LogPrefix(Accepted(s.gate), s.base, s.log) && |Accepted(s.gate)| == |s.log|
  {
    hide Inv, Rest, Quiet, Accepted, LogSegment, LogPrefix;
    StartInv(base, buffering);
    StartRest(base, buffering);
    RunRest(Start(base, buffering), events);
    var s := After(Start(base, buffering), events);
    if !s.gate.faulted && ReadOut(s) { AllAccepted(s); }
  }

  lemma AllAccepted(s: Sys)
    requires Inv(s) && Rest(s) && Quiet(s.gate) && !s.gate.faulted && ReadOut(s)
    ensures LogPrefix(Accepted(s.gate), s.base, s.log) && |Accepted(s.gate)| == |s.log|
  {
    hide Inv, Rest, Quiet, Accepted;
    InvAccepts(s);
    NothingReady(s);
    var a := Accepted(s.gate);
    if s.log != [] {
      var first, last := s.base + 1, s.base + |s.log|;
      HeldOrAccepted(s, first);
      HeldOrAccepted(s, last);
      assert exists i :: 0 <= i < |a| && a[i].global == first by {
        if forall i :: 0 <= i < |a| ==> a[i].global != first { NotAmong(a, first); }
      }
      assert exists i :: 0 <= i < |a| && a[i].global == last by {
        if forall i :: 0 <= i < |a| ==> a[i].global != last { NotAmong(a, last); }
      }
    }
  }
}
