/** Every run of master and proxy keeps the system's invariant; what a proxy that has not faulted has accepted
    is a piece of the committed-write log. */
module CommitTheorem {
  import opened Bytes
  import opened Framer
  import opened FramerAgreement
  import opened CommitGate
  import CommitOrder
  import CommitClosed
  import opened CommitMatch
  import opened CommitSystem
  import opened CommitSafety
  import opened CommitRuns

  // ---------------------------------------------------------------- reading the channel

  /** The head of the channel is read. */
  lemma PopWire(s: Sys, gate: Gate)
    requires MasterInv(s) && s.channel != []
    ensures var s1 := s.(channel := s.channel[1..], gate := gate);
      Wire(s1) == Wire(s)[1..] && MasterInv(s1)
  {
    hide ConnOk, RingBytes;
    var s1 := s.(channel := s.channel[1..], gate := gate);
    var w := Wire(s);
    assert Wire(s1) == w[1..] && w[0] == s.channel[0];
    forall i, j | 0 <= i < j < |w[1..]| && w[1..][j].BaselineMsg? ensures !About(w[1..][i], w[1..][j].cookie) {
      assert w[1..][i] == w[i + 1] && w[1..][j] == w[j + 1];
    }
    assert forall m :: m in w[1..] ==> m in w;
    forall k | k in s1.conns ensures ConnInv(s1, k) {
      assert ConnInv(s, k);
      PopDescs(s, k);
    }
  }

  lemma PopDescs(s: Sys, k: nat)
    requires MasterInv(s) && s.channel != [] && k in s.conns
    ensures var m := s.channel[0];
      var d := if m.DescMsg? && m.cookie == k then [m.desc] else [];
      && IsSuffix(WireDescs(Wire(s)[1..], k), s.conns[k].descs)
      && Front(s.conns[k].descs, WireDescs(Wire(s)[1..], k)) == Got(s, k) + d
      && Got(s, k) + d <= s.conns[k].descs
  {
    hide ConnOk, RingBytes, WireOk;
    assert ConnInv(s, k);
    var m := s.channel[0];
    assert Wire(s)[0] == m;
    SuffixPop(if m.DescMsg? && m.cookie == k then [m.desc] else [], WireDescs(Wire(s)[1..], k), s.conns[k].descs);
  }

  /** A BASELINE at the head was the only one for its connection. */
  lemma WaitingPop(wire: seq<Msg>, k: nat)
    requires wire != [] && BaselineFirst(wire)
    ensures Waiting(wire[1..], k) <==>
      Waiting(wire, k) && !(wire[0].BaselineMsg? && wire[0].cookie == k)
    ensures About(wire[0], k) ==> !Waiting(wire[1..], k)
  {
    if Waiting(wire, k) {
      var i :| 0 <= i < |wire| && wire[i].BaselineMsg? && wire[i].cookie == k;
      if i > 0 { assert wire[1..][i - 1] == wire[i]; }
    }
    if Waiting(wire[1..], k) {
      var i :| 0 <= i < |wire[1..]| && wire[1..][i].BaselineMsg? && wire[1..][i].cookie == k;
      assert wire[i + 1] == wire[1..][i];
    }
  }

  /** Every other connection's view is the same after the head has been read. */
  lemma OthersKeep(s: Sys, gate: Gate)
    requires MasterInv(s) && s.channel != []
    ensures var s1 := s.(channel := s.channel[1..], gate := gate);
      forall k :: k in s.conns && !About(s.channel[0], k) ==> SameView(s, s1, k)
  {
    hide ConnOk, RingBytes, WireDescs, Waiting;
    var s1 := s.(channel := s.channel[1..], gate := gate);
    PopWire(s, gate);
    forall k | k in s.conns && !About(s.channel[0], k) ensures SameView(s, s1, k) {
      PopDescs(s, k);
      WaitingPop(Wire(s), k);
      assert Got(s, k) + [] == Got(s, k);
    }
  }

  lemma DescMsgInv(s: Sys, ok: Deliver)
    requires Inv(s) && s.channel != [] && s.channel[0].DescMsg? && !s.gate.faulted
    ensures Inv(TakeMsgStep(ok, s))
  {
    hide ConnOk, RingBytes, WireDescs, Waiting, CtxOk, Committed, CommitOrder.GateInv, OnDesc, Cmds, Front;
    var m := s.channel[0];
    var c := m.cookie;
    var g := OnDesc(ok, s.gate, c, m.desc);
    var s1 := s.(channel := s.channel[1..], gate := g);
    assert Wire(s)[0] == m;
    PopWire(s, g);
    PopDescs(s, c);
    OthersKeep(s, g);
    WaitingPop(Wire(s), c);
    assert ConnInv(s, c);
    GotPrefix(s, c);
    HonestConn(s.conns[c], Consumed(s, c), Got(s, c) + [m.desc], s.base, s.log);
    DescOk(ok, s.gate, c, m.desc, s.conns[c].first, Consumed(s, c), Got(s, c), s.base, s.log);
    CommitOrder.DescInv(ok, s.gate, c, m.desc);
    OneConn(s, s1, c);
  }

  lemma BaselineMsgInv(s: Sys, ok: Deliver)
    requires Inv(s) && s.channel != [] && s.channel[0].BaselineMsg? && !s.gate.faulted
    ensures Inv(TakeMsgStep(ok, s))
  {
    hide ConnOk, RingBytes, WireDescs, CtxOk, Committed, CommitOrder.GateInv, OnBaseline, Cmds, Front;
    var m := s.channel[0];
    var c := m.cookie;
    var g := OnBaseline(ok, s.gate, c, m.next);
    var s1 := s.(channel := s.channel[1..], gate := g);
    assert Wire(s)[0] == m;
    PopWire(s, g);
    PopDescs(s, c);
    OthersKeep(s, g);
    WaitingPop(Wire(s), c);
    assert ConnInv(s, c);
    FirstPositive(s.conns[c], s.base, s.log);
    WaitingGot(s.gate.ctxs, c, s.conns[c].first, Consumed(s, c), Got(s, c));
    assert Got(s, c) + [] == Got(s, c);
    BaselineOk(ok, s.gate, c, m.next, Consumed(s, c), s.base, s.log);
    CommitOrder.BaselineInv(ok, s.gate, c, m.next);
    OneConn(s, s1, c);
  }

  lemma FirstPositive(conn: Conn, base: nat, log: seq<bytes>)
    requires ConnOk(conn, base, log)
    ensures conn.first > 0
  {
  }

  lemma WaitingGot(ctxs: map<nat, Ctx>, c: nat, first: nat, consumed: bytes, got: seq<Desc>)
    requires CtxOk(ctxs, c, first, consumed, got, true)
    ensures got == []
  {
  }

  lemma DropMsgInv(s: Sys, ok: Deliver)
    requires Inv(s) && s.channel != [] && !s.gate.faulted
    requires s.channel[0].IgnoreMsg? || s.channel[0].ForgetMsg?
    ensures Inv(TakeMsgStep(ok, s))
  {
    hide ConnOk, RingBytes, WireDescs, Waiting, CtxOk, Committed, CommitOrder.GateInv, OnIgnore, OnForget, Front;
    var m := s.channel[0];
    var c := m.cookie;
    var g := if m.IgnoreMsg? then OnIgnore(s.gate, c) else OnForget(s.gate, c);
    var s1 := s.(channel := s.channel[1..], gate := g);
    assert Wire(s)[0] == m;
    PopWire(s, g);
    PopDescs(s, c);
    OthersKeep(s, g);
    WaitingPop(Wire(s), c);
    NotWaiting(s.gate.ctxs, c, s.conns[c].first, Consumed(s, c), Got(s, c), Waiting(Wire(s), c));
    assert Got(s, c) + [] == Got(s, c);
    DropOk(s.gate, c, s.conns[c].first, Consumed(s, c), Got(s, c), s.base, s.log);
    CommitOrder.IgnoreInv(s.gate, c);
    CommitOrder.ForgetInv(s.gate, c);
    OneConn(s, s1, c);
  }

  lemma NotWaiting(ctxs: map<nat, Ctx>, c: nat, first: nat, consumed: bytes, got: seq<Desc>, waiting: bool)
    requires CtxOk(ctxs, c, first, consumed, got, waiting)
    ensures CtxOk(ctxs, c, first, consumed, got, false)
  {
  }

  lemma ResumeMsgInv(s: Sys, ok: Deliver)
    requires Inv(s) && s.channel != [] && s.channel[0].ResumeMsg? && !s.gate.faulted
    ensures Inv(TakeMsgStep(ok, s))
  {
    hide ConnOk, RingBytes, WireDescs, Waiting, CtxOk, Committed, CommitOrder.GateInv, OnResume, Front, WireOk;
    var g := OnResume(ok, s.gate, s.channel[0].marker);
    var s1 := s.(channel := s.channel[1..], gate := g);
    PopWire(s, g);
    OthersKeep(s, g);
    ResumeOk(ok, s.gate, s.channel[0].marker, s.base, s.log);
    CommitOrder.ResumeInv(ok, s.gate, s.channel[0].marker);
  }

  lemma ForeverFaulted(s: Sys, ok: Deliver)
    requires MasterInv(s) && s.channel != [] && s.gate.faulted
    ensures TakeMsgStep(ok, s).gate.faulted
  {
    hide MasterInv, CommitOrder.GateInv;
    match s.channel[0]
    case DescMsg(c, d) =>
    case BaselineMsg(c, n) => CommitClosed.BaselineStays(ok, s.gate, c, n);
    case IgnoreMsg(c) => CommitOrder.ReleaseAllFaulted(WithCtx(s.gate, c), WithCtx(s.gate, c).ctxs[c].cmds);
    case ForgetMsg(c) => if c in s.gate.ctxs { CommitOrder.ReleaseAllFaulted(s.gate, s.gate.ctxs[c].cmds); }
    case ResumeMsg(_) =>
  }

  lemma MsgInv(s: Sys, ok: Deliver)
    requires Inv(s) && Enabled(s, TakeMsg(ok))
    ensures Inv(Next(s, TakeMsg(ok)))
  {
    hide MasterInv, ProxyInv, TakeMsgStep;
    if s.gate.faulted {
      ForeverFaulted(s, ok);
      TakeMsgMaster(s, ok);
    } else {
      match s.channel[0]
      case DescMsg(_, _) => DescMsgInv(s, ok);
      case BaselineMsg(_, _) => BaselineMsgInv(s, ok);
      case IgnoreMsg(_) => DropMsgInv(s, ok);
      case ForgetMsg(_) => DropMsgInv(s, ok);
      case ResumeMsg(_) => ResumeMsgInv(s, ok);
    }
  }

  lemma TakeMsgMaster(s: Sys, ok: Deliver)
    requires MasterInv(s) && s.channel != []
    ensures MasterInv(TakeMsgStep(ok, s))
  {
    hide MasterInv, OnBaseline, OnDesc, OnIgnore, OnForget, OnResume;
    PopWire(s, TakeMsgStep(ok, s).gate);
  }

  // ---------------------------------------------------------------- every run

  lemma GateOnlyInv(s: Sys, g: Gate)
    requires Inv(s)
    requires g == Fault(s.gate) || exists b :: g == OnPoll(s.gate, b)
    ensures Inv(s.(gate := g))
  {
    hide ConnOk, RingBytes, WireDescs, Waiting, WireOk, CtxOk, CommitOrder.GateInv, Committed, ProxyInv;
    var s1 := s.(gate := g);
    assert Wire(s1) == Wire(s);
    forall k | k in s1.conns ensures ConnInv(s1, k) {
      assert ConnInv(s, k);
    }
    if g != Fault(s.gate) {
      var b :| g == OnPoll(s.gate, b);
      if !s.gate.faulted { PolledInv(s, b); }
    }
  }

  lemma PolledInv(s: Sys, b: bool)
    requires ProxyInv(s)
    ensures ProxyInv(s.(gate := OnPoll(s.gate, b)))
  {
    hide RingBytes, WireDescs, Waiting, CtxOk, CommitOrder.GateInv, Committed;
    var s1 := s.(gate := OnPoll(s.gate, b));
    assert Wire(s1) == Wire(s) && s1.gate.ctxs == s.gate.ctxs;
    CommittedSame(s.gate, s1.gate, s.base, s.log);
    CommitOrder.PollInv(s.gate, b);
    forall c | c in s1.conns
      ensures CtxOk(s1.gate.ctxs, c, s1.conns[c].first, Consumed(s1, c), Got(s1, c), Waiting(Wire(s1), c))
    {
      assert CtxOk(s.gate.ctxs, c, s.conns[c].first, Consumed(s, c), Got(s, c), Waiting(Wire(s), c));
    }
  }

  lemma NextInv(s: Sys, e: Event)
    requires Inv(s) && Enabled(s, e)
    ensures Inv(Next(s, e))
  {
    hide Inv, CleanRun, Run, OnPoll;
    match e
    case Open(c, first) => OpenInv(s, c, first);
    case Recv(c, p) => RecvInv(s, c, p);
    case Parse(c, writes) => ParseInv(s, c, writes);
    case Flush => FlushInv(s);
    case Close(c) => SendInv(s, ForgetMsg(c));
    case ToReplica(c) => SendInv(s, IgnoreMsg(c));
    case SendResume(m) => SendInv(s, ResumeMsg(m));
    case TakeRecord(ok) => RecordInv(s, ok);
    case TakeMsg(ok) => MsgInv(s, ok);
    case PollEdge(b) => GateOnlyInv(s, OnPoll(s.gate, b));
    case Trouble => GateOnlyInv(s, Fault(s.gate));
  }

  lemma {:induction false} RunInv(s: Sys, events: seq<Event>)
    requires Inv(s) && IsRun(s, events)
    ensures Inv(After(s, events))
    decreases |events|
  {
    hide Inv, Next, Enabled;
    if events != [] {
      NextInv(s, events[0]);
      RunInv(Next(s, events[0]), events[1..]);
    }
  }

  lemma StartInv(base: nat, buffering: bool)
    ensures Inv(Start(base, buffering))
  {
    hide CommitOrder.GateInv, ConnInv, CtxOk, Committed, WireOk, Waiting, Consumed, Got;
    var s := Start(base, buffering);
    assert Wire(s) == [];
    CommitOrder.EmptyInv(buffering);
    NoneCommitted(s.gate, base);
    NoWire();
  }

  lemma NoneCommitted(g: Gate, base: nat)
    requires g.ready == [] && g.rec == [] && g.settled == []
    ensures Committed(g, base, [])
  {
  }

  lemma NoWire()
    ensures WireOk(map[], [])
  {
  }

  // ---------------------------------------------------------------- what has been accepted

  /** `recs` is, number for number and byte for byte, the piece of the log that starts at `recs[0]`. */
  ghost predicate LogSegment(recs: seq<Rec>, base: nat, log: seq<bytes>) {
    recs != [] ==>
      var k := recs[0].global - base - 1;
      && 0 <= k && k + |recs| <= |log|
      && forall i :: 0 <= i < |recs| ==> recs[i] == Rec(base + 1 + k + i, log[k + i])
  }

  /** `recs` is, number for number and byte for byte, the beginning of the log. */
  ghost predicate LogPrefix(recs: seq<Rec>, base: nat, log: seq<bytes>) {
    |recs| <= |log| && forall i :: 0 <= i < |recs| ==> recs[i] == Rec(base + 1 + i, log[i])
  }

  lemma AcceptedInLog(g: Gate, base: nat, log: seq<bytes>)
    requires Committed(g, base, log) && CommitClosed.Numbered(Accepted(g))
    ensures LogSegment(Accepted(g), base, log)
  {
    var a := Accepted(g);
    forall i | 0 <= i < |a| ensures InLog(a[i].global, a[i].data, base, log) {
      if i < |g.settled| {
        assert a[i] == g.settled[i].rec;
      } else {
        assert a[i] == g.rec[i - |g.settled|];
      }
    }
    if a != [] {
      assert a[|a| - 1].global == a[0].global + (|a| - 1);
    }
  }

  lemma InvAccepts(s: Sys)
    requires Inv(s) && !s.gate.faulted
    ensures LogSegment(Accepted(s.gate), s.base, s.log)
  {
    hide MasterInv, Accepted, LogSegment, Committed;
    AcceptedInLog(s.gate, s.base, s.log);
  }

  /** The piece is a prefix exactly when it starts at the first write of the session. */
  lemma PrefixExact(s: Sys)
    requires Inv(s) && !s.gate.faulted
    ensures LogPrefix(Accepted(s.gate), s.base, s.log)
      <==> (Accepted(s.gate) != [] ==> Accepted(s.gate)[0].global == s.base + 1)
  {
    hide Accepted, Inv;
    InvAccepts(s);
  }
}
