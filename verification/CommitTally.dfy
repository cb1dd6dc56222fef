/** Two counts that every run keeps: captured records carry consecutive receive numbers, and a number is
    given to one write only. */
module CommitTally {
  import opened Bytes
  import opened Framer
  import opened FramerAgreement
  import opened CommitGate
  import opened CommitMatch
  import opened CommitSystem
  import opened CommitSafety
  import opened CommitRuns
  import opened CommitFirst
  import opened CommitTheorem
  import opened CommitReactor
  import opened CommitPrefix
  import opened CommitFree

  /** The number of records of a connection that are still in the ring. */
  function Records(ring: seq<Packet>, c: nat): nat {
    if ring == [] then 0 else (if ring[0].cookie == c then 1 else 0) + Records(ring[1..], c)
  }

  lemma {:induction false} RecordsAppend(ring: seq<Packet>, p: Packet, c: nat)
    ensures Records(ring + [p], c) == Records(ring, c) + if p.cookie == c then 1 else 0
  {
    if ring == [] {
      assert [p][1..] == [];
    } else {
      assert (ring + [p])[1..] == ring[1..] + [p];
      RecordsAppend(ring[1..], p, c);
    }
  }

  /** The receive numbers of a connection's records in the ring end with its last receive. */
  ghost predicate RingStamped(s: Sys) {
    forall i :: 0 <= i < |s.ring| ==>
      s.ring[i].cookie in s.conns &&
      s.ring[i].recvSeq + Records(s.ring[i..], s.ring[i].cookie) == s.conns[s.ring[i].cookie].recvs + 1
  }

  /** The gate's last receive number is the one before the next record's. */
  ghost predicate Stamped(ctxs: map<nat, Ctx>, c: nat, left: nat, recvs: nat) {
    c in ctxs && ctxs[c].recvValid ==> ctxs[c].lastRecv + left == recvs
  }

  ghost predicate GateStamped(s: Sys) {
    s.gate.faulted || forall c :: c in s.conns ==> Stamped(s.gate.ctxs, c, Records(s.ring, c), s.conns[c].recvs)
  }

  ghost predicate UniqueOne(s: Sys) {
    forall c, k: nat, d, j: nat :: IsOne(s, c, k) && IsOne(s, d, j) ==> c == d && k == j
  }

  ghost predicate Tally(s: Sys) {
    RingStamped(s) && GateStamped(s) && UniqueOne(s)
  }

  // ---------------------------------------------------------------- the gate's receive numbers

  lemma {:induction false} MatchStamp(ok: Deliver, g: Gate, c: nat)
    requires c in g.ctxs
    ensures var r := TryMatch(ok, g, c);
      r.ctxs[c].lastRecv == g.ctxs[c].lastRecv && r.ctxs[c].recvValid == g.ctxs[c].recvValid
    decreases |g.ctxs[c].cmds|
  {
    hide Matches, Drain, Insert;
    var ctx := g.ctxs[c];
    if ctx.cmds != [] && ctx.descs != [] && Matches(ctx.cmds[0], ctx.descs[0]) {
      MatchStamp(ok, TakePair(ok, g, c), c);
    }
  }

  lemma {:induction false} FrameStamp(ok: Deliver, g: Gate, c: nat, cmds: seq<bytes>)
    requires c in g.ctxs
    ensures var r := FrameAll(ok, g, c, cmds);
      r.ctxs[c].lastRecv == g.ctxs[c].lastRecv && r.ctxs[c].recvValid == g.ctxs[c].recvValid
    decreases |cmds|
  {
    hide TryMatch;
    if cmds != [] {
      MatchStamp(ok, Queue(g, c, cmds[0]), c);
      FrameStamp(ok, FrameOne(ok, g, c, cmds[0]), c, cmds[1..]);
    }
  }

  lemma RecordStamp(ok: Deliver, g: Gate, c: nat, n: nat, p: bytes)
    requires !OnRecord(ok, g, c, n, p).faulted && (c in g.ctxs ==> !g.ctxs[c].ignored)
    ensures var r := OnRecord(ok, g, c, n, p);
      c in r.ctxs && r.ctxs[c].recvValid && r.ctxs[c].lastRecv == n && SameElsewhere(g.ctxs, r.ctxs, c)
  {
    hide OnRecord, TryMatch, FrameAll, Cmds, Tail;
    RecordCases(ok, g, c, n, p);
    RecordElsewhere(ok, g, c, n, p);
    var g1 := WithCtx(g, c);
    var ctx := g1.ctxs[c];
    var g2 := g1.(ctxs := g1.ctxs[c := ctx.(lastRecv := n, recvValid := true, buf := ctx.buf + p)]);
    MatchStamp(ok, g2, c);
    FrameStamp(ok, g2, c, Cmds(Proxy, ctx.buf + p));
  }

  lemma DescStamp(ok: Deliver, g: Gate, c: nat, d: Desc, left: nat, recvs: nat)
    requires Stamped(g.ctxs, c, left, recvs)
    ensures Stamped(OnDesc(ok, g, c, d).ctxs, c, left, recvs) && SameElsewhere(g.ctxs, OnDesc(ok, g, c, d).ctxs, c)
  {
    hide TryMatch;
    DescElsewhere(ok, g, c, d);
    var g1 := WithCtx(g, c);
    MatchStamp(ok, g1.(ctxs := g1.ctxs[c := g1.ctxs[c].(descs := g1.ctxs[c].descs + [d])]), c);
  }

  lemma BaselineStamp(ok: Deliver, g: Gate, c: nat, n: nat, consumed: bytes)
    requires n > 0 && !OnBaseline(ok, g, c, n).faulted
    requires if c in g.ctxs then Untouched(g.ctxs[c], consumed) else consumed == []
    ensures var r := OnBaseline(ok, g, c, n);
      c in r.ctxs && !r.ctxs[c].recvValid && SameElsewhere(g.ctxs, r.ctxs, c)
  {
    hide TryMatch, FrameAll, OnBaseline, SameElsewhere, Cmds, Tail;
    if NoRoom(g, c) { BaselineFull(ok, g, c, n); }
    BaselineCases(ok, g, c, n, consumed);
    BaselineElsewhere(ok, g, c, n, consumed);
    var g1 := WithCtx(g, c);
    var g2 := g1.(ctxs := g1.ctxs[c := Ctx(consumed, true, false, n, 0, false, [], [])]);
    FrameStamp(ok, g2, c, Cmds(Proxy, consumed));
    MatchStamp(ok, FrameCtx(ok, g2, c), c);
  }

  lemma OthersStamped(s: Sys, s1: Sys, c: nat)
    requires GateStamped(s) && !s.gate.faulted && s1.conns == s.conns && s1.ring == s.ring
    requires SameElsewhere(s.gate.ctxs, s1.gate.ctxs, c)
    requires c in s.conns ==> Stamped(s1.gate.ctxs, c, Records(s.ring, c), s.conns[c].recvs)
    ensures GateStamped(s1)
  {
    forall x | x in s1.conns ensures Stamped(s1.gate.ctxs, x, Records(s1.ring, x), s1.conns[x].recvs) {
      assert Stamped(s.gate.ctxs, x, Records(s.ring, x), s.conns[x].recvs);
    }
  }

  /** The head of the channel is read. */
  lemma MsgStamped(s: Sys, plan: Plan, ok: Deliver)
    requires RInv(s, plan) && Free(plan) && GateStamped(s) && s.channel != []
    ensures GateStamped(TakeMsgStep(ok, s))
  {
    hide RInv, Inv, OnBaseline, OnDesc, Stamped, SameElsewhere, Records, Untouched, Consumed, Got, MasterInv;
    var s1 := TakeMsgStep(ok, s);
    assert Inv(s) by { RInvParts(s, plan); }
    MasterPart(s);
    NothingDropping(s, plan);
    if s.gate.faulted {
      ForeverFaulted(s, ok);
    } else if !s1.gate.faulted {
      var m := s.channel[0];
      match m
      case DescMsg(c, d) =>
        HeadCookie(s);
        DescStamp(ok, s.gate, c, d, Records(s.ring, c), s.conns[c].recvs);
        OthersStamped(s, s1, c);
      case BaselineMsg(c, n) =>
        HeadCookie(s);
        BaselineReady(s);
        BaselineStamp(ok, s.gate, c, n, Consumed(s, c));
        NoStamp(s1.gate.ctxs, c, Records(s.ring, c), s.conns[c].recvs);
        OthersStamped(s, s1, c);
      case ResumeMsg(_) => SameStamped(s, s1);
    }
  }

  lemma NoStamp(ctxs: map<nat, Ctx>, c: nat, left: nat, recvs: nat)
    requires c in ctxs && !ctxs[c].recvValid
    ensures Stamped(ctxs, c, left, recvs)
  {
  }

  lemma SameStamped(s: Sys, s1: Sys)
    requires GateStamped(s) && s1.conns == s.conns && s1.ring == s.ring
    requires s1.gate.faulted || (!s.gate.faulted && s1.gate.ctxs == s.gate.ctxs)
    ensures GateStamped(s1)
  {
    hide Stamped, Records;
  }

  /** The head record is read: it carries the number the gate expects. */
  lemma HeadStamp(s: Sys)
    requires RingStamped(s) && GateStamped(s) && !s.gate.faulted && s.ring != []
    ensures var c := s.ring[0].cookie;
      c in s.conns && s.ring[0].recvSeq + Records(s.ring[1..], c) == s.conns[c].recvs
    ensures var c := s.ring[0].cookie;
      c in s.gate.ctxs && s.gate.ctxs[c].recvValid ==> s.ring[0].recvSeq == s.gate.ctxs[c].lastRecv + 1
  {
    assert s.ring[0..] == s.ring;
    assert Stamped(s.gate.ctxs, s.ring[0].cookie, Records(s.ring, s.ring[0].cookie), s.conns[s.ring[0].cookie].recvs);
  }

  lemma NotIgnored(s: Sys, plan: Plan, c: nat)
    requires RInv(s, plan) && Free(plan) && !s.gate.faulted && c in s.conns && c in s.gate.ctxs
    ensures !s.gate.ctxs[c].ignored
  {
    hide Inv, MasterOrder, Begun, Waiting, Got, Consumed, Aligned, Tail, Cmds;
    CtxFacts(s, c);
    assert Served(s, plan, c);
  }

  lemma RecordStamped(s: Sys, plan: Plan, s1: Sys, ok: Deliver)
    requires RInv(s, plan) && Free(plan) && RingStamped(s) && GateStamped(s) && s.ring != []
    requires s1 == s.(ring := s.ring[1..],
                      gate := OnRecord(ok, s.gate, s.ring[0].cookie, s.ring[0].recvSeq, s.ring[0].payload))
    ensures RingStamped(s1) && GateStamped(s1)
  {
    hide RInv, OnRecord, Stamped;
    var c, p := s.ring[0].cookie, s.ring[0];
    forall i | 0 <= i < |s1.ring| ensures s1.ring[i] == s.ring[i + 1] && s1.ring[i..] == s.ring[i + 1..] {}
    if !s.gate.faulted && !s1.gate.faulted {
      HeadStamp(s);
      if c in s.gate.ctxs { NotIgnored(s, plan, c); }
      RecordStamp(ok, s.gate, c, p.recvSeq, p.payload);
      RecordOthers(s, s1, c);
    } else if s.gate.faulted {
      StillFaulted(ok, s.gate, c, p);
    }
  }

  lemma RecordOthers(s: Sys, s1: Sys, c: nat)
    requires GateStamped(s) && !s.gate.faulted && s1.conns == s.conns && s.ring != [] && s1.ring == s.ring[1..]
    requires s.ring[0].cookie == c && c in s.conns && s.ring[0].recvSeq + Records(s1.ring, c) == s.conns[c].recvs
    requires c in s1.gate.ctxs && s1.gate.ctxs[c].recvValid && s1.gate.ctxs[c].lastRecv == s.ring[0].recvSeq
    requires SameElsewhere(s.gate.ctxs, s1.gate.ctxs, c)
    ensures GateStamped(s1)
  {
    forall x | x in s1.conns ensures Stamped(s1.gate.ctxs, x, Records(s1.ring, x), s1.conns[x].recvs) {
      assert Stamped(s.gate.ctxs, x, Records(s.ring, x), s.conns[x].recvs);
    }
  }

  // ---------------------------------------------------------------- every step

  lemma ReceivesTally(s: Sys, s1: Sys, c: nat, p: bytes)
    requires Tally(s) && Receives(s, s1, c, p) && s1.conns[c].recvs == s.conns[c].recvs + 1
    ensures Tally(s1)
  {
    hide Wire;
    var packet := Packet(c, s.conns[c].recvs + 1, p);
    forall i | 0 <= i < |s1.ring|
      ensures s1.ring[i].recvSeq + Records(s1.ring[i..], s1.ring[i].cookie) == s1.conns[s1.ring[i].cookie].recvs + 1
    {
      if i < |s.ring| {
        assert s1.ring[i..] == s.ring[i..] + [packet];
        RecordsAppend(s.ring[i..], packet, s.ring[i].cookie);
      } else {
        assert s1.ring[i..] == [packet];
        RecordsAppend([], packet, c);
        assert [] + [packet] == [packet];
      }
    }
    forall x | x in s1.conns && !s1.gate.faulted
      ensures Stamped(s1.gate.ctxs, x, Records(s1.ring, x), s1.conns[x].recvs)
    {
      RecordsAppend(s.ring, packet, x);
      assert Stamped(s.gate.ctxs, x, Records(s.ring, x), s.conns[x].recvs);
    }
    SameOnes(s, s1);
  }

  lemma SameOnes(s: Sys, s1: Sys)
    requires UniqueOne(s) && s1.base == s.base
    requires forall c :: c in s.conns ==> c in s1.conns && s1.conns[c].descs == s.conns[c].descs
    requires forall c :: c in s1.conns && c !in s.conns ==> s1.conns[c].descs == []
    ensures UniqueOne(s1)
  {
    forall c, k: nat, d, j: nat | IsOne(s1, c, k) && IsOne(s1, d, j) ensures c == d && k == j {
      assert IsOne(s, c, k) && IsOne(s, d, j);
    }
  }

  lemma PublishesTally(s: Sys, s1: Sys, c: nat, ds: seq<Desc>)
    requires Tally(s) && MasterInv(s) && Publishes(s, s1, c, ds)
    ensures Tally(s1)
  {
    hide MasterInv, Wire, Batch, FirstWrite, Records, Stamped;
    forall x, k: nat, d, j: nat | IsOne(s1, x, k) && IsOne(s1, d, j) ensures x == d && k == j {
      NewOne(s, s1, c, ds, x, k);
      NewOne(s, s1, c, ds, d, j);
    }
  }

  /** The first write was published before, or this is its publication. */
  lemma NewOne(s: Sys, s1: Sys, c: nat, ds: seq<Desc>, x: nat, k: nat)
    requires MasterInv(s) && Publishes(s, s1, c, ds) && IsOne(s1, x, k)
    ensures if s.log == [] then x == c && k >= |s.conns[c].descs| && !IsOne(s, x, k) else IsOne(s, x, k)
  {
    hide MasterInv, Wire, Batch, FirstWrite;
    PublishWrites(s, s1, c, ds, x, k);
    if IsWrite(s, x, k) { WriteNumber(s, x, k); }
  }

  lemma SendsTally(s: Sys, s1: Sys, m: Msg)
    requires Tally(s) && Sends(s, s1, m) && (s.gate.faulted || s.gate.ctxs.Keys <= s.conns.Keys)
    ensures Tally(s1)
  {
    hide Wire, Records;
    SameOnes(s, s1);
    forall x | x in s1.conns && !s1.gate.faulted
      ensures Stamped(s1.gate.ctxs, x, Records(s1.ring, x), s1.conns[x].recvs)
    {
      if x in s.conns { assert Stamped(s.gate.ctxs, x, Records(s.ring, x), s.conns[x].recvs); }
    }
  }

  lemma RecvTally(s: Sys, c: nat, p: bytes)
    requires Tally(s) && Enabled(s, Recv(c, p))
    ensures Tally(Next(s, Recv(c, p)))
  {
    hide Tally, CleanRun, Receives;
    RecvReceives(s, c, p);
    ReceivesTally(s, Next(s, Recv(c, p)), c, p);
  }

  lemma ParseTally(s: Sys, c: nat, writes: seq<bool>)
    requires Inv(s) && Tally(s) && Enabled(s, Parse(c, writes))
    ensures Tally(Next(s, Parse(c, writes)))
  {
    hide Tally, Inv, MasterInv, Next, Enabled, Publishes;
    MasterPart(s);
    var ds := ParsePublishes(s, c, writes);
    PublishesTally(s, Next(s, Parse(c, writes)), c, ds);
  }

  lemma RecordTally(s: Sys, plan: Plan, s1: Sys, ok: Deliver)
    requires RInv(s, plan) && Free(plan) && Tally(s) && s.ring != []
    requires s1 == s.(ring := s.ring[1..],
                      gate := OnRecord(ok, s.gate, s.ring[0].cookie, s.ring[0].recvSeq, s.ring[0].payload))
    ensures Tally(s1)
  {
    hide RInv, RingStamped, GateStamped, OnRecord, UniqueOne;
    RecordStamped(s, plan, s1, ok);
    SameOnes(s, s1);
  }

  lemma GateTally(s: Sys, s1: Sys)
    requires Tally(s) && s1 == s.(gate := s1.gate)
    requires s1.gate.faulted || (!s.gate.faulted && s1.gate.ctxs == s.gate.ctxs)
    ensures Tally(s1)
  {
    hide RingStamped, GateStamped, UniqueOne;
    SameStamped(s, s1);
    SameRingStamps(s, s1);
    SameOnes(s, s1);
  }

  lemma SendTally(s: Sys, e: Event)
    requires Inv(s) && Tally(s) && Enabled(s, e) && (e.Open? || e.Flush? || e.SendResume?)
    ensures Tally(Next(s, e))
  {
    hide Tally, Inv, Next, Enabled, Sends;
    SendSends(s, e);
    SameGateSent(s, e);
    if !s.gate.faulted { KnownCtxs(s); }
    SendsTally(s, Next(s, e), Sent(e));
  }

  lemma SameGateSent(s: Sys, e: Event)
    requires Enabled(s, e) && (e.Open? || e.Flush? || e.SendResume?)
    ensures Next(s, e).gate == s.gate
  {
  }

  lemma TallyStep(s: Sys, plan: Plan, e: Event)
    requires RInv(s, plan) && Free(plan) && Tally(s) && Enabled(s, e) && NoDrop(e)
    ensures Tally(Next(s, e))
  {
    assert Inv(s) by { RInvParts(s, plan); }
    hide RInv, Inv, OnRecord, TakeMsgStep, ParseStep, Tally, CleanRun;
    match e
    case Recv(c, p) => RecvTally(s, c, p);
    case Parse(c, writes) => ParseTally(s, c, writes);
    case TakeRecord(ok) => RecordTally(s, plan, Next(s, e), ok);
    case TakeMsg(ok) => MsgTally(s, plan, ok);
    case PollEdge(b) => GateTally(s, Next(s, e));
    case Trouble => GateTally(s, Next(s, e));
    case _ => SendTally(s, e);
  }

  lemma SameRingStamps(s: Sys, s1: Sys)
    requires RingStamped(s) && s1.conns == s.conns && s1.ring == s.ring
    ensures RingStamped(s1)
  {
  }

  lemma MsgTally(s: Sys, plan: Plan, ok: Deliver)
    requires RInv(s, plan) && Free(plan) && Tally(s) && s.channel != []
    ensures Tally(TakeMsgStep(ok, s))
  {
    hide RInv, RingStamped, GateStamped, OnBaseline, OnDesc, OnIgnore, OnForget, OnResume;
    MsgStamped(s, plan, ok);
    SameRingStamps(s, TakeMsgStep(ok, s));
    SameOnes(s, TakeMsgStep(ok, s));
  }
}
