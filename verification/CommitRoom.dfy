/** Within the proxy's limits, no read makes a gate that has accepted nothing yet fault. */
module CommitRoom {
  import opened Bytes
  import opened Framer
  import opened Lists
  import opened Sums
  import opened CommitGate
  import CommitOrder
  import opened CommitMatch
  import opened CommitSystem
  import opened CommitSafety
  import opened CommitRuns
  import opened CommitFirst
  import opened CommitTheorem
  import opened CommitReactor
  import opened CommitPrefix
  import opened CommitFree
  import opened CommitClimb
  import opened CommitTally

  function StreamBytes(conn: Conn): nat {
    |conn.stream|
  }

  /** The session fits: connections, the bytes of each and the bytes of all. */
  ghost predicate Small(s: Sys) {
    && |s.conns| <= MAX_CTX
    && (forall c :: c in s.conns ==> |s.conns[c].stream| <= CTX_BUF_CAP)
    && MapSum(s.conns, StreamBytes) + CTX_BUF_CAP <= MEMORY_MAX
  }

  /** Nothing accepted, nobody dropped. */
  ghost predicate Ready(s: Sys, plan: Plan) {
    RInv(s, plan) && Free(plan) && !s.gate.faulted && Fresh(s.gate) && Tally(s)
  }

  // ---------------------------------------------------------------- bytes

  lemma {:induction false} MapSumLe<V, W>(a: map<nat, V>, v: V -> nat, b: map<nat, W>, w: W -> nat)
    requires a.Keys <= b.Keys && forall k :: k in a ==> v(a[k]) <= w(b[k])
    ensures MapSum(a, v) <= MapSum(b, w)
    decreases |a|
  {
    if a != map[] {
      var k :| k in a;
      MapSumSplit(a, v, k);
      MapSumSplit(b, w, k);
      Smaller(a, k);
      MapSumLe(a - {k}, v, b - {k}, w);
    }
  }

  lemma {:induction false} QueuedBytes(cmds: seq<Cmd>, framed: seq<bytes>)
    requires |cmds| <= |framed| && forall i :: 0 <= i < |cmds| ==> cmds[i].data == framed[|framed| - |cmds| + i]
    ensures DataBytes(cmds) <= |Flatten(framed)|
    decreases |framed|
  {
    if framed != [] {
      if |cmds| == |framed| {
        QueuedBytes(cmds[1..], framed[1..]);
      } else {
        QueuedBytes(cmds, framed[1..]);
      }
    }
  }

  lemma CtxBytesBound(s: Sys, c: nat)
    requires Inv(s) && !s.gate.faulted && c in s.gate.ctxs && c in s.conns
    ensures CommitOrder.CtxBytes(s.gate.ctxs[c]) <= |s.conns[c].stream|
    ensures Baselined(s.gate, c) ==>
      CommitOrder.CtxBytes(s.gate.ctxs[c]) + |s.gate.ctxs[c].buf| <= |Consumed(s, c)|
    ensures !Baselined(s.gate, c) ==> CommitOrder.CtxBytes(s.gate.ctxs[c]) == 0
  {
    hide Inv, Run, Waiting, Wire, Got, Consumed, Flatten;
    GotLePart(s, c);
    CtxFacts(s, c);
    if Baselined(s.gate, c) {
      RunBytes(Proxy, Consumed(s, c), 0);
      QueuedBytes(s.gate.ctxs[c].cmds, Cmds(Proxy, Consumed(s, c)));
    } else {
      NoCmds(s, c);
    }
  }

  lemma NoCmds(s: Sys, c: nat)
    requires Inv(s) && !s.gate.faulted && c in s.gate.ctxs && c in s.conns && !s.gate.ctxs[c].baseline
    ensures s.gate.ctxs[c].cmds == []
  {
    hide MasterInv, Cmds, Tail, Aligned, Committed, CommitOrder.GateInv, Consumed, Got, Waiting;
    assert CtxOk(s.gate.ctxs, c, s.conns[c].first, Consumed(s, c), Got(s, c), Waiting(Wire(s), c));
  }

  lemma LoadBound(s: Sys)
    requires Inv(s) && !s.gate.faulted && Fresh(s.gate)
    ensures Load(s.gate) <= MapSum(s.conns, StreamBytes)
  {
    hide Inv, MapSum, CommitOrder.CtxBytes, CommitOrder.Consecutive, CommitOrder.NoneEmpty, CommitOrder.InOrder;
    GateInvPart(s);
    KnownCtxs(s);
    forall c | c in s.gate.ctxs ensures CommitOrder.CtxBytes(s.gate.ctxs[c]) <= StreamBytes(s.conns[c]) {
      CtxBytesBound(s, c);
    }
    MapSumLe(s.gate.ctxs, CommitOrder.CtxBytes, s.conns, StreamBytes);
  }

  /** Without the commands a connection has queued, what is counted leaves room for its whole stream. */
  lemma LoadBeside(s: Sys, c: nat)
    requires Inv(s) && !s.gate.faulted && Fresh(s.gate) && c in s.conns
    ensures var n := if c in s.gate.ctxs then CommitOrder.CtxBytes(s.gate.ctxs[c]) else 0;
      Load(s.gate) - n + |s.conns[c].stream| <= MapSum(s.conns, StreamBytes)
  {
    hide Inv, MapSum, CommitOrder.CtxBytes, CommitOrder.Consecutive, CommitOrder.NoneEmpty, CommitOrder.InOrder;
    GateInvPart(s);
    KnownCtxs(s);
    var a, b := s.gate.ctxs - {c}, s.conns - {c};
    forall k | k in a ensures CommitOrder.CtxBytes(a[k]) <= StreamBytes(b[k]) { CtxBytesBound(s, k); }
    MapSumLe(a, CommitOrder.CtxBytes, b, StreamBytes);
    MapSumSplit(s.conns, StreamBytes, c);
    if c in s.gate.ctxs {
      MapSumSplit(s.gate.ctxs, CommitOrder.CtxBytes, c);
    } else {
      assert a == s.gate.ctxs;
    }
  }

  lemma SlimStream(s: bytes)
    requires |s| <= CTX_BUF_CAP
    ensures Slim(Cmds(Proxy, s))
  {
    RunBytes(Proxy, s, 0);
  }

  lemma HasRoom(s: Sys, c: nat)
    requires Inv(s) && !s.gate.faulted && c in s.conns && |s.conns| <= MAX_CTX
    ensures !NoRoom(s.gate, c)
  {
    hide Inv;
    KnownCtxs(s);
    if c !in s.gate.ctxs {
      var rest := s.conns.Keys - {c};
      SubsetSize(s.gate.ctxs.Keys, rest);
      assert |rest| == |s.conns.Keys| - 1;
    }
  }

  // ---------------------------------------------------------------- numbers

  /** What a connection's descriptors announce, in a gate that has no start yet. */
  lemma SliceClimbs(s: Sys, plan: Plan, g: Gate, c: nat, m: nat, n: nat)
    requires RInv(s, plan) && c in s.conns && m <= n <= |s.conns[c].descs| && g.ready == [] && g.nextGlobal == 0
    ensures Climbs(g, s.conns[c].descs[m..n])
  {
    hide Inv, DescOrder, RingOrder, BusyOk, ClosedOk, GateOrder, MasterInv;
    MasterPart(s);
    var ds := s.conns[c].descs[m..n];
    assert Rising(s.conns[c].descs);
    forall k | 0 <= k < |ds| && ds[k].write ensures 0 < ds[k].global {
      assert ds[k] == s.conns[c].descs[m + k];
      assert IsWrite(s, c, m + k);
      WriteNumber(s, c, m + k);
    }
    forall j, k | 0 <= j < k < |ds| && ds[j].write && ds[k].write ensures ds[j].global < ds[k].global {
      assert ds[j] == s.conns[c].descs[m + j] && ds[k] == s.conns[c].descs[m + k];
    }
  }

  lemma HonestHere(s: Sys, c: nat, consumed: bytes, got: seq<Desc>)
    requires Inv(s) && c in s.conns && consumed <= s.conns[c].stream && got <= s.conns[c].descs
    ensures Honest(s.conns[c].first, Cmds(Proxy, consumed), got, s.base, s.log)
  {
    hide MasterInv, ProxyInv, Cmds, Honest;
    MasterPart(s);
    ConnHere(s, c);
    HonestConn(s.conns[c], consumed, got, s.base, s.log);
  }

  lemma ConnHere(s: Sys, c: nat)
    requires MasterInv(s) && c in s.conns
    ensures ConnOk(s.conns[c], s.base, s.log)
  {
    hide ConnOk, WireOk, RingBytes, WireDescs;
    assert ConnInv(s, c);
  }

  lemma CommittedHere(s: Sys)
    requires Inv(s) && !s.gate.faulted
    ensures Committed(s.gate, s.base, s.log)
  {
    hide MasterInv, CommitOrder.GateInv, Committed, CtxOk;
  }

  // ---------------------------------------------------------------- records

  lemma RecordRoom(s: Sys, plan: Plan)
    requires Ready(s, plan) && Small(s) && s.ring != []
    ensures !OnRecord(ALWAYS, s.gate, s.ring[0].cookie, s.ring[0].recvSeq, s.ring[0].payload).faulted
  {
    hide RInv, Inv, FrameCtx, MapSum, Consumed, Got, Tail;
    hide Cmds, Aligned, MasterInv, Waiting, RingStamped, GateStamped, UniqueOne;
    assert Inv(s) by { RInvParts(s, plan); }
    var c, p := s.ring[0].cookie, s.ring[0];
    HeadStamp(s);
    HasRoom(s, c);
    BufferFits(s, plan);
    if Baselined(s.gate, c) {
      MatchedRoom(s, plan);
    }
    if c in s.gate.ctxs {
      NotIgnored(s, plan, c);
      if !Baselined(s.gate, c) { NoCmds(s, c); }
    }
  }

  lemma BufferFits(s: Sys, plan: Plan)
    requires RInv(s, plan) && !s.gate.faulted && Free(plan) && s.ring != [] && s.ring[0].cookie in s.conns
    ensures var c := s.ring[0].cookie;
      (if c in s.gate.ctxs then |s.gate.ctxs[c].buf| else 0) + |s.ring[0].payload| <= |s.conns[c].stream|
    ensures Consumed(s, s.ring[0].cookie) + s.ring[0].payload <= s.conns[s.ring[0].cookie].stream
  {
    hide Inv, MasterOrder, Begun, Waiting, Got, Consumed, Aligned, Run, MasterInv;
    var c := s.ring[0].cookie;
    MasterPart(s);
    PopRing(s, s.gate, c);
    if c in s.gate.ctxs {
      CtxFacts(s, c);
      assert Served(s, plan, c);
      RunTailShort(Consumed(s, c));
    }
  }

  lemma RunTailShort(s: bytes)
    ensures |Tail(Proxy, s)| <= |s|
  {
  }

  lemma MatchedRoom(s: Sys, plan: Plan)
    requires Ready(s, plan) && Small(s) && s.ring != []
    requires s.ring[0].cookie in s.conns && Baselined(s.gate, s.ring[0].cookie)
    ensures var c, p := s.ring[0].cookie, s.ring[0];
      var ctx := s.gate.ctxs[c];
      var ctx1 := ctx.(lastRecv := p.recvSeq, recvValid := true, buf := ctx.buf + p.payload);
      !FrameCtx(ALWAYS, s.gate.(ctxs := s.gate.ctxs[c := ctx1]), c).faulted
  {
    hide RInv, Inv, FrameCtx, MapSum, Consumed, Got, Tail;
    hide Cmds, Honest, Tally, Waiting, Committed, CommitOrder.GateInv, Climbs;
    assert Inv(s) by { RInvParts(s, plan); }
    var c, p := s.ring[0].cookie, s.ring[0];
    var ctx, conn := s.gate.ctxs[c], s.conns[c];
    var ctx1 := ctx.(lastRecv := p.recvSeq, recvValid := true, buf := ctx.buf + p.payload);
    var g2 := s.gate.(ctxs := s.gate.ctxs[c := ctx1]);
    CtxFacts(s, c);
    GotLePart(s, c);
    BufferFits(s, plan);
    CtxBytesBound(s, c);
    LoadBeside(s, c);
    SlimStream(Consumed(s, c) + p.payload);
    CommitOrder.SwapCtx(s.gate, c, g2.ctxs[c]);
    CommittedHere(s);
    CommittedSame(s.gate, g2, s.base, s.log);
    ProxyChunk(Consumed(s, c), p.payload);
    HonestHere(s, c, Consumed(s, c) + p.payload, Got(s, c));
    AlignedBuf(ctx, g2.ctxs[c], conn.first, Cmds(Proxy, Consumed(s, c)), Got(s, c));
    var m := |Cmds(Proxy, Consumed(s, c))| - |ctx.cmds|;
    assert ctx.descs == conn.descs[m..|Got(s, c)|];
    SliceClimbs(s, plan, g2, c, m, |Got(s, c)|);
    hide Aligned;
    FrameCtxClimbs(g2, c, conn.first, Cmds(Proxy, Consumed(s, c)), Got(s, c), s.base, s.log);
  }

  // ---------------------------------------------------------------- messages

  lemma DescRoom(s: Sys, plan: Plan)
    requires Ready(s, plan) && Small(s) && s.channel != [] && s.channel[0].DescMsg?
    ensures !OnDesc(ALWAYS, s.gate, s.channel[0].cookie, s.channel[0].desc).faulted
  {
    hide RInv, Inv, MapSum, Consumed, Got, Tail, Cmds, Honest, Tally, Waiting, CommitOrder.GateInv, Climbs;
    hide TryMatch, MasterInv, Front, Running;
    assert Inv(s) by { RInvParts(s, plan); }
    var c, d := s.channel[0].cookie, s.channel[0].desc;
    MasterPart(s);
    HeadCookie(s);
    IsRunning(s, plan);
    DescServed(s, plan);
    CtxFacts(s, c);
    GotLePart(s, c);
    PopDescs(s, c);
    LoadBound(s);
    SlimStream(Consumed(s, c));
    var ctx, conn, framed := s.gate.ctxs[c], s.conns[c], Cmds(Proxy, Consumed(s, c));
    var g2 := s.gate.(ctxs := s.gate.ctxs[c := ctx.(descs := ctx.descs + [d])]);
    CommitOrder.SwapCtx(s.gate, c, g2.ctxs[c]);
    AlignedDesc(ctx, conn.first, framed, Got(s, c), d);
    HonestHere(s, c, Consumed(s, c), Got(s, c) + [d]);
    var m := |framed| - |ctx.cmds|;
    assert ctx.descs + [d] == (Got(s, c) + [d])[m..] == conn.descs[m..|Got(s, c)| + 1];
    SliceClimbs(s, plan, g2, c, m, |Got(s, c)| + 1);
    hide Aligned;
    MatchClimbs(g2, c, conn.first, framed, Got(s, c) + [d], s.base, s.log);
  }

  lemma BaselineRoom(s: Sys, plan: Plan)
    requires Ready(s, plan) && Small(s) && s.channel != [] && s.channel[0].BaselineMsg?
    ensures !OnBaseline(ALWAYS, s.gate, s.channel[0].cookie, s.channel[0].next).faulted
  {
    hide RInv, Inv, MapSum, Consumed, Got, Cmds, Tally, Waiting, CommitOrder.GateInv, Climbs, Honest;
    hide TryMatch, FrameCtx, MasterInv, OnBaseline, Committed;
    assert Inv(s) by { RInvParts(s, plan); }
    var c, n := s.channel[0].cookie, s.channel[0].next;
    MasterPart(s);
    HeadCookie(s);
    HasRoom(s, c);
    BaselineReady(s);
    GotLePart(s, c);
    GateInvPart(s);
    LoadBeside(s, c);
    if c in s.gate.ctxs { CtxBytesBound(s, c); }
    var consumed := Consumed(s, c);
    SlimStream(consumed);
    BaselineCases(ALWAYS, s.gate, c, n, consumed);
    var g1 := WithCtx(s.gate, c);
    CommitOrder.WithCtxInv(s.gate, c);
    var g2 := g1.(ctxs := g1.ctxs[c := Ctx(consumed, true, false, n, 0, false, [], [])]);
    CommitOrder.SwapCtx(g1, c, g2.ctxs[c]);
    CommittedHere(s);
    CommittedSame(s.gate, g2, s.base, s.log);
    FreshBaseline(g2, c, n, consumed, s.base, s.log);
  }

  /** A context that has just met its BASELINE has no descriptors to match. */
  lemma FreshBaseline(g: Gate, c: nat, first: nat, consumed: bytes, base: nat, log: seq<bytes>)
    requires CommitOrder.GateInv(g) && !g.faulted && Committed(g, base, log) && g.ready == []
    requires c in g.ctxs && g.ctxs[c] == Ctx(consumed, true, false, first, 0, false, [], [])
    requires Load(g) + |consumed| + CTX_BUF_CAP <= MEMORY_MAX && Slim(Cmds(Proxy, consumed))
    ensures !TryMatch(ALWAYS, FrameCtx(ALWAYS, g, c), c).faulted
  {
    hide CommitOrder.GateInv, TryMatch, FrameCtx, Cmds, Committed;
    assert [] + Cmds(Proxy, consumed) == Cmds(Proxy, consumed);
    StartAligned(g.ctxs[c], first);
    FrameCtxClimbs(g, c, first, [], [], base, log);
    FrameCtxOk(ALWAYS, g, c, first, [], [], base, log);
    MatchClimbs(FrameCtx(ALWAYS, g, c), c, first, Cmds(Proxy, consumed), [], base, log);
  }

  lemma MsgRoom(s: Sys, plan: Plan)
    requires Ready(s, plan) && Small(s) && s.channel != []
    ensures !TakeMsgStep(ALWAYS, s).gate.faulted
  {
    hide RInv, Small, OnBaseline, OnDesc, Tally;
    NothingDropping(s, plan);
    match s.channel[0]
    case DescMsg(_, _) => DescRoom(s, plan);
    case BaselineMsg(_, _) => BaselineRoom(s, plan);
    case ResumeMsg(_) =>
  }
}
