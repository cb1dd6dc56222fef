/** Proxy steps under the event loop's discipline, and the prefix theorem. */
module CommitPrefix {
  import opened Bytes
  import opened Framer
  import opened FramerAgreement
  import opened CommitGate
  import CommitOrder
  import opened CommitMatch
  import opened CommitSystem
  import opened CommitSafety
  import opened CommitRuns
  import opened CommitHistory
  import opened CommitFirst
  import opened CommitTheorem
  import opened CommitReactor

  // ---------------------------------------------------------------- master side

  lemma PopRingOrder(s: Sys, s1: Sys)
    requires RingOrder(s) && s.ring != [] && s1 == s.(ring := s.ring[1..], gate := s1.gate)
    ensures RingOrder(s1)
  {
    hide Cmds, RingBytes;
    forall i: nat, x, k: nat, c1, k1: nat | IsWrite(s1, x, k) && FramedAt(s1, i, x, k) && IsOne(s1, c1, k1)
      ensures FramedAt(s1, i, c1, k1)
    {
      assert s1.ring[i..] == s.ring[i + 1..];
      assert IsWrite(s, x, k) && FramedAt(s, i + 1, x, k) && IsOne(s, c1, k1);
      assert FramedAt(s, i + 1, c1, k1);
    }
  }

  lemma PopRingMaster(s: Sys, plan: Plan, s1: Sys)
    requires MasterInv(s) && MasterOrder(s, plan) && s.ring != [] && s1 == s.(ring := s.ring[1..], gate := s1.gate)
    ensures MasterOrder(s1, plan)
  {
    hide ConnOk, Rising, RingOrder, WireDescs, Waiting, WireFirst, MasterInv;
    if plan.mode != Any { PopRingOrder(s, s1); }
    assert Wire(s1) == Wire(s);
    ReGot(s, s1);
    InsertDescs(s, s1, ResumeMsg(0));
    forall c | c in plan.dropped ensures Done(s1, c) {
      assert Done(s, c);
    }
  }

  lemma ReGot(s: Sys, s1: Sys)
    requires MasterInv(s) && s1.conns == s.conns && Wire(s1) == Wire(s) && s1.base == s.base
    ensures SameGot(s, s1)
  {
    hide MasterInv, WireDescs;
    forall c | c in s.conns ensures Got(s1, c) == Got(s, c) && Got(s, c) <= s.conns[c].descs {
      GotLe(s, c);
    }
  }

  lemma PopWireMaster(s: Sys, plan: Plan, s1: Sys, plan1: Plan)
    requires MasterInv(s) && MasterOrder(s, plan) && s.channel != []
    requires plan1 == plan || (Dropping(s.channel[0]) && Done(s, s.channel[0].cookie) &&
                               plan1 == plan.(dropped := plan.dropped + {s.channel[0].cookie}))
    requires s1 == s.(channel := s.channel[1..], gate := s1.gate)
    ensures MasterOrder(s1, plan1)
  {
    hide ConnOk, Rising, RingBytes, WireFirst, MasterInv, DescOrder, WireDescs, RingOrder;
    assert Wire(s1) == Wire(s)[1..] && Wire(s)[0] == s.channel[0];
    PopDescOrder(s, s1);
    if plan.mode != Any { SameRing(s, s1); }
    WireOkPart(s);
    forall c | c in plan1.dropped ensures Done(s1, c) {
      assert Done(s, c);
      StillDone(s, s1, c);
    }
  }

  lemma SameRing(s: Sys, s1: Sys)
    requires RingOrder(s) && s1.conns == s.conns && s1.ring == s.ring && s1.base == s.base
    ensures RingOrder(s1)
  {
    hide Cmds, RingBytes;
    forall i: nat, x, k: nat, c1, k1: nat | IsWrite(s1, x, k) && FramedAt(s1, i, x, k) && IsOne(s1, c1, k1)
      ensures FramedAt(s1, i, c1, k1)
    {
      assert IsWrite(s, x, k) && FramedAt(s, i, x, k) && IsOne(s, c1, k1);
      assert FramedAt(s, i, c1, k1);
    }
  }

  lemma StillDone(s: Sys, s1: Sys, c: nat)
    requires Done(s, c) && s1.ring == s.ring && Wire(s) != [] && Wire(s1) == Wire(s)[1..] && WireOk(s.conns, Wire(s))
    ensures Done(s1, c)
  {
    hide RingBytes;
    WaitingPop(Wire(s), c);
  }

  // ---------------------------------------------------------------- what a framed write proves

  /** The gate's facts about one connection. */
  lemma CtxFacts(s: Sys, c: nat)
    requires Inv(s) && !s.gate.faulted && c in s.conns
    ensures Waiting(Wire(s), c) ==> Got(s, c) == [] && !Baselined(s.gate, c)
    ensures Baselined(s.gate, c) ==>
      !s.gate.ctxs[c].ignored && s.gate.ctxs[c].buf == Tail(Proxy, Consumed(s, c)) &&
      Aligned(s.gate.ctxs[c], s.conns[c].first, Cmds(Proxy, Consumed(s, c)), Got(s, c))
    ensures c in s.gate.ctxs && Waiting(Wire(s), c) ==> Untouched(s.gate.ctxs[c], Consumed(s, c))
    ensures CommitOrder.GateInv(s.gate)
  {
    hide MasterInv, Cmds, Tail, Aligned, Committed, CommitOrder.GateInv, Consumed, Got, Waiting;
    assert CtxOk(s.gate.ctxs, c, s.conns[c].first, Consumed(s, c), Got(s, c), Waiting(Wire(s), c));
  }

  /** While the gate is fresh, no write has both its record and its descriptor read. */
  lemma NotBoth(s: Sys, plan: Plan, c: nat, k: nat)
    requires Inv(s) && !s.gate.faulted && GateOrder(s, plan) && Fresh(s.gate)
    requires IsWrite(s, c, k) && k < |Got(s, c)|
    ensures |Cmds(Proxy, Consumed(s, c))| <= k
    ensures Baselined(s.gate, c)
  {
    hide Inv, Cmds, Consumed, Waiting;
    CtxFacts(s, c);
    assert Served(s, plan, c);
    assert !Waiting(Wire(s), c);
    assert Baselined(s.gate, c);
    GotLePart(s, c);
    assert Got(s, c)[k].write;
    assert Accepted(s.gate) == [];
    assert Quiet(s.gate.ctxs[c], Got(s, c)) && Greedy(s.gate.ctxs[c]);
  }

  lemma GotLePart(s: Sys, c: nat)
    requires Inv(s) && c in s.conns
    ensures Got(s, c) <= s.conns[c].descs && Consumed(s, c) <= s.conns[c].stream
  {
    hide MasterInv;
    MasterPart(s);
    GotPrefix(s, c);
  }

  /** The first write of a connection the gate can match when one of its writes is framed and announced. */
  lemma LeadingWrite(s: Sys, plan: Plan, c: nat, k: nat, n: nat)
    requires Inv(s) && MasterOrder(s, plan) && !s.gate.faulted && GateOrder(s, plan) && Fresh(s.gate)
    requires IsWrite(s, c, k) && IsOne(s, c, n) && n < |Got(s, c)| && k <= n
    ensures s.conns[c].descs[k].global == s.base + 1
  {
    hide Inv, GateOrder, RingOrder, DescOrder, ClosedOk, BusyOk;
    MasterPart(s);
    WriteNumber(s, c, k);
    assert Rising(s.conns[c].descs);
  }

  /** The head record makes the connection match no other write than the first. */
  lemma RecordLeads(s: Sys, plan: Plan, n: nat)
    requires Inv(s) && MasterOrder(s, plan) && !s.gate.faulted && GateOrder(s, plan) && Fresh(s.gate)
    requires plan.mode != Any
    requires s.ring != [] && Baselined(s.gate, s.ring[0].cookie) && s.ring[0].cookie in s.conns
    requires var c := s.ring[0].cookie;
      |Cmds(Proxy, Consumed(s, c))| + n == |Cmds(Proxy, Consumed(s, c) + s.ring[0].payload)|
    ensures Leads(s.gate.ctxs[s.ring[0].cookie], n, s.base + 1)
  {
    hide Inv, Cmds, RingBytes, Waiting, GateOrder, Wire, ConnsOrdered, BusyOk, ClosedOk, Got, Consumed;
    var c := s.ring[0].cookie;
    var ctx := s.gate.ctxs[c];
    CtxFacts(s, c);
    GotLePart(s, c);
    var framed := |Cmds(Proxy, Consumed(s, c))|;
    var m, f := framed - |ctx.cmds|, FirstWrite(ctx.descs);
    if f < |ctx.descs| && f < |ctx.cmds| + n {
      var k := m + f;
      assert Got(s, c)[k] == ctx.descs[f];
      ReadOne(s, c);
      assert FramedAt(s, 1, c, k);
      var k1 := FirstIsHere(s, plan, k);
      LaterThan(s, plan, c, k1, f);
      LeadingWrite(s, plan, c, k, k1);
    }
  }

  /** If the head record completes an announced write, it belongs to the connection of the first write. */
  lemma FirstIsHere(s: Sys, plan: Plan, k: nat) returns (k1: nat)
    requires Inv(s) && MasterOrder(s, plan) && !s.gate.faulted && GateOrder(s, plan) && Fresh(s.gate)
    requires s.ring != [] && IsWrite(s, s.ring[0].cookie, k) && k < |Got(s, s.ring[0].cookie)| && plan.mode != Any
    requires FramedAt(s, 1, s.ring[0].cookie, k)
    ensures IsOne(s, s.ring[0].cookie, k1) && k1 < |Got(s, s.ring[0].cookie)|
  {
    hide Inv, Cmds, RingBytes, GateOrder, Wire, ConnsOrdered, BusyOk, ClosedOk, Got, Consumed, ReadAt;
    assert GotOne(s);
    var c1, n: nat :| IsOne(s, c1, n) && n < |Got(s, c1)|;
    k1 := n;
    assert FramedAt(s, 1, c1, k1);
    ReadOne(s, c1);
    NotBoth(s, plan, c1, k1);
  }

  /** A write of the connection that was got is at or after the first unmatched one. */
  lemma LaterThan(s: Sys, plan: Plan, c: nat, k1: nat, f: nat)
    requires Inv(s) && !s.gate.faulted && GateOrder(s, plan) && Fresh(s.gate) && Baselined(s.gate, c)
    requires IsWrite(s, c, k1) && k1 < |Got(s, c)| && f == FirstWrite(s.gate.ctxs[c].descs)
    ensures |Cmds(Proxy, Consumed(s, c))| - |s.gate.ctxs[c].cmds| + f <= k1
  {
    hide Inv, Cmds, Waiting, Wire, Got, Consumed;
    var ctx := s.gate.ctxs[c];
    CtxFacts(s, c);
    GotLePart(s, c);
    assert Accepted(s.gate) == [];
    assert Quiet(ctx, Got(s, c));
    var m := |Cmds(Proxy, Consumed(s, c))| - |ctx.cmds|;
    assert Got(s, c)[k1].write;
    assert k1 >= m;
    assert ctx.descs[k1 - m] == Got(s, c)[k1];
  }

  /** What the proxy will have read when the head record is read. */
  lemma ReadOne(s: Sys, x: nat)
    requires Inv(s) && s.ring != [] && x in s.conns
    ensures ReadAt(s, 1, x) == if s.ring[0].cookie == x then Consumed(s, x) + s.ring[0].payload else Consumed(s, x)
    ensures ReadAt(s, 0, x) == Consumed(s, x)
  {
    hide MasterInv, ProxyInv, Wire, Got;
    MasterPart(s);
    PopRing(s, s.gate, x);
    assert s.ring[0..] == s.ring;
    assert Consumed(s, x) + [] == Consumed(s, x);
  }

  // ---------------------------------------------------------------- one gate step

  lemma {:induction false} MatchGreedy(ok: Deliver, g: Gate, c: nat)
    requires c in g.ctxs && !TryMatch(ok, g, c).faulted
    ensures Greedy(TryMatch(ok, g, c).ctxs[c])
    ensures TryMatch(ok, g, c).ctxs[c].baseline == g.ctxs[c].baseline
    decreases |g.ctxs[c].cmds|
  {
    hide Matches, Drain, Insert;
    var ctx := g.ctxs[c];
    if ctx.cmds != [] && ctx.descs != [] {
      MatchGreedy(ok, TakePair(ok, g, c), c);
    }
  }

  lemma {:induction false} FrameAllGreedy(ok: Deliver, g: Gate, c: nat, cmds: seq<bytes>)
    requires c in g.ctxs && Greedy(g.ctxs[c]) && !FrameAll(ok, g, c, cmds).faulted
    ensures Greedy(FrameAll(ok, g, c, cmds).ctxs[c])
    ensures FrameAll(ok, g, c, cmds).ctxs[c].baseline == g.ctxs[c].baseline
    decreases |cmds|
  {
    hide TryMatch, Greedy;
    if cmds != [] {
      var g1 := FrameOne(ok, g, c, cmds[0]);
      if g1.faulted { CommitOrder.FrameFaulted(ok, g1, c, cmds[1..]); }
      MatchGreedy(ok, Queue(g, c, cmds[0]), c);
      FrameAllGreedy(ok, g1, c, cmds[1..]);
    }
  }

  /** A gate step for one connection: a start is kept or is the first write; otherwise only SKIPs
      were matched. */
  ghost predicate StepsWell(g: Gate, ctx: Ctx, r: Gate, c: nat, first: nat) {
    && c in r.ctxs && r.ctxs[c].baseline && Greedy(r.ctxs[c])
    && (Started(r, first) || (Fresh(g) && Fresh(r) && SkippedTo(ctx.descs, r.ctxs[c].descs)))
  }

  lemma FrameCtxSteps(ok: Deliver, g: Gate, c: nat, first: nat)
    requires CommitOrder.GateInv(g) && c in g.ctxs && g.ctxs[c].baseline && Greedy(g.ctxs[c]) && first > 0
    requires !FrameCtx(ok, g, c).faulted
    requires Started(g, first) || (Fresh(g) && Leads(g.ctxs[c], |Cmds(Proxy, g.ctxs[c].buf)|, first))
    ensures StepsWell(g, g.ctxs[c], FrameCtx(ok, g, c), c, first)
  {
    var buf := g.ctxs[c].buf;
    var cmds := Cmds(Proxy, buf);
    CommitOrder.RunNonEmpty(Proxy, buf, 0);
    assert forall i :: 0 <= i < |cmds| ==> cmds[i] != [];
    hide CommitOrder.GateInv, FrameAll, Cmds, Tail, Accepted, Leads;
    var g1 := FrameAll(ok, g, c, cmds);
    SameAccepted(g1, FrameCtx(ok, g, c));
    FrameAllGreedy(ok, g, c, cmds);
    if Started(g, first) {
      FrameAllStarted(ok, g, c, cmds, first);
    } else {
      FrameAllFirst(ok, g, c, cmds, first);
    }
  }

  lemma RecordSteps(ok: Deliver, g: Gate, c: nat, n: nat, p: bytes, first: nat)
    requires CommitOrder.GateInv(g) && c in g.ctxs && g.ctxs[c].baseline && !g.ctxs[c].ignored
    requires Greedy(g.ctxs[c]) && first > 0 && !OnRecord(ok, g, c, n, p).faulted
    requires Started(g, first) || (Fresh(g) && Leads(g.ctxs[c], |Cmds(Proxy, g.ctxs[c].buf + p)|, first))
    ensures StepsWell(g, g.ctxs[c], OnRecord(ok, g, c, n, p), c, first)
  {
    hide CommitOrder.GateInv, FrameCtx, Cmds, OnRecord, Accepted;
    RecordCases(ok, g, c, n, p);
    var ctx := g.ctxs[c];
    var g2 := g.(ctxs := g.ctxs[c := ctx.(lastRecv := n, recvValid := true, buf := ctx.buf + p)]);
    CommitOrder.SwapCtx(g, c, g2.ctxs[c]);
    SameAccepted(g, g2);
    FrameCtxSteps(ok, g2, c, first);
  }

  lemma DescSteps(ok: Deliver, g: Gate, c: nat, d: Desc, first: nat)
    requires CommitOrder.GateInv(g) && c in g.ctxs && g.ctxs[c].baseline && !g.ctxs[c].ignored
    requires first > 0 && !OnDesc(ok, g, c, d).faulted
    requires Started(g, first) || (Fresh(g) && Leads(g.ctxs[c].(descs := g.ctxs[c].descs + [d]), 0, first))
    ensures StepsWell(g, g.ctxs[c].(descs := g.ctxs[c].descs + [d]), OnDesc(ok, g, c, d), c, first)
  {
    hide CommitOrder.GateInv, TryMatch, Accepted, Leads;
    var ctx := g.ctxs[c].(descs := g.ctxs[c].descs + [d]);
    var g2 := g.(ctxs := g.ctxs[c := ctx]);
    CommitOrder.SwapCtx(g, c, ctx);
    SameAccepted(g, g2);
    MatchGreedy(ok, g2, c);
    if Started(g, first) {
      MatchStarted(ok, g2, c, first);
    } else {
      MatchFirst(ok, g2, c, 0, first);
    }
  }

  lemma BaselineSteps(ok: Deliver, g: Gate, c: nat, n: nat, consumed: bytes, first: nat)
    requires CommitOrder.GateInv(g) && first > 0 && n > 0 && !OnBaseline(ok, g, c, n).faulted
    requires if c in g.ctxs then Untouched(g.ctxs[c], consumed) else consumed == []
    requires Started(g, first) || Fresh(g)
    ensures StepsWell(g, NEW_CTX, OnBaseline(ok, g, c, n), c, first)
  {
    hide CommitOrder.GateInv, TryMatch, Accepted, FrameCtx, Cmds, OnBaseline;
    if NoRoom(g, c) { BaselineFull(ok, g, c, n); }
    BaselineCases(ok, g, c, n, consumed);
    var g1 := WithCtx(g, c);
    CommitOrder.WithCtxInv(g, c);
    var g2 := g1.(ctxs := g1.ctxs[c := Ctx(consumed, true, false, n, 0, false, [], [])]);
    CommitOrder.SwapCtx(g1, c, g2.ctxs[c]);
    SameAccepted(g, g2);
    var g3 := FrameCtx(ok, g2, c);
    if g3.faulted { CommitOrder.MatchFaulted(ok, g3, c); }
    FrameCtxSteps(ok, g2, c, first);
    MatchGreedy(ok, g3, c);
    CommitOrder.FrameCtxInv(ok, g2, c);
    if Started(g3, first) {
      MatchStarted(ok, g3, c, first);
    } else {
      MatchFirst(ok, g3, c, 0, first);
      if !Started(TryMatch(ok, g3, c), first) {
        SkipTwice(g2.ctxs[c].descs, g3.ctxs[c].descs, TryMatch(ok, g3, c).ctxs[c].descs);
      }
    }
  }

  // ---------------------------------------------------------------- one system step

  /** Only connection c is touched, and it steps well. */
  lemma OneServed(s: Sys, plan: Plan, s1: Sys, c: nat, ctx: Ctx, got: seq<Desc>)
    requires GateOrder(s, plan) && s1.conns == s.conns && s1.base == s.base && c in s.conns
    requires StepsWell(s.gate, ctx, s1.gate, c, plan.first) && SameElsewhere(s.gate.ctxs, s1.gate.ctxs, c)
    requires forall x :: x in s.conns && x != c ==>
      Got(s1, x) == Got(s, x) && (Waiting(Wire(s1), x) <==> Waiting(Wire(s), x))
    requires Got(s1, c) == got && |ctx.descs| <= |got| && ctx.descs == got[|got| - |ctx.descs|..]
    requires Fresh(s.gate) ==> Quiet(ctx, got)
    ensures GateOrder(s1, plan)
  {
    hide Waiting, Wire, Got, Started, Accepted;
    forall x | x in s1.conns ensures Served(s1, plan, x) {
      assert Served(s, plan, x);
      if Fresh(s1.gate) && Started(s1.gate, plan.first) { NotFresh(s1.gate, plan.first); }
    }
    if !Started(s1.gate, plan.first) {
      NotStarted(s.gate, plan.first);
      QuietOn(ctx, s1.gate.ctxs[c], got);
    }
  }

  lemma NotFresh(g: Gate, first: nat)
    requires Started(g, first)
    ensures !Fresh(g)
  {
  }

  lemma NotStarted(g: Gate, first: nat)
    requires Fresh(g)
    ensures !Started(g, first)
  {
  }

  lemma QuietOn(ctx: Ctx, ctx1: Ctx, got: seq<Desc>)
    requires |ctx.descs| <= |got| && ctx.descs == got[|got| - |ctx.descs|..]
    requires Quiet(ctx, got) && SkippedTo(ctx.descs, ctx1.descs)
    ensures Quiet(ctx1, got)
  {
    var m := |got| - |ctx.descs|;
    forall k | 0 <= k < |got| - |ctx1.descs| ensures !got[k].write {
      if k >= m { assert got[k] == ctx.descs[k - m]; }
    }
  }

  lemma AlignedTail(ctx: Ctx, first: nat, framed: seq<bytes>, got: seq<Desc>)
    requires Aligned(ctx, first, framed, got)
    ensures |ctx.descs| <= |got| && ctx.descs == got[|got| - |ctx.descs|..]
  {
  }

  /** The gate is running, in order, and nothing it has dropped is outstanding. */
  ghost predicate Running(s: Sys, plan: Plan) {
    Inv(s) && !s.gate.faulted && ClosedOk(s, plan) && GateOrder(s, plan) && plan.first > 0
  }

  lemma IsRunning(s: Sys, plan: Plan)
    requires RInv(s, plan) && !s.gate.faulted
    ensures Running(s, plan)
  {
    hide Inv, ClosedOk, GateOrder, RingOrder, DescOrder, ConnsOrdered, BusyOk;
  }

  /** The first write that the head record lets a fresh gate match has the number the gate starts at. */
  ghost predicate RecordLed(s: Sys, first: nat)
    requires s.ring != []
  {
    var c := s.ring[0].cookie;
    Fresh(s.gate) && Baselined(s.gate, c) ==>
      Leads(s.gate.ctxs[c], |Cmds(Proxy, s.gate.ctxs[c].buf + s.ring[0].payload)|, first)
  }

  /** The same for a descriptor at the head of the channel. */
  ghost predicate DescLed(s: Sys, first: nat)
    requires s.channel != [] && s.channel[0].DescMsg?
  {
    var c := s.channel[0].cookie;
    Fresh(s.gate) && Baselined(s.gate, c) ==>
      Leads(s.gate.ctxs[c].(descs := s.gate.ctxs[c].descs + [s.channel[0].desc]), 0, first)
  }

  /** With the ring in order, it is the first of the session. */
  lemma RingLeads(s: Sys, plan: Plan)
    requires RInv(s, plan) && plan.mode != Any && !s.gate.faulted && s.ring != []
    ensures RecordLed(s, plan.first)
  {
    hide Inv, DescOrder, RingOrder, ConnsOrdered, BusyOk, ClosedOk, GateOrder;
    hide Cmds, Tail, Leads, Consumed, Got, Aligned, Fresh;
    var c := s.ring[0].cookie;
    if Fresh(s.gate) && Baselined(s.gate, c) {
      RingCookie(s);
      CtxFacts(s, c);
      ProxyChunk(Consumed(s, c), s.ring[0].payload);
      RecordLeads(s, plan, |Cmds(Proxy, s.gate.ctxs[c].buf + s.ring[0].payload)|);
    }
  }

  lemma WireLeads(s: Sys, plan: Plan)
    requires RInv(s, plan) && plan.mode != Any && !s.gate.faulted && s.channel != [] && s.channel[0].DescMsg?
    ensures DescLed(s, plan.first)
  {
    hide Inv, DescOrder, RingOrder, ConnsOrdered, BusyOk, ClosedOk, GateOrder, Leads, Fresh;
    if Fresh(s.gate) && Baselined(s.gate, s.channel[0].cookie) {
      MasterPart(s);
      HeadCookie(s);
      DescLeads(s, plan);
    }
  }

  /** A record for a connection that is being matched. */
  lemma MatchedRecord(s: Sys, plan: Plan, ok: Deliver)
    requires Running(s, plan) && s.ring != [] && s.ring[0].cookie in s.conns && RecordLed(s, plan.first)
    requires Baselined(s.gate, s.ring[0].cookie)
    requires !OnRecord(ok, s.gate, s.ring[0].cookie, s.ring[0].recvSeq, s.ring[0].payload).faulted
    ensures var c := s.ring[0].cookie;
      StepsWell(s.gate, s.gate.ctxs[c], OnRecord(ok, s.gate, c, s.ring[0].recvSeq, s.ring[0].payload), c, plan.first)
  {
    hide Inv, ClosedOk, Cmds, Tail, OnRecord, Waiting, Leads, Consumed, Got, Aligned, StepsWell, Started;
    var c, p := s.ring[0].cookie, s.ring[0];
    CtxFacts(s, c);
    FreshQuiet(s, plan, c);
    if !Started(s.gate, plan.first) { OrderFresh(s, plan); }
    RecordSteps(ok, s.gate, c, p.recvSeq, p.payload, plan.first);
  }

  /** A record for a connection whose BASELINE is still to come. */
  lemma EarlyRecord(ok: Deliver, g: Gate, c: nat, n: nat, p: bytes, consumed: bytes)
    requires !OnRecord(ok, g, c, n, p).faulted
    requires c in g.ctxs ==> Untouched(g.ctxs[c], consumed)
    ensures var r := OnRecord(ok, g, c, n, p);
      r == g.(ctxs := r.ctxs) && c in r.ctxs && !r.ctxs[c].baseline && SameElsewhere(g.ctxs, r.ctxs, c)
  {
    hide FrameCtx, OnRecord;
    RecordCases(ok, g, c, n, p);
  }

  lemma {:induction false} MatchElsewhere(ok: Deliver, g: Gate, c: nat)
    requires c in g.ctxs
    ensures SameElsewhere(g.ctxs, TryMatch(ok, g, c).ctxs, c)
    decreases |g.ctxs[c].cmds|
  {
    hide Matches, Drain, Insert;
    var ctx := g.ctxs[c];
    if ctx.cmds != [] && ctx.descs != [] && Matches(ctx.cmds[0], ctx.descs[0]) {
      MatchElsewhere(ok, TakePair(ok, g, c), c);
    }
  }

  lemma {:induction false} FrameElsewhere(ok: Deliver, g: Gate, c: nat, cmds: seq<bytes>)
    requires c in g.ctxs
    ensures SameElsewhere(g.ctxs, FrameAll(ok, g, c, cmds).ctxs, c)
    decreases |cmds|
  {
    hide TryMatch;
    if cmds != [] {
      MatchElsewhere(ok, Queue(g, c, cmds[0]), c);
      FrameElsewhere(ok, FrameOne(ok, g, c, cmds[0]), c, cmds[1..]);
    }
  }

  lemma WithCtxElsewhere(g: Gate, c: nat, ctx: Ctx)
    ensures SameElsewhere(g.ctxs, WithCtx(g, c).ctxs, c)
    ensures SameElsewhere(g.ctxs, WithCtx(g, c).ctxs[c := ctx], c)
  {
  }

  lemma FrameCtxElsewhere(ok: Deliver, g: Gate, c: nat)
    requires c in g.ctxs
    ensures SameElsewhere(g.ctxs, FrameCtx(ok, g, c).ctxs, c)
  {
    hide FrameAll, Cmds, Tail;
    FrameElsewhere(ok, g, c, Cmds(Proxy, g.ctxs[c].buf));
  }

  lemma RecordElsewhere(ok: Deliver, g: Gate, c: nat, n: nat, p: bytes)
    requires !OnRecord(ok, g, c, n, p).faulted
    ensures SameElsewhere(g.ctxs, OnRecord(ok, g, c, n, p).ctxs, c)
  {
    hide TryMatch, FrameCtx, OnRecord, SameElsewhere;
    RecordCases(ok, g, c, n, p);
    var g1 := WithCtx(g, c);
    var ctx := g1.ctxs[c];
    var g2 := g1.(ctxs := g1.ctxs[c := ctx.(lastRecv := n, recvValid := true, buf := ctx.buf + p)]);
    WithCtxElsewhere(g, c, g2.ctxs[c]);
    MatchElsewhere(ok, g2, c);
    FrameCtxElsewhere(ok, g2, c);
    SameTwice(g.ctxs, g2.ctxs, (if ctx.baseline then FrameCtx(ok, g2, c) else TryMatch(ok, g2, c)).ctxs, c);
  }

  lemma DescElsewhere(ok: Deliver, g: Gate, c: nat, d: Desc)
    ensures SameElsewhere(g.ctxs, OnDesc(ok, g, c, d).ctxs, c)
  {
    hide TryMatch;
    var g1 := WithCtx(g, c);
    MatchElsewhere(ok, g1.(ctxs := g1.ctxs[c := g1.ctxs[c].(descs := g1.ctxs[c].descs + [d])]), c);
  }

  lemma BaselineElsewhere(ok: Deliver, g: Gate, c: nat, n: nat, consumed: bytes)
    requires n > 0 && !OnBaseline(ok, g, c, n).faulted
    requires if c in g.ctxs then Untouched(g.ctxs[c], consumed) else consumed == []
    ensures SameElsewhere(g.ctxs, OnBaseline(ok, g, c, n).ctxs, c)
  {
    hide TryMatch, FrameCtx, OnBaseline, SameElsewhere;
    if NoRoom(g, c) { BaselineFull(ok, g, c, n); }
    BaselineCases(ok, g, c, n, consumed);
    var g1 := WithCtx(g, c);
    var g2 := g1.(ctxs := g1.ctxs[c := Ctx(consumed, true, false, n, 0, false, [], [])]);
    WithCtxElsewhere(g, c, g2.ctxs[c]);
    FrameCtxElsewhere(ok, g2, c);
    var g3 := FrameCtx(ok, g2, c);
    MatchElsewhere(ok, g3, c);
    SameTwice(g.ctxs, g2.ctxs, g3.ctxs, c);
    SameTwice(g.ctxs, g3.ctxs, TryMatch(ok, g3, c).ctxs, c);
  }

  /** The gate has only kept bytes: nothing about its order changes. */
  lemma OnlyKept(s: Sys, plan: Plan, s1: Sys, c: nat)
    requires GateOrder(s, plan) && s1.conns == s.conns && s1.base == s.base && c in s.conns
    requires s1.gate == s.gate.(ctxs := s1.gate.ctxs) && SameElsewhere(s.gate.ctxs, s1.gate.ctxs, c)
    requires Waiting(Wire(s1), c) && !Baselined(s1.gate, c)
    requires forall x :: x in s.conns ==> Got(s1, x) == Got(s, x) && (Waiting(Wire(s1), x) <==> Waiting(Wire(s), x))
    ensures GateOrder(s1, plan)
  {
    hide Waiting, Wire, Got, Accepted;
    SameAccepted(s.gate, s1.gate);
    forall x | x in s1.conns ensures Served(s1, plan, x) {
      assert Served(s, plan, x);
    }
  }

  lemma NotDropped(s: Sys, plan: Plan)
    requires ClosedOk(s, plan) && s.ring != []
    ensures s.ring[0].cookie !in plan.dropped
  {
    hide Waiting, WireDescs;
    assert !Done(s, s.ring[0].cookie);
  }

  lemma RecordGate(s: Sys, plan: Plan, s1: Sys, ok: Deliver)
    requires Running(s, plan) && s.ring != [] && !s1.gate.faulted && RecordLed(s, plan.first)
    requires s1 == s.(ring := s.ring[1..],
                      gate := OnRecord(ok, s.gate, s.ring[0].cookie, s.ring[0].recvSeq, s.ring[0].payload))
    ensures GateOrder(s1, plan)
  {
    hide Inv, OnRecord, Waiting, WireDescs, Aligned, StepsWell, Cmds, Tail, Consumed, RecordLed;
    hide ClosedOk, SameElsewhere;
    var p := s.ring[0];
    var c := p.cookie;
    RingCookie(s);
    MasterPart(s);
    ReGot(s, s1);
    CtxFacts(s, c);
    RecordElsewhere(ok, s.gate, c, p.recvSeq, p.payload);
    NotDropped(s, plan);
    assert Served(s, plan, c);
    if Baselined(s.gate, c) {
      MatchedRecord(s, plan, ok);
      AlignedTail(s.gate.ctxs[c], s.conns[c].first, Cmds(Proxy, Consumed(s, c)), Got(s, c));
      FreshQuiet(s, plan, c);
      OneServed(s, plan, s1, c, s.gate.ctxs[c], Got(s, c));
    } else {
      EarlyRecord(ok, s.gate, c, p.recvSeq, p.payload, Consumed(s, c));
      OnlyKept(s, plan, s1, c);
    }
  }

  lemma FreshQuiet(s: Sys, plan: Plan, c: nat)
    requires GateOrder(s, plan) && c in s.conns && Baselined(s.gate, c)
    ensures Fresh(s.gate) ==> Quiet(s.gate.ctxs[c], Got(s, c))
    ensures Greedy(s.gate.ctxs[c])
  {
    hide Waiting, Wire, Got, Accepted, Quiet;
    if Fresh(s.gate) { NotStarted(s.gate, plan.first); }
  }

  lemma RingCookie(s: Sys)
    requires Inv(s) && s.ring != []
    ensures s.ring[0].cookie in s.conns
  {
    hide WireOk, ConnInv, ProxyInv;
  }

  /** A descriptor makes its connection match no other write than the first. */
  lemma DescLeads(s: Sys, plan: Plan)
    requires RInv(s, plan) && plan.mode != Any && !s.gate.faulted && Fresh(s.gate)
    requires s.channel != [] && s.channel[0].DescMsg? && s.channel[0].cookie in s.conns
    requires Baselined(s.gate, s.channel[0].cookie)
    ensures var ctx := s.gate.ctxs[s.channel[0].cookie];
      Leads(ctx.(descs := ctx.descs + [s.channel[0].desc]), 0, s.base + 1)
  {
    hide Inv, Cmds, RingBytes, Waiting, GateOrder, Got, Consumed;
    hide WireFirst, ConnsOrdered, BusyOk, ClosedOk, RingOrder, GotOne;
    var c, d := s.channel[0].cookie, s.channel[0].desc;
    var ctx := s.gate.ctxs[c];
    CtxFacts(s, c);
    FreshQuiet(s, plan, c);
    GotLePart(s, c);
    var f := FirstWrite(ctx.descs + [d]);
    if f < |ctx.descs| + 1 && f < |ctx.cmds| {
      assert ctx.descs == [] && f == 0;
      assert ([] + [d])[0].write;
      var k := |Got(s, c)|;
      HeadWrite(s, plan);
      if GotOne(s) {
        HeadFramed(s, plan, k);
      }
      WireFirstPop(Wire(s));
      assert Wire(s)[0] == s.channel[0];
    }
  }

  /** A write at the head of the channel is the next descriptor of its connection. */
  lemma HeadWrite(s: Sys, plan: Plan)
    requires Inv(s) && s.channel != [] && s.channel[0].DescMsg? && s.channel[0].desc.write
    requires s.channel[0].cookie in s.conns
    ensures IsWrite(s, s.channel[0].cookie, |Got(s, s.channel[0].cookie)|) && s.log != []
    ensures s.conns[s.channel[0].cookie].descs[|Got(s, s.channel[0].cookie)|] == s.channel[0].desc
  {
    hide Inv, MasterInv, Got, Front, WireDescs;
    var c := s.channel[0].cookie;
    MasterPart(s);
    PopDescs(s, c);
    assert (Got(s, c) + [s.channel[0].desc])[|Got(s, c)|] == s.channel[0].desc;
    WriteNumber(s, c, |Got(s, c)|);
  }

  /** The head of the channel cannot be a framed write once the first write has been announced. */
  lemma HeadFramed(s: Sys, plan: Plan, k: nat)
    requires RInv(s, plan) && plan.mode != Any && !s.gate.faulted && Fresh(s.gate) && GotOne(s)
    requires s.channel != [] && s.channel[0].DescMsg? && s.channel[0].cookie in s.conns
    requires IsWrite(s, s.channel[0].cookie, k)
    ensures |Cmds(Proxy, Consumed(s, s.channel[0].cookie))| <= k
  {
    hide Inv, Cmds, RingBytes, Waiting, GateOrder, Got, Consumed;
    hide WireFirst, ConnsOrdered, BusyOk, ClosedOk, DescOrder, ReadAt;
    var c := s.channel[0].cookie;
    if k < |Cmds(Proxy, Consumed(s, c))| {
      ReadNow(s, c);
      assert FramedAt(s, 0, c, k);
      var c1, k1: nat :| IsOne(s, c1, k1) && k1 < |Got(s, c1)|;
      assert FramedAt(s, 0, c1, k1);
      ReadNow(s, c1);
      NotBoth(s, plan, c1, k1);
    }
  }

  lemma ReadNow(s: Sys, x: nat)
    requires x in s.conns
    ensures ReadAt(s, 0, x) == Consumed(s, x)
  {
    assert s.ring[0..] == s.ring;
  }

  lemma DescGate(s: Sys, plan: Plan, s1: Sys, ok: Deliver)
    requires Running(s, plan) && s.channel != [] && s.channel[0].DescMsg? && !s1.gate.faulted && DescLed(s, plan.first)
    requires s1 == s.(channel := s.channel[1..], gate := OnDesc(ok, s.gate, s.channel[0].cookie, s.channel[0].desc))
    ensures GateOrder(s1, plan)
  {
    hide Inv, OnDesc, Waiting, WireDescs, Aligned, StepsWell, Cmds, Tail, Consumed, ClosedOk, SameElsewhere, Front;
    hide GateOrder, Leads, Quiet, Got, Started, Wire, Fresh, MasterInv;
    var c, d := s.channel[0].cookie, s.channel[0].desc;
    MasterPart(s);
    HeadCookie(s);
    CtxFacts(s, c);
    DescServed(s, plan);
    FreshQuiet(s, plan, c);
    var ctx := s.gate.ctxs[c].(descs := s.gate.ctxs[c].descs + [d]);
    DescElsewhere(ok, s.gate, c, d);
    NotStartedFresh(s, plan.first);
    if !Started(s.gate, plan.first) { OrderFresh(s, plan); }
    DescSteps(ok, s.gate, c, d, plan.first);
    AlignedDesc(s.gate.ctxs[c], s.conns[c].first, Cmds(Proxy, Consumed(s, c)), Got(s, c), d);
    AlignedTail(ctx, s.conns[c].first, Cmds(Proxy, Consumed(s, c)), Got(s, c) + [d]);
    Popped(s, s1, c);
    QuietMore(s.gate.ctxs[c], Got(s, c), d);
    OneServed(s, plan, s1, c, ctx, Got(s, c) + [d]);
  }

  /** What is known to the proxy after the head of the channel, about connection c, is read. */
  lemma Popped(s: Sys, s1: Sys, c: nat)
    requires MasterInv(s) && s.channel != [] && s1 == s.(channel := s.channel[1..], gate := s1.gate)
    requires About(s.channel[0], c) && c in s.conns
    ensures forall x :: x in s.conns && x != c ==>
      Got(s1, x) == Got(s, x) && (Waiting(Wire(s1), x) <==> Waiting(Wire(s), x))
    ensures Got(s1, c) == if s.channel[0].DescMsg? then Got(s, c) + [s.channel[0].desc] else Got(s, c)
  {
    hide MasterInv, Waiting, WireDescs, Front;
    OthersKeep(s, s1.gate);
    forall x | x in s.conns && x != c
      ensures Got(s1, x) == Got(s, x) && (Waiting(Wire(s1), x) <==> Waiting(Wire(s), x))
    {
      assert SameView(s, s1, x);
    }
    PopDescs(s, c);
    assert Wire(s1) == Wire(s)[1..];
    assert Got(s, c) + [] == Got(s, c);
  }

  lemma OrderFresh(s: Sys, plan: Plan)
    requires GateOrder(s, plan) && !Started(s.gate, plan.first)
    ensures Fresh(s.gate)
  {
    hide Started, Quiet, Waiting, Wire;
  }

  lemma NotStartedFresh(s: Sys, first: nat)
    ensures Fresh(s.gate) ==> !Started(s.gate, first)
  {
  }

  lemma QuietMore(ctx: Ctx, got: seq<Desc>, d: Desc)
    ensures Quiet(ctx, got) ==> Quiet(ctx.(descs := ctx.descs + [d]), got + [d])
  {
  }

  /** The connection of a descriptor at the head of the channel is being matched. */
  lemma DescServed(s: Sys, plan: Plan)
    requires Running(s, plan) && s.channel != [] && s.channel[0].DescMsg? && s.channel[0].cookie in s.conns
    ensures Baselined(s.gate, s.channel[0].cookie)
  {
    hide Inv, Waiting, Begun;
    var c := s.channel[0].cookie;
    assert Wire(s)[0] == s.channel[0];
    MasterPart(s);
    WireOkPart(s);
    WaitingPop(Wire(s), c);
    assert WireDescs(Wire(s), c) != [];
    assert !Done(s, c);
    assert Served(s, plan, c);
  }

  lemma BaselineGate(s: Sys, plan: Plan, s1: Sys, ok: Deliver)
    requires Running(s, plan) && s.channel != [] && s.channel[0].BaselineMsg? && !s1.gate.faulted
    requires s1 == s.(channel := s.channel[1..], gate := OnBaseline(ok, s.gate, s.channel[0].cookie, s.channel[0].next))
    ensures GateOrder(s1, plan)
  {
    hide Inv, OnBaseline, Waiting, WireDescs, StepsWell, Cmds, Tail, Consumed, ClosedOk, SameElsewhere, Front;
    hide GateOrder, Got, Started, Wire, Fresh, MasterInv, Untouched;
    var c, n := s.channel[0].cookie, s.channel[0].next;
    MasterPart(s);
    HeadCookie(s);
    BaselineReady(s);
    BaselineElsewhere(ok, s.gate, c, n, Consumed(s, c));
    CtxFacts(s, c);
    if !Started(s.gate, plan.first) { OrderFresh(s, plan); }
    BaselineSteps(ok, s.gate, c, n, Consumed(s, c), plan.first);
    Popped(s, s1, c);
    OneServed(s, plan, s1, c, NEW_CTX, []);
  }

  /** A BASELINE at the head of the channel is for a connection that the gate has kept bytes of. */
  lemma BaselineReady(s: Sys)
    requires Inv(s) && !s.gate.faulted && s.channel != [] && s.channel[0].BaselineMsg?
    requires s.channel[0].cookie in s.conns
    ensures s.channel[0].next > 0 && Got(s, s.channel[0].cookie) == []
    ensures var c := s.channel[0].cookie;
      if c in s.gate.ctxs then Untouched(s.gate.ctxs[c], Consumed(s, c)) else Consumed(s, c) == []
  {
    hide ConnOk, RingBytes, WireDescs, Committed, CommitOrder.GateInv, Cmds, Front, Aligned;
    var m := s.channel[0];
    assert Wire(s)[0] == m;
    assert m in Wire(s);
    assert Waiting(Wire(s), m.cookie);
    assert ConnInv(s, m.cookie);
    FirstPositive(s.conns[m.cookie], s.base, s.log);
  }

  // ---------------------------------------------------------------- dropped connections, RESUME

  /** A connection that is done has had every write matched. */
  lemma DoneQuiet(s: Sys, plan: Plan, c: nat)
    requires Running(s, plan) && Fresh(s.gate) && c in plan.closed && Done(s, c)
    ensures c in s.conns && NoWrites(s.conns[c].descs)
  {
    hide Inv, Cmds, Waiting, RingBytes, WireDescs, Begun;
    assert s.conns[c].parsed == |s.conns[c].stream|;
    assert Served(s, plan, c);
    if Baselined(s.gate, c) {
      CtxFacts(s, c);
      FreshQuiet(s, plan, c);
      DoneAll(s, c);
    }
  }

  lemma DoneAll(s: Sys, c: nat)
    requires Inv(s) && c in s.conns && Done(s, c) && s.conns[c].parsed == |s.conns[c].stream|
    ensures Got(s, c) == s.conns[c].descs
    ensures |Cmds(Proxy, Consumed(s, c))| == |Got(s, c)|
  {
    hide CleanRun, Run, Describes, WireOk, WireDescs, RingBytes, Waiting, ProxyInv;
    MasterPart(s);
    assert ConnInv(s, c);
    var conn := s.conns[c];
    assert conn.stream[..conn.parsed] == conn.stream;
    CleanRunAgree(conn.stream, 0);
  }

  /** A connection is dropped. */
  ghost predicate Drops(g: Gate, r: Gate, c: nat) {
    r == g.(ctxs := r.ctxs, pending := r.pending) && !Baselined(r, c) && SameElsewhere(g.ctxs, r.ctxs, c)
  }

  lemma IgnoreDrops(g: Gate, c: nat)
    ensures Drops(g, OnIgnore(g, c), c)
  {
    hide ReleaseAll;
  }

  lemma ForgetDrops(g: Gate, c: nat)
    ensures Drops(g, OnForget(g, c), c)
  {
    hide ReleaseAll;
  }

  lemma DropGate(s: Sys, plan: Plan, s1: Sys)
    requires Running(s, plan) && s.channel != [] && Dropping(s.channel[0]) && Done(s, s.channel[0].cookie)
    requires s1 == s.(channel := s.channel[1..], gate := s1.gate) && Drops(s.gate, s1.gate, s.channel[0].cookie)
    ensures GateOrder(s1, plan.(dropped := plan.dropped + {s.channel[0].cookie}))
  {
    hide Inv, MasterInv, Waiting, WireDescs, Got, Front, Quiet, Accepted, Done;
    var plan1 := plan.(dropped := plan.dropped + {s.channel[0].cookie});
    var c := s.channel[0].cookie;
    MasterPart(s);
    HeadCookie(s);
    Popped(s, s1, c);
    assert Wire(s)[0] == s.channel[0];
    assert c in plan.closed;
    SameAccepted(s.gate, s1.gate);
    if Fresh(s.gate) { DoneQuiet(s, plan, c); }
    forall x | x in s1.conns ensures Served(s1, plan1, x) {
      assert Served(s, plan, x);
    }
  }

  lemma SameServed(s: Sys, plan: Plan, s1: Sys)
    requires GateOrder(s, plan) && s1.conns == s.conns && s1.base == s.base && s1.gate.ctxs == s.gate.ctxs
    requires Accepted(s1.gate) == Accepted(s.gate) && (Fresh(s.gate) <==> Fresh(s1.gate))
    requires forall x :: x in s.conns ==> Got(s1, x) == Got(s, x) && (Waiting(Wire(s1), x) <==> Waiting(Wire(s), x))
    ensures GateOrder(s1, plan)
  {
    hide Waiting, Wire, Got, Accepted, Fresh, Quiet;
    forall x | x in s1.conns ensures Served(s1, plan, x) {
      assert Served(s, plan, x);
    }
  }

  lemma ResumeGate(s: Sys, plan: Plan, s1: Sys, ok: Deliver)
    requires Running(s, plan) && s.channel != [] && s.channel[0].ResumeMsg? && !s1.gate.faulted
    requires s1 == s.(channel := s.channel[1..], gate := OnResume(ok, s.gate, s.channel[0].marker))
    ensures GateOrder(s1, plan)
  {
    hide Inv, MasterInv, Waiting, WireDescs, Front, ClosedOk, Accepted, GateOrder;
    MasterPart(s);
    GateInvPart(s);
    CommitOrder.ResumeInv(ok, s.gate, s.channel[0].marker);
    OthersKeep(s, s1.gate);
    forall x | x in s.conns ensures Got(s1, x) == Got(s, x) && (Waiting(Wire(s1), x) <==> Waiting(Wire(s), x)) {
      assert SameView(s, s1, x);
    }
    ResumeFresh(ok, s.gate, s.channel[0].marker);
    SameServed(s, plan, s1);
  }

  lemma GateInvPart(s: Sys)
    requires Inv(s) && !s.gate.faulted
    ensures CommitOrder.GateInv(s.gate)
  {
    hide MasterInv, CommitOrder.GateInv, Committed, CtxOk;
  }

  /** RESUME settles what was kept; it neither starts nor un-starts a gate. */
  lemma ResumeFresh(ok: Deliver, g: Gate, marker: nat)
    requires CommitOrder.GateInv(g) && !g.faulted && !OnResume(ok, g, marker).faulted
    ensures Fresh(OnResume(ok, g, marker)) <==> Fresh(g)
    ensures OnResume(ok, g, marker).ctxs == g.ctxs
  {
    hide CommitOrder.GateInv, Replay, Accepted;
    CommitOrder.ResumeInv(ok, g, marker);
    AcceptedLen(g);
    AcceptedLen(OnResume(ok, g, marker));
  }

  lemma AcceptedLen(g: Gate)
    ensures |Accepted(g)| == |g.settled| + |g.rec|
  {
  }

  // ---------------------------------------------------------------- every run

  /** The plan once the head of the channel has been read. */
  function Read(plan: Plan, m: Msg): Plan {
    if Dropping(m) then plan.(dropped := plan.dropped + {m.cookie}) else plan
  }

  lemma TakeMsgR(s: Sys, plan: Plan, ok: Deliver)
    requires RInv(s, plan) && s.channel != [] && Inv(TakeMsgStep(ok, s))
    requires Dropping(s.channel[0]) ==> Done(s, s.channel[0].cookie)
    requires !s.gate.faulted && s.channel[0].DescMsg? ==> DescLed(s, plan.first)
    ensures RInv(TakeMsgStep(ok, s), Read(plan, s.channel[0]))
  {
    hide Inv, MasterOrder, GateOrder, OnBaseline, OnDesc, OnIgnore, OnForget, OnResume, Drops, Running, DescLed, Done;
    var s1 := TakeMsgStep(ok, s);
    MasterPart(s);
    PopWireMaster(s, plan, s1, Read(plan, s.channel[0]));
    if s.gate.faulted {
      ForeverFaulted(s, ok);
    } else if !s1.gate.faulted {
      IsRunning(s, plan);
      match s.channel[0]
      case DescMsg(_, _) => DescGate(s, plan, s1, ok);
      case BaselineMsg(_, _) => BaselineGate(s, plan, s1, ok);
      case IgnoreMsg(c) => IgnoreDrops(s.gate, c); DropGate(s, plan, s1);
      case ForgetMsg(c) => ForgetDrops(s.gate, c); DropGate(s, plan, s1);
      case ResumeMsg(_) => ResumeGate(s, plan, s1, ok);
    }
  }

  lemma RecordR(s: Sys, plan: Plan, s1: Sys, ok: Deliver)
    requires RInv(s, plan) && s.ring != [] && Inv(s1) && (!s.gate.faulted ==> RecordLed(s, plan.first))
    requires s1 == s.(ring := s.ring[1..],
                      gate := OnRecord(ok, s.gate, s.ring[0].cookie, s.ring[0].recvSeq, s.ring[0].payload))
    ensures RInv(s1, plan)
  {
    hide Inv, MasterOrder, GateOrder, OnRecord, Running, RecordLed;
    MasterPart(s);
    PopRingMaster(s, plan, s1);
    if s.gate.faulted {
      StillFaulted(ok, s.gate, s.ring[0].cookie, s.ring[0]);
    } else if !s1.gate.faulted {
      IsRunning(s, plan);
      RecordGate(s, plan, s1, ok);
    }
  }

  lemma PollR(s: Sys, plan: Plan, s1: Sys)
    requires RInv(s, plan) && Inv(s1) && s1 == s.(gate := s1.gate)
    requires s1.gate == Fault(s.gate) ||
      s1.gate == s.gate.(buffering := s1.gate.buffering, waitResume := s1.gate.waitResume)
    ensures RInv(s1, plan)
  {
    hide Inv, GateOrder, Cmds, RingBytes, WireDescs, Waiting, Rising, WireFirst, Accepted, RingOrder;
    assert Wire(s1) == Wire(s);
    MasterPart(s);
    if plan.mode != Any { SameRing(s, s1); }
    ReGot(s, s1);
    InsertDescs(s, s1, ResumeMsg(0));
    forall c | c in plan.dropped ensures Done(s1, c) { assert Done(s, c); }
    if !s1.gate.faulted {
      SameAccepted(s.gate, s1.gate);
      SameServed(s, plan, s1);
    }
  }

  lemma NextR(s: Sys, plan: Plan, e: Event)
    requires RInv(s, plan) && plan.mode != Any && Enabled(s, e) && Allowed(s, plan, e)
    ensures RInv(Next(s, e), Onward(s, plan, e)) && Onward(s, plan, e).mode == plan.mode
  {
    assert Inv(s) by { RInvParts(s, plan); }
    NextInv(s, e);
    hide RInv, Inv, CleanRun, OnRecord, TakeMsgStep, ParseStep, Done, RecordLed, DescLed;
    match e
    case Recv(c, p) => RecvR(s, plan, c, p);
    case Parse(c, writes) => ParseR(s, plan, c, writes);
    case TakeRecord(ok) =>
      if !s.gate.faulted { RingLeads(s, plan); }
      RecordR(s, plan, Next(s, e), ok);
    case TakeMsg(ok) =>
      if !s.gate.faulted && s.channel[0].DescMsg? { WireLeads(s, plan); }
      TakeMsgR(s, plan, ok);
    case PollEdge(b) => PollR(s, plan, Next(s, e));
    case Trouble => PollR(s, plan, Next(s, e));
    case _ => SendR(s, plan, e);
  }

  lemma {:induction false} RunR(s: Sys, plan: Plan, events: seq<Event>) returns (plan1: Plan)
    requires RInv(s, plan) && plan.mode != Any && IsRun(s, events) && Disciplined(s, plan, events)
    ensures RInv(After(s, events), plan1) && plan1.mode == plan.mode
    decreases |events|
  {
    hide RInv, Next, Enabled, Allowed, Onward;
    plan1 := plan;
    if events != [] {
      NextR(s, plan, events[0]);
      plan1 := RunR(Next(s, events[0]), Onward(s, plan, events[0]), events[1..]);
    }
  }

  /** Nothing has happened yet, and the gate ought to start at the session's first write. */
  function AtStart(base: nat, mode: Mode): Plan {
    Plan(mode, None, {}, {}, base + 1)
  }

  lemma StartR(base: nat, buffering: bool, mode: Mode)
    ensures RInv(Start(base, buffering), AtStart(base, mode))
  {
    StartInv(base, buffering);
    hide Inv, RingBytes, WireDescs, Cmds, Rising;
    var s := Start(base, buffering);
    assert Wire(s) == [];
    assert RingOrder(s) && DescOrder(s);
    assert Fresh(s.gate);
  }

  lemma PrefixHere(s: Sys, plan: Plan)
    requires RInv(s, plan) && plan.mode != Any && !s.gate.faulted
    ensures LogPrefix(Accepted(s.gate), s.base, s.log)
  {
    hide Inv, DescOrder, RingOrder, ConnsOrdered, BusyOk, ClosedOk, Fresh, Accepted, LogPrefix, Served;
    PrefixExact(s);
    if Fresh(s.gate) { FreshEmpty(s.gate); }
  }

  /** END TO END, WITH THE EVENT LOOP.  When the master parses what it has received before it does
      anything else, and the proxy learns that a connection is gone only after it has read all the rest
      of it, then for every interleaving with the proxy the accepted writes of a gate that has not
      faulted are, in order and byte for byte, a prefix of the session's committed-write log. */
  lemma AcceptsAPrefix(base: nat, buffering: bool, events: seq<Event>)
    requires IsRun(Start(base, buffering), events)
    requires Disciplined(Start(base, buffering), AtStart(base, Loop), events)
    ensures var s := After(Start(base, buffering), events);
      !s.gate.faulted ==> LogPrefix(Accepted(s.gate), s.base, s.log)
  {
    hide IsRun, Disciplined, After, RInv, Accepted, LogPrefix;
    StartR(base, buffering, Loop);
    var plan := RunR(Start(base, buffering), AtStart(base, Loop), events);
    var s := After(Start(base, buffering), events);
    if !s.gate.faulted { PrefixHere(s, plan); }
  }

  lemma FreshEmpty(g: Gate)
    requires Fresh(g)
    ensures Accepted(g) == []
  {
  }
}
