/** The system's invariant holds in every run; what the proxy accepts is what the master committed. */
module CommitSafety {
  import opened Bytes
  import opened Framer
  import opened FramerTheorems
  import opened FramerAgreement
  import opened CommitGate
  import CommitClosed
  import opened CommitMatch
  import opened CommitSystem

  // ---------------------------------------------------------------- queues

  lemma {:induction false} RingBytesAppend(ring: seq<Packet>, p: Packet, c: nat)
    ensures RingBytes(ring + [p], c) == RingBytes(ring, c) + (if p.cookie == c then p.payload else [])
  {
    if ring == [] {
      assert [p][1..] == [];
    } else {
      assert (ring + [p])[1..] == ring[1..] + [p];
      RingBytesAppend(ring[1..], p, c);
    }
  }

  lemma {:induction false} WireDescsAppend(a: seq<Msg>, b: seq<Msg>, c: nat)
    ensures WireDescs(a + b, c) == WireDescs(a, c) + WireDescs(b, c)
  {
    if a == [] {
      assert a + b == b;
    } else {
      assert (a + b)[1..] == a[1..] + b;
      WireDescsAppend(a[1..], b, c);
    }
  }

  lemma {:induction false} WireDescsNone(wire: seq<Msg>, c: nat)
    requires forall m :: m in wire ==> !About(m, c)
    ensures WireDescs(wire, c) == []
  {
    if wire != [] {
      assert wire[0] in wire;
      WireDescsNone(wire[1..], c);
    }
  }

  /** A message that is no descriptor may be put between channel and batch unnoticed. */
  lemma WireDescsInsert(a: seq<Msg>, m: Msg, b: seq<Msg>, c: nat)
    requires !m.DescMsg?
    ensures WireDescs(a + [m] + b, c) == WireDescs(a + b, c)
  {
    WireDescsAppend(a + [m], b, c);
    WireDescsAppend(a, [m], c);
    WireDescsAppend(a, b, c);
    assert WireDescs([m], c) == [];
  }

  // ---------------------------------------------------------------- framing over the wire

  lemma {:induction false} ProxyCalm(s: bytes, pos: nat)
    requires pos <= |s|
    ensures Calm(Proxy, s, pos)
    decreases |s| - pos
  {
    hide Step;
    if pos < |s| {
      match Step(Proxy, s, pos)
      case Wait =>
      case Stop(_) =>
      case Skip(n) => ProxyCalm(s, n);
      case Take(n) => ProxyCalm(s, n);
    }
  }

  lemma ProxyChunk(a: bytes, b: bytes)
    ensures Cmds(Proxy, a + b) == Cmds(Proxy, a) + Cmds(Proxy, Tail(Proxy, a) + b)
    ensures Tail(Proxy, a + b) == Tail(Proxy, Tail(Proxy, a) + b)
  {
    hide Run, Calm;
    ProxyCalm(a + b, 0);
    RunChunk(Proxy, a, b);
  }

  lemma NothingFramed(side: Side)
    ensures Cmds(side, []) == [] && Tail(side, []) == []
  {
  }

  lemma BothFrame(s: bytes)
    requires CleanRun(s, 0)
    ensures Cmds(Master, s) == Cmds(Proxy, s) && Calm(Master, s, 0) && Calm(Proxy, s, 0)
  {
    CleanRunAgree(s, 0);
  }

  /** What the proxy has framed and what the master has dispatched are prefixes of one sequence, so
      the descriptors describe the framed commands. */
  lemma HonestConn(conn: Conn, consumed: bytes, got: seq<Desc>, base: nat, log: seq<bytes>)
    requires ConnOk(conn, base, log) && consumed <= conn.stream && got <= conn.descs
    ensures Honest(conn.first, Cmds(Proxy, consumed), got, base, log)
  {
    hide Run, Describes, CleanRun, Cmds, Tail, Calm;
    var all := Cmds(Master, conn.stream);
    BothFrame(conn.stream);
    CmdsPrefix(Proxy, consumed, conn.stream);
    CmdsPrefix(Master, conn.stream[..conn.parsed], conn.stream);
    var framed := Cmds(Proxy, consumed);
    forall i | 0 <= i < |framed| && i < |got|
      ensures Describes(got[i], conn.first + i, framed[i], base, log)
    {
      assert framed[i] == all[i] == conn.sent[i];
      assert got[i] == conn.descs[i];
    }
  }

  lemma DescribesGrows(d: Desc, n: nat, data: bytes, base: nat, log: seq<bytes>, log': seq<bytes>)
    requires Describes(d, n, data, base, log) && log <= log'
    ensures Describes(d, n, data, base, log')
  {
  }

  lemma ConnGrows(conn: Conn, base: nat, log: seq<bytes>, log': seq<bytes>)
    requires ConnOk(conn, base, log) && log <= log'
    ensures ConnOk(conn, base, log')
  {
    hide Run, Describes, CleanRun;
    forall i | 0 <= i < |conn.sent|
      ensures Describes(conn.descs[i], conn.first + i, conn.sent[i], base, log')
    {
      DescribesGrows(conn.descs[i], conn.first + i, conn.sent[i], base, log, log');
    }
  }

  lemma CommittedGrows(g: Gate, base: nat, log: seq<bytes>, log': seq<bytes>)
    requires Committed(g, base, log) && log <= log'
    ensures Committed(g, base, log')
  {
  }

  // ---------------------------------------------------------------- one connection in the gate

  ghost predicate SameElsewhere(a: map<nat, Ctx>, b: map<nat, Ctx>, c: nat) {
    forall k :: k != c ==> (k in a <==> k in b) && (k in a ==> a[k] == b[k])
  }

  lemma FrameCtxOk(ok: Deliver, g: Gate, c: nat, first: nat, framed: seq<bytes>, got: seq<Desc>, base: nat,
                   log: seq<bytes>)
    requires c in g.ctxs && g.ctxs[c].baseline
    requires Aligned(g.ctxs[c], first, framed, got)
    requires Honest(first, framed + Cmds(Proxy, g.ctxs[c].buf), got, base, log) && Committed(g, base, log)
    ensures var r := FrameCtx(ok, g, c);
      && Aligned(r.ctxs[c], first, framed + Cmds(Proxy, g.ctxs[c].buf), got)
      && r.ctxs[c].baseline && r.ctxs[c].ignored == g.ctxs[c].ignored
      && r.ctxs[c].buf == Tail(Proxy, g.ctxs[c].buf)
      && Committed(r, base, log) && SameElsewhere(g.ctxs, r.ctxs, c)
  {
    hide Run, FrameAll, Honest;
    var buf := g.ctxs[c].buf;
    FrameAllAligned(ok, g, c, Cmds(Proxy, buf), first, framed, got, base, log);
  }

  lemma CommittedSame(g: Gate, g1: Gate, base: nat, log: seq<bytes>)
    requires Committed(g, base, log)
    requires g1.ready == g.ready && g1.rec == g.rec && g1.settled == g.settled
    ensures Committed(g1, base, log)
  {
  }

  /** More bytes for a connection whose BASELINE has been read. */
  lemma FrameMore(ok: Deliver, g: Gate, c: nat, ctx: Ctx, p: bytes,
                  first: nat, consumed: bytes, got: seq<Desc>, base: nat, log: seq<bytes>)
    requires c in g.ctxs
    requires g.ctxs[c] == ctx.(lastRecv := g.ctxs[c].lastRecv, recvValid := g.ctxs[c].recvValid, buf := ctx.buf + p)
    requires ctx.baseline && !ctx.ignored && ctx.buf == Tail(Proxy, consumed)
    requires Aligned(ctx, first, Cmds(Proxy, consumed), got)
    requires Honest(first, Cmds(Proxy, consumed + p), got, base, log) && Committed(g, base, log)
    ensures var r := FrameCtx(ok, g, c);
      && CtxOk(r.ctxs, c, first, consumed + p, got, false)
      && Committed(r, base, log) && SameElsewhere(g.ctxs, r.ctxs, c) && c in r.ctxs
  {
    hide Run, FrameCtx, Honest, Aligned, Committed;
    ProxyChunk(consumed, p);
    AlignedBuf(ctx, g.ctxs[c], first, Cmds(Proxy, consumed), got);
    FrameCtxOk(ok, g, c, first, Cmds(Proxy, consumed), got, base, log);
  }

  /** What `OnRecord` does when it does not fault. */
  lemma RecordCases(ok: Deliver, g: Gate, c: nat, n: nat, p: bytes)
    requires !OnRecord(ok, g, c, n, p).faulted
    ensures var r, g1 := OnRecord(ok, g, c, n, p), WithCtx(g, c);
      var ctx := g1.ctxs[c];
      var g2 := g1.(ctxs := g1.ctxs[c := ctx.(lastRecv := n, recvValid := true, buf := ctx.buf + p)]);
      r == (if ctx.ignored then g1 else if ctx.baseline then FrameCtx(ok, g2, c) else TryMatch(ok, g2, c))
  {
    hide FrameCtx, TryMatch;
  }

  /** Reading a captured record. */
  lemma RecordOk(ok: Deliver, g: Gate, c: nat, n: nat, p: bytes,
                 first: nat, consumed: bytes, got: seq<Desc>, waiting: bool, base: nat, log: seq<bytes>)
    requires CtxOk(g.ctxs, c, first, consumed, got, waiting) && Committed(g, base, log)
    requires Honest(first, Cmds(Proxy, consumed + p), got, base, log)
    ensures var r := OnRecord(ok, g, c, n, p);
      r.faulted || (&& CtxOk(r.ctxs, c, first, consumed + p, got, waiting)
                    && Committed(r, base, log) && SameElsewhere(g.ctxs, r.ctxs, c)
                    && c in r.ctxs)
  {
    hide Cmds, Tail, FrameCtx, Honest, Aligned, Committed, OnRecord;
    if !OnRecord(ok, g, c, n, p).faulted {
      RecordCases(ok, g, c, n, p);
      var g1 := WithCtx(g, c);
      var ctx := g1.ctxs[c];
      CommittedSame(g, g1, base, log);
      if !ctx.ignored {
        var g2 := g1.(ctxs := g1.ctxs[c := ctx.(lastRecv := n, recvValid := true, buf := ctx.buf + p)]);
        CommittedSame(g, g2, base, log);
        if ctx.baseline {
          FrameMore(ok, g2, c, ctx, p, first, consumed, got, base, log);
        }
      }
    }
  }

  /** The receive buffer and the receive counter are not part of the alignment. */
  lemma AlignedBuf(ctx: Ctx, ctx': Ctx, first: nat, framed: seq<bytes>, got: seq<Desc>)
    requires Aligned(ctx, first, framed, got)
    requires ctx'.nextSeq == ctx.nextSeq && ctx'.cmds == ctx.cmds && ctx'.descs == ctx.descs
    ensures Aligned(ctx', first, framed, got)
  {
  }

  lemma AlignedDesc(ctx: Ctx, first: nat, framed: seq<bytes>, got: seq<Desc>, d: Desc)
    requires Aligned(ctx, first, framed, got)
    ensures Aligned(ctx.(descs := ctx.descs + [d]), first, framed, got + [d])
  {
  }

  /** Reading a descriptor. */
  lemma DescOk(ok: Deliver, g: Gate, c: nat, d: Desc,
               first: nat, consumed: bytes, got: seq<Desc>, base: nat, log: seq<bytes>)
    requires CtxOk(g.ctxs, c, first, consumed, got, false) && Committed(g, base, log)
    requires Honest(first, Cmds(Proxy, consumed), got + [d], base, log)
    ensures var r := OnDesc(ok, g, c, d);
      r.faulted || (&& CtxOk(r.ctxs, c, first, consumed, got + [d], false)
                    && Committed(r, base, log) && SameElsewhere(g.ctxs, r.ctxs, c)
                    && c in r.ctxs)
  {
    hide Run, TryMatch, Honest, Aligned, Committed, Cmds, Tail;
    var r := OnDesc(ok, g, c, d);
    if !r.faulted {
      var g1 := WithCtx(g, c);
      CommittedSame(g, g1, base, log);
      var ctx := g1.ctxs[c];
      if !ctx.ignored {
        var g2 := g1.(ctxs := g1.ctxs[c := ctx.(descs := ctx.descs + [d])]);
        CommittedSame(g, g2, base, log);
        if ctx.baseline {
          AlignedDesc(ctx, first, Cmds(Proxy, consumed), got, d);
          MatchAligned(ok, g2, c, first, Cmds(Proxy, consumed), got + [d], base, log);
        }
      }
    }
  }

  /** BASELINE for a connection the gate has not met or has only kept bytes for. */
  lemma BaselineCases(ok: Deliver, g: Gate, c: nat, first: nat, consumed: bytes)
    requires first > 0 && !NoRoom(g, c)
    requires if c in g.ctxs then Untouched(g.ctxs[c], consumed) else consumed == []
    ensures var g1 := WithCtx(g, c);
      var g2 := g1.(ctxs := g1.ctxs[c := Ctx(consumed, true, false, first, 0, false, [], [])]);
      OnBaseline(ok, g, c, first) == TryMatch(ok, FrameCtx(ok, g2, c), c)
  {
    hide FrameCtx, TryMatch;
    assert ReleaseAll(WithCtx(g, c), []) == WithCtx(g, c);
  }

  /** Reading a connection's BASELINE: the bytes that came early are framed from its first command. */
  lemma BaselineOk(ok: Deliver, g: Gate, c: nat, first: nat, consumed: bytes, base: nat, log: seq<bytes>)
    requires first > 0 && CtxOk(g.ctxs, c, first, consumed, [], true) && Committed(g, base, log)
    ensures var r := OnBaseline(ok, g, c, first);
      r.faulted || (&& CtxOk(r.ctxs, c, first, consumed, [], false)
                    && Committed(r, base, log) && SameElsewhere(g.ctxs, r.ctxs, c)
                    && c in r.ctxs)
  {
    hide Cmds, Tail, TryMatch, FrameCtx, Committed, Aligned, OnBaseline;
    if NoRoom(g, c) {
      BaselineFull(ok, g, c, first);
    } else {
      BaselineCases(ok, g, c, first, consumed);
      var ctx := Ctx(consumed, true, false, first, 0, false, [], []);
      var g1 := WithCtx(g, c);
      var g2 := g1.(ctxs := g1.ctxs[c := ctx]);
      assert SameElsewhere(g.ctxs, g2.ctxs, c);
      hide CtxOk;
      CommittedSame(g, g2, base, log);
      BaselineFrames(ok, g2, c, first, consumed, base, log);
      var r := TryMatch(ok, FrameCtx(ok, g2, c), c);
      if !r.faulted { SameTwice(g.ctxs, g2.ctxs, r.ctxs, c); }
    }
  }

  lemma SameTwice(a: map<nat, Ctx>, b: map<nat, Ctx>, d: map<nat, Ctx>, c: nat)
    requires SameElsewhere(a, b, c) && SameElsewhere(b, d, c)
    ensures SameElsewhere(a, d, c)
  {
  }

  /** The new context's bytes are framed and matched. */
  lemma BaselineFrames(ok: Deliver, g: Gate, c: nat, first: nat, consumed: bytes, base: nat, log: seq<bytes>)
    requires c in g.ctxs && g.ctxs[c] == Ctx(consumed, true, false, first, 0, false, [], []) && Committed(g, base, log)
    ensures var r := TryMatch(ok, FrameCtx(ok, g, c), c);
      && c in r.ctxs
      && (r.faulted ||
          (CtxOk(r.ctxs, c, first, consumed, [], false) && Committed(r, base, log) && SameElsewhere(g.ctxs, r.ctxs, c)))
  {
    hide Cmds, Tail, TryMatch, FrameCtx, Committed, Aligned;
    StartAligned(g.ctxs[c], first);
    assert [] + Cmds(Proxy, consumed) == Cmds(Proxy, consumed);
    FrameCtxOk(ok, g, c, first, [], [], base, log);
    var f := FrameCtx(ok, g, c);
    MatchAligned(ok, f, c, first, Cmds(Proxy, consumed), [], base, log);
    SameTwice(g.ctxs, f.ctxs, TryMatch(ok, f, c).ctxs, c);
  }

  lemma BaselineFull(ok: Deliver, g: Gate, c: nat, first: nat)
    requires NoRoom(g, c)
    ensures OnBaseline(ok, g, c, first).faulted
  {
  }

  lemma StartAligned(ctx: Ctx, first: nat)
    requires ctx.nextSeq == first && ctx.cmds == [] && ctx.descs == []
    ensures Aligned(ctx, first, [], [])
  {
  }

  lemma DropOk(g: Gate, c: nat, first: nat, consumed: bytes, got: seq<Desc>, base: nat, log: seq<bytes>)
    requires Committed(g, base, log) && CtxOk(g.ctxs, c, first, consumed, got, false)
    ensures CtxOk(OnIgnore(g, c).ctxs, c, first, consumed, got, false)
    ensures Committed(OnIgnore(g, c), base, log) && SameElsewhere(g.ctxs, OnIgnore(g, c).ctxs, c)
    ensures CtxOk(OnForget(g, c).ctxs, c, first, consumed, got, false)
    ensures Committed(OnForget(g, c), base, log) && SameElsewhere(g.ctxs, OnForget(g, c).ctxs, c)
    ensures OnForget(g, c).ctxs.Keys <= g.ctxs.Keys && OnIgnore(g, c).ctxs.Keys <= g.ctxs.Keys + {c}
  {
    hide CtxOk, Committed, OnIgnore, OnForget;
    IgnoreOk(g, c, first, consumed, got, base, log);
    ForgetOk(g, c, first, consumed, got, base, log);
  }

  lemma IgnoreOk(g: Gate, c: nat, first: nat, consumed: bytes, got: seq<Desc>, base: nat, log: seq<bytes>)
    requires Committed(g, base, log) && CtxOk(g.ctxs, c, first, consumed, got, false)
    ensures CtxOk(OnIgnore(g, c).ctxs, c, first, consumed, got, false)
    ensures Committed(OnIgnore(g, c), base, log) && SameElsewhere(g.ctxs, OnIgnore(g, c).ctxs, c)
    ensures OnIgnore(g, c).ctxs.Keys <= g.ctxs.Keys + {c}
  {
    hide Run, Cmds, Tail, Aligned, Committed;
    CommittedSame(g, OnIgnore(g, c), base, log);
  }

  lemma ForgetOk(g: Gate, c: nat, first: nat, consumed: bytes, got: seq<Desc>, base: nat, log: seq<bytes>)
    requires Committed(g, base, log) && CtxOk(g.ctxs, c, first, consumed, got, false)
    ensures CtxOk(OnForget(g, c).ctxs, c, first, consumed, got, false)
    ensures Committed(OnForget(g, c), base, log) && SameElsewhere(g.ctxs, OnForget(g, c).ctxs, c)
    ensures OnForget(g, c).ctxs.Keys <= g.ctxs.Keys
  {
    hide Run, Cmds, Tail, Aligned, Committed;
    CommittedSame(g, OnForget(g, c), base, log);
  }

  lemma ResumeOk(ok: Deliver, g: Gate, marker: nat, base: nat, log: seq<bytes>)
    requires Committed(g, base, log)
    ensures Committed(OnResume(ok, g, marker), base, log)
    ensures OnResume(ok, g, marker).ctxs == g.ctxs
  {
    hide InLog, Replay;
    CommitClosed.ReplayBegins(ok, g.rec, marker);
    var s, r := Replay(ok, g.rec, marker).0, OnResume(ok, g, marker);
    forall i | 0 <= i < |r.settled| ensures InLog(r.settled[i].rec.global, r.settled[i].rec.data, base, log) {
      if i >= |g.settled| {
        var k := i - |g.settled|;
        assert r.settled[i].rec == Recs(s)[k] == g.rec[k];
        assert InLog(g.rec[k].global, g.rec[k].data, base, log);
      } else {
        assert InLog(g.settled[i].rec.global, g.settled[i].rec.data, base, log);
      }
    }
  }
}
