/** Nothing is left behind: a number that was given is on its way, held or accepted, and when everything has
    been read without a fault the accepted writes are the whole log. */
module CommitWhole {
  import opened Bytes
  import opened Framer
  import opened Sums
  import opened CommitGate
  import opened CommitOrder
  import opened CommitClosed

  // ---------------------------------------------------------------- counting

  function InRecs(recs: seq<Rec>, n: nat): nat {
    if recs == [] then 0 else (if recs[0].global == n then 1 else 0) + InRecs(recs[1..], n)
  }

  /** How often the gate knows number n: unmatched, ready or accepted. */
  ghost function Known(g: Gate, n: nat): nat {
    Copies(g, n) + InRecs(Accepted(g), n)
  }

  lemma {:induction false} InRecsAppend(a: seq<Rec>, b: seq<Rec>, n: nat)
    ensures InRecs(a + b, n) == InRecs(a, n) + InRecs(b, n)
  {
    if a == [] {
      assert a + b == b;
    } else {
      assert (a + b)[1..] == a[1..] + b;
      InRecsAppend(a[1..], b, n);
    }
  }

  /** A step that does not fault loses no number and makes none up. */
  ghost predicate Conserves(g: Gate, r: Gate) {
    && (g.faulted ==> r.faulted)
    && (r.faulted || forall n: nat :: Known(r, n) == Known(g, n))
  }

  lemma ConservesTwice(a: Gate, b: Gate, c: Gate)
    requires Conserves(a, b) && Conserves(b, c)
    ensures Conserves(a, c)
  {
    hide Known;
  }

  lemma SameKnown(g: Gate, r: Gate)
    requires r.ctxs == g.ctxs && r.ready == g.ready && r.settled == g.settled && r.rec == g.rec
    requires g.faulted ==> r.faulted
    ensures Conserves(g, r)
  {
    SameCopies(g, r);
    SameAccepted(g, r);
  }

  lemma FaultConserves(g: Gate, r: Gate)
    requires r.faulted
    ensures Conserves(g, r)
  {
  }

  // ---------------------------------------------------------------- draining

  lemma OneMore(a: seq<Rec>, b: seq<Rec>, w: Rec, n: nat)
    ensures InRecs(a + (b + [w]), n) == InRecs(a + b, n) + if w.global == n then 1 else 0
    ensures InRecs(a + [w] + b, n) == InRecs(a + b, n) + if w.global == n then 1 else 0
  {
    assert InRecs([w], n) == if w.global == n then 1 else 0 by { assert [w][1..] == []; }
    InRecsAppend(a, b + [w], n);
    InRecsAppend(b, [w], n);
    InRecsAppend(a + [w], b, n);
    InRecsAppend(a, [w], n);
    InRecsAppend(a, b, n);
  }

  /** An accepted write is counted once more among the accepted. */
  lemma EmitKnown(ok: Deliver, g: Gate, cmd: Cmd, n: nat)
    requires Emit(ok, g, cmd).1
    ensures InRecs(Accepted(Emit(ok, g, cmd).0), n) == InRecs(Accepted(g), n) + if cmd.global == n then 1 else 0
  {
    hide InRecs, Recs;
    var w := Rec(cmd.global, cmd.data);
    OneMore(Recs(g.settled), g.rec, w, n);
    RecsOne(g.settled, w);
  }

  lemma RecsOne(settled: seq<Settled>, w: Rec)
    ensures Recs(settled + [Emitted(w)]) == Recs(settled) + [w]
  {
    RecsAppend(settled, [Emitted(w)]);
    assert Recs([Emitted(w)]) == [w];
  }

  lemma StaysFaulted(ok: Deliver, g: Gate, cmd: Cmd)
    requires g.faulted
    ensures Emit(ok, g, cmd).0.faulted
  {
  }

  /** The gate once the head of the ready list has been accepted. */
  function HeadDone(ok: Deliver, g: Gate): Gate
    requires g.ready != []
  {
    var g1 := Emit(ok, g.(ready := g.ready[1..]), g.ready[0]).0;
    Release(g1, |g.ready[0].data|).(nextGlobal := g1.nextGlobal + 1)
  }

  lemma HeadConserves(ok: Deliver, g: Gate)
    requires g.ready != [] && Emit(ok, g.(ready := g.ready[1..]), g.ready[0]).1
    ensures Conserves(g, HeadDone(ok, g))
  {
    hide Emit, MapSum;
    var cmd, g' := g.ready[0], g.(ready := g.ready[1..]);
    var g1, g3 := Emit(ok, g', cmd).0, HeadDone(ok, g);
    EmitFacts(ok, g', cmd);
    if g.faulted { StaysFaulted(ok, g', cmd); }
    SameAccepted(g1, g3);
    SameAccepted(g, g');
    forall n: nat ensures Known(g3, n) == Known(g, n) {
      EmitKnown(ok, g', cmd, n);
    }
  }

  /** One turn of the drain loop. */
  lemma DrainTurn(ok: Deliver, g: Gate)
    requires g.ready != []
    ensures var g0 := if g.nextGlobal == 0 then g.(nextGlobal := g.ready[0].global) else g;
      var r := Drain(ok, g);
      || r.faulted
      || (g.ready[0].global > g0.nextGlobal && r == g0)
      || (&& g.ready[0].global == g0.nextGlobal
          && Emit(ok, g0.(ready := g0.ready[1..]), g0.ready[0]).1
          && HeadDone(ok, g0).ready == g.ready[1..]
          && r == Drain(ok, HeadDone(ok, g0)))
  {
    hide Emit;
    var g0 := if g.nextGlobal == 0 then g.(nextGlobal := g.ready[0].global) else g;
    EmitFacts(ok, g0.(ready := g0.ready[1..]), g0.ready[0]);
  }

  lemma {:induction false} DrainConserves(ok: Deliver, g: Gate)
    ensures Conserves(g, Drain(ok, g))
    decreases |g.ready|
  {
    hide Conserves, Emit, HeadDone;
    if g.ready == [] {
      SameKnown(g, Drain(ok, g));
    } else {
      var g0 := if g.nextGlobal == 0 then g.(nextGlobal := g.ready[0].global) else g;
      SameKnown(g, g0);
      DrainTurn(ok, g);
      hide Drain;
      if Drain(ok, g).faulted {
        FaultConserves(g, Drain(ok, g));
      } else if g.ready[0].global == g0.nextGlobal {
        var g3 := HeadDone(ok, g0);
        HeadConserves(ok, g0);
        DrainConserves(ok, g3);
        ConservesTwice(g, g0, g3);
        ConservesTwice(g, g3, Drain(ok, g3));
      }
    }
  }

  // ---------------------------------------------------------------- matching and framing

  lemma PairKnown(g: Gate, c: nat, ctx: Ctx, n: nat)
    requires c in g.ctxs && g.ctxs[c].descs != [] && ctx.descs == g.ctxs[c].descs[1..] && !g.ctxs[c].descs[0].write
    ensures Copies(g.(ctxs := g.ctxs[c := ctx]), n) == Copies(g, n)
  {
    hide MapSum;
    SwapCopies(g, c, ctx, n);
  }

  lemma PairConserves(ok: Deliver, g: Gate, c: nat)
    requires c in g.ctxs && g.ctxs[c].cmds != [] && g.ctxs[c].descs != []
    ensures Conserves(g, TakePair(ok, g, c))
  {
    hide Copies, Drain, Insert, Accepted, InRecs;
    var ctx := g.ctxs[c];
    var ctx' := ctx.(cmds := ctx.cmds[1..], descs := ctx.descs[1..]);
    var cmd := ctx.cmds[0].(global := ctx.descs[0].global);
    var g1 := g.(ctxs := g.ctxs[c := ctx']);
    if ctx.descs[0].write {
      var g2 := g1.(ready := Insert(g.ready, cmd));
      SameAccepted(g, g2);
      forall n: nat ensures Known(g2, n) == Known(g, n) { PairCopies(g, c, ctx', cmd, n); }
      DrainConserves(ok, g2);
      ConservesTwice(g, g2, Drain(ok, g2));
    } else {
      var r := Release(g1, |cmd.data|);
      SameCopies(g1, r);
      SameAccepted(g, r);
      forall n: nat ensures Known(r, n) == Known(g, n) { PairKnown(g, c, ctx', n); }
    }
  }

  lemma {:induction false} MatchConserves(ok: Deliver, g: Gate, c: nat)
    requires c in g.ctxs
    ensures Conserves(g, TryMatch(ok, g, c))
    decreases |g.ctxs[c].cmds|
  {
    hide Conserves, TakePair, Matches;
    var ctx := g.ctxs[c];
    if ctx.cmds == [] || ctx.descs == [] {
      SameKnown(g, g);
    } else if !Matches(ctx.cmds[0], ctx.descs[0]) {
      FaultConserves(g, TryMatch(ok, g, c));
    } else {
      PairConserves(ok, g, c);
      MatchConserves(ok, TakePair(ok, g, c), c);
      ConservesTwice(g, TakePair(ok, g, c), TryMatch(ok, g, c));
    }
  }

  /** A context with the same descriptors. */
  lemma SwapConserves(g: Gate, r: Gate, c: nat, ctx: Ctx)
    requires ctx.descs == if c in g.ctxs then g.ctxs[c].descs else []
    requires r.ctxs == g.ctxs[c := ctx] && r.ready == g.ready && r.settled == g.settled && r.rec == g.rec
    requires g.faulted ==> r.faulted
    ensures Conserves(g, r)
  {
    hide Copies, Accepted, InRecs;
    var g1 := g.(ctxs := g.ctxs[c := ctx]);
    SameCopies(g1, r);
    SameAccepted(g, r);
    forall n: nat ensures Known(r, n) == Known(g, n) { SwapCopies(g, c, ctx, n); }
  }

  lemma FrameOneConserves(ok: Deliver, g: Gate, c: nat, data: bytes)
    requires c in g.ctxs
    ensures Conserves(g, FrameOne(ok, g, c, data))
  {
    hide Conserves, TryMatch;
    var g1 := Queue(g, c, data);
    SwapConserves(g, g1, c, g1.ctxs[c]);
    if g1.pending + g1.recBytes > MEMORY_MAX {
      FaultConserves(g, FrameOne(ok, g, c, data));
    } else {
      MatchConserves(ok, g1, c);
      ConservesTwice(g, g1, FrameOne(ok, g, c, data));
    }
  }

  lemma {:induction false} FrameConserves(ok: Deliver, g: Gate, c: nat, cmds: seq<bytes>)
    requires c in g.ctxs
    ensures Conserves(g, FrameAll(ok, g, c, cmds))
    decreases |cmds|
  {
    hide Conserves, FrameOne;
    if cmds == [] {
      SameKnown(g, g);
    } else {
      FrameOneConserves(ok, g, c, cmds[0]);
      FrameConserves(ok, FrameOne(ok, g, c, cmds[0]), c, cmds[1..]);
      ConservesTwice(g, FrameOne(ok, g, c, cmds[0]), FrameAll(ok, g, c, cmds));
    }
  }

  lemma FrameCtxConserves(ok: Deliver, g: Gate, c: nat)
    requires c in g.ctxs
    ensures Conserves(g, FrameCtx(ok, g, c))
  {
    hide Conserves, FrameAll, Cmds, Tail;
    var r := FrameCtx(ok, g, c);
    if g.ctxs[c].baseline {
      var g1 := FrameAll(ok, g, c, Cmds(Proxy, g.ctxs[c].buf));
      FrameConserves(ok, g, c, Cmds(Proxy, g.ctxs[c].buf));
      SwapConserves(g1, r, c, r.ctxs[c]);
      ConservesTwice(g, g1, r);
    } else {
      SameKnown(g, r);
    }
  }

  // ---------------------------------------------------------------- inputs

  lemma RecordConserves(ok: Deliver, g: Gate, c: nat, n: nat, p: bytes)
    ensures Conserves(g, OnRecord(ok, g, c, n, p))
  {
    hide Conserves, TryMatch, FrameCtx;
    var r, g1 := OnRecord(ok, g, c, n, p), WithCtx(g, c);
    var ctx := g1.ctxs[c];
    if g.faulted {
      SameKnown(g, r);
    } else if NoRoom(g, c) || (!ctx.ignored && ctx.recvValid && n != ctx.lastRecv + 1)
              || (!ctx.ignored && |ctx.buf| + |p| > CTX_BUF_CAP) {
      FaultConserves(g, r);
    } else if ctx.ignored {
      SameKnown(g, r);
    } else {
      var g2 := g1.(ctxs := g1.ctxs[c := ctx.(lastRecv := n, recvValid := true, buf := ctx.buf + p)]);
      SwapConserves(g, g2, c, g2.ctxs[c]);
      MatchConserves(ok, g2, c);
      FrameCtxConserves(ok, g2, c);
      ConservesTwice(g, g2, r);
    }
  }

  /** A descriptor of a connection that is not ignored adds its number. */
  lemma DescConserves(ok: Deliver, g: Gate, c: nat, d: Desc)
    requires !g.faulted && (c in g.ctxs ==> !g.ctxs[c].ignored)
    ensures var r := OnDesc(ok, g, c, d);
      r.faulted || forall n: nat :: Known(r, n) == Known(g, n) + if d.write && d.global == n then 1 else 0
  {
    hide Copies, Accepted, InRecs, TryMatch;
    var r := OnDesc(ok, g, c, d);
    if !NoRoom(g, c) {
      var g1 := WithCtx(g, c);
      var ctx := g1.ctxs[c];
      var g2 := g1.(ctxs := g1.ctxs[c := ctx.(descs := ctx.descs + [d])]);
      SwapConserves(g, g1, c, ctx);
      SameAccepted(g1, g2);
      forall n: nat ensures Known(g2, n) == Known(g1, n) + if d.write && d.global == n then 1 else 0 {
        SwapCopies(g1, c, ctx.(descs := ctx.descs + [d]), n);
        InDescsAppend(ctx.descs, d, n);
      }
      MatchConserves(ok, g2, c);
    }
  }

  /** A BASELINE for a connection that has no descriptors yet. */
  lemma BaselineConserves(ok: Deliver, g: Gate, c: nat, n: nat)
    requires c in g.ctxs ==> g.ctxs[c].descs == []
    ensures Conserves(g, OnBaseline(ok, g, c, n))
  {
    hide Conserves, TryMatch, FrameCtx, ReleaseAll;
    var r := OnBaseline(ok, g, c, n);
    if NoRoom(g, c) {
      FaultConserves(g, r);
    } else {
      var g1 := WithCtx(g, c);
      var ctx := g1.ctxs[c];
      var reset := Ctx(if ctx.baseline then [] else ctx.buf, true, false, if n == 0 then 1 else n, 0, false, [], []);
      var g2 := ReleaseAll(g1, ctx.cmds);
      var g3 := g2.(ctxs := g2.ctxs[c := reset]);
      SwapConserves(g, g3, c, reset);
      FrameCtxConserves(ok, g3, c);
      MatchConserves(ok, FrameCtx(ok, g3, c), c);
      ConservesTwice(g, g3, FrameCtx(ok, g3, c));
      ConservesTwice(g, FrameCtx(ok, g3, c), r);
    }
  }

  lemma ResumeConserves(ok: Deliver, g: Gate, m: nat)
    ensures Conserves(g, OnResume(ok, g, m))
  {
    hide Replay;
    ResumeTakes(ok, g, m);
    SameCopies(g, OnResume(ok, g, m));
  }

  // ---------------------------------------------------------------- nothing that could go on is left

  /** A number is expected only behind one that was accepted. */
  predicate Begun(g: Gate) {
    g.nextGlobal > 0 ==> Accepted(g) != []
  }

  /** The head of the ready list waits for an earlier write. */
  predicate Waits(g: Gate) {
    Begun(g) && (g.ready == [] || (g.nextGlobal > 0 && g.ready[0].global > g.nextGlobal))
  }

  /** One of the two queues is empty; before its BASELINE a connection has no commands. */
  predicate Matched(ctx: Ctx) {
    (ctx.cmds == [] || ctx.descs == []) && (!ctx.baseline ==> ctx.cmds == [])
  }

  /** A gate that has not faulted has done all it can. */
  ghost predicate Quiet(g: Gate) {
    g.faulted || (Waits(g) && forall c :: c in g.ctxs ==> Matched(g.ctxs[c]))
  }

  /** The same but for one connection that is being matched. */
  ghost predicate QuietBut(g: Gate, c: nat) {
    g.faulted || (Waits(g) && forall k :: k in g.ctxs && k != c ==> Matched(g.ctxs[k]))
  }

  lemma HeadBegun(ok: Deliver, g: Gate)
    requires g.ready != [] && Emit(ok, g.(ready := g.ready[1..]), g.ready[0]).1
    ensures Begun(HeadDone(ok, g))
  {
    hide Emit, Accepted;
    var g' := g.(ready := g.ready[1..]);
    EmitKnown(ok, g', g.ready[0], g.ready[0].global);
    SameAccepted(Emit(ok, g', g.ready[0]).0, HeadDone(ok, g));
  }

  lemma {:induction false} DrainWaits(ok: Deliver, g: Gate)
    requires Begun(g)
    ensures Drain(ok, g).faulted || Waits(Drain(ok, g))
    decreases |g.ready|
  {
    hide Emit, HeadDone, Accepted;
    if g.ready != [] {
      var g0 := if g.nextGlobal == 0 then g.(nextGlobal := g.ready[0].global) else g;
      SameAccepted(g, g0);
      DrainTurn(ok, g);
      hide Drain;
      if !Drain(ok, g).faulted && g.ready[0].global == g0.nextGlobal {
        HeadBegun(ok, g0);
        DrainWaits(ok, HeadDone(ok, g0));
      }
    }
  }

  lemma PairQuiet(ok: Deliver, g: Gate, c: nat)
    requires c in g.ctxs && g.ctxs[c].cmds != [] && g.ctxs[c].descs != [] && QuietBut(g, c)
    ensures QuietBut(TakePair(ok, g, c), c)
  {
    hide Drain, Insert;
    var ctx := g.ctxs[c];
    var g1 := g.(ctxs := g.ctxs[c := ctx.(cmds := ctx.cmds[1..], descs := ctx.descs[1..])]);
    var g2 := g1.(ready := Insert(g1.ready, ctx.cmds[0].(global := ctx.descs[0].global)));
    SameAccepted(g, g2);
    SameAccepted(g, Release(g1, |ctx.cmds[0].data|));
    hide Accepted;
    if g.faulted { DrainFaulted(ok, g2); } else { DrainWaits(ok, g2); }
  }

  lemma {:induction false} MatchQuiet(ok: Deliver, g: Gate, c: nat)
    requires c in g.ctxs && QuietBut(g, c) && (!g.ctxs[c].baseline ==> g.ctxs[c].cmds == [])
    ensures Quiet(TryMatch(ok, g, c))
    decreases |g.ctxs[c].cmds|
  {
    hide TakePair, Matches, Waits;
    var ctx := g.ctxs[c];
    if ctx.cmds != [] && ctx.descs != [] && Matches(ctx.cmds[0], ctx.descs[0]) {
      PairQuiet(ok, g, c);
      hide QuietBut;
      MatchQuiet(ok, TakePair(ok, g, c), c);
    }
  }

  lemma SameQuiet(g: Gate, r: Gate, c: nat)
    requires Quiet(g) && (g.faulted ==> r.faulted) && r.ready == g.ready && r.nextGlobal == g.nextGlobal
    requires forall k :: k in r.ctxs && k != c ==> k in g.ctxs && r.ctxs[k] == g.ctxs[k]
    requires r.settled == g.settled && r.rec == g.rec
    ensures QuietBut(r, c)
    ensures (c in r.ctxs ==> Matched(r.ctxs[c])) ==> Quiet(r)
  {
    hide Matched, Accepted;
    SameAccepted(g, r);
  }

  lemma CtxQuiet(g: Gate, c: nat)
    requires Quiet(g) && !g.faulted && c in g.ctxs
    ensures Matched(g.ctxs[c])
  {
  }

  lemma {:induction false} FrameQuiet(ok: Deliver, g: Gate, c: nat, cmds: seq<bytes>)
    requires c in g.ctxs && Quiet(g) && g.ctxs[c].baseline
    ensures var r := FrameAll(ok, g, c, cmds); Quiet(r) && r.ctxs[c].baseline
    decreases |cmds|
  {
    hide Quiet, QuietBut, TryMatch;
    if cmds != [] {
      var g1 := Queue(g, c, cmds[0]);
      SameQuiet(g, g1, c);
      MatchQuiet(ok, g1, c);
      MatchBaseline(ok, g1, c);
      FaultQuiet(FrameOne(ok, g, c, cmds[0]));
      FrameQuiet(ok, FrameOne(ok, g, c, cmds[0]), c, cmds[1..]);
    }
  }

  lemma FaultQuiet(g: Gate)
    ensures g.faulted ==> Quiet(g)
  {
  }

  lemma {:induction false} MatchBaseline(ok: Deliver, g: Gate, c: nat)
    requires c in g.ctxs
    ensures var r := TryMatch(ok, g, c);
      && r.ctxs[c].baseline == g.ctxs[c].baseline && r.ctxs[c].ignored == g.ctxs[c].ignored
      && forall k :: k in r.ctxs && k != c ==> k in g.ctxs && r.ctxs[k] == g.ctxs[k]
    decreases |g.ctxs[c].cmds|
  {
    hide TakePair, Matches;
    var ctx := g.ctxs[c];
    if ctx.cmds != [] && ctx.descs != [] && Matches(ctx.cmds[0], ctx.descs[0]) {
      MatchBaseline(ok, TakePair(ok, g, c), c);
    }
  }

  lemma FrameCtxQuiet(ok: Deliver, g: Gate, c: nat)
    requires c in g.ctxs && Quiet(g)
    ensures Quiet(FrameCtx(ok, g, c))
  {
    hide Quiet, QuietBut, FrameAll, Cmds, Tail;
    if g.ctxs[c].baseline {
      var buf := g.ctxs[c].buf;
      var g1 := FrameAll(ok, g, c, Cmds(Proxy, buf));
      FrameQuiet(ok, g, c, Cmds(Proxy, buf));
      var r := g1.(ctxs := g1.ctxs[c := g1.ctxs[c].(buf := Tail(Proxy, buf))]);
      if !g1.faulted { CtxQuiet(g1, c); } else { FaultQuiet(r); }
      SameQuiet(g1, r, c);
    }
  }

  // ---------------------------------------------------------------- after any input

  lemma RecordQuiet(ok: Deliver, g: Gate, c: nat, n: nat, p: bytes)
    requires Quiet(g)
    ensures Quiet(OnRecord(ok, g, c, n, p))
  {
    hide Quiet, QuietBut, TryMatch, FrameCtx;
    var r, g1 := OnRecord(ok, g, c, n, p), WithCtx(g, c);
    FaultQuiet(r);
    if !g.faulted && !NoRoom(g, c) {
      if c in g.ctxs { CtxQuiet(g, c); }
      SameQuiet(g, g1, c);
      var ctx := g1.ctxs[c];
      var g2 := g1.(ctxs := g1.ctxs[c := ctx.(lastRecv := n, recvValid := true, buf := ctx.buf + p)]);
      SameQuiet(g, g2, c);
      MatchQuiet(ok, g2, c);
      FrameCtxQuiet(ok, g2, c);
    }
  }

  lemma DescQuiet(ok: Deliver, g: Gate, c: nat, d: Desc)
    requires Quiet(g)
    ensures Quiet(OnDesc(ok, g, c, d))
  {
    hide Quiet, QuietBut, TryMatch;
    var r, g1 := OnDesc(ok, g, c, d), WithCtx(g, c);
    if g.faulted || NoRoom(g, c) {
      FaultQuiet(r);
    } else {
      if c in g.ctxs { CtxQuiet(g, c); }
      var ctx := g1.ctxs[c];
      if ctx.ignored {
        SameQuiet(g, g1, c);
      } else {
        var g2 := g1.(ctxs := g1.ctxs[c := ctx.(descs := ctx.descs + [d])]);
        SameQuiet(g, g2, c);
        if ctx.baseline { MatchQuiet(ok, g2, c); }
      }
    }
  }

  lemma BaselineQuiet(ok: Deliver, g: Gate, c: nat, n: nat)
    requires Quiet(g)
    ensures Quiet(OnBaseline(ok, g, c, n))
  {
    hide Quiet, QuietBut, TryMatch, FrameCtx, ReleaseAll;
    var r := OnBaseline(ok, g, c, n);
    FaultQuiet(r);
    if !NoRoom(g, c) {
      var g1 := WithCtx(g, c);
      var ctx := g1.ctxs[c];
      var reset := Ctx(if ctx.baseline then [] else ctx.buf, true, false, if n == 0 then 1 else n, 0, false, [], []);
      var g2 := ReleaseAll(g1, ctx.cmds);
      var g3 := g2.(ctxs := g2.ctxs[c := reset]);
      SameQuiet(g, g3, c);
      FrameCtxQuiet(ok, g3, c);
      var f := FrameCtx(ok, g3, c);
      SameQuiet(f, f, c);
      if !f.faulted { CtxQuiet(f, c); MatchQuiet(ok, f, c); } else { MatchFaulted(ok, f, c); }
    }
  }

  /** A QUIET GATE.  After any input, from any source, a gate that has not faulted has nothing left that it
      could match or accept: of each connection's queues one is empty, and the first ready write waits for an
      earlier number. */
  lemma ApplyQuiet(ok: Deliver, g: Gate, i: Input)
    requires Quiet(g)
    ensures Quiet(Apply(ok, g, i))
  {
    hide Quiet, OnRecord, OnDesc, OnBaseline, OnIgnore, OnForget, OnResume, OnPoll;
    var r := Apply(ok, g, i);
    match i
    case Record(c, n, p) => RecordQuiet(ok, g, c, n, p);
    case Descriptor(c, d) => DescQuiet(ok, g, c, d);
    case Baseline(c, n) => BaselineQuiet(ok, g, c, n);
    case PurgeAll => EmptyQuiet(g.buffering);
    case Ignore(c) => DropQuiet(g, c);
    case Forget(c) => DropQuiet(g, c);
    case Resume(m) => ResumeQuiet(ok, g, m);
    case Poll(b) => PollQuiet(g, b);
    case OutsideFault => FaultQuiet(r);
  }

  lemma DropQuiet(g: Gate, c: nat)
    requires Quiet(g)
    ensures Quiet(OnIgnore(g, c)) && Quiet(OnForget(g, c))
  {
    hide Quiet, QuietBut, ReleaseAll;
    SameQuiet(g, OnIgnore(g, c), c);
    SameQuiet(g, OnForget(g, c), c);
  }

  lemma ResumeQuiet(ok: Deliver, g: Gate, m: nat)
    requires Quiet(g)
    ensures Quiet(OnResume(ok, g, m))
  {
    hide Quiet, Accepted, Replay;
    ResumeTakes(ok, g, m);
    UntouchedQuiet(g, OnResume(ok, g, m));
  }

  lemma PollQuiet(g: Gate, b: bool)
    requires Quiet(g)
    ensures Quiet(OnPoll(g, b))
  {
    hide Quiet, Accepted;
    SameAccepted(g, OnPoll(g, b));
    UntouchedQuiet(g, OnPoll(g, b));
  }

  lemma UntouchedQuiet(g: Gate, r: Gate)
    requires Quiet(g) && (g.faulted ==> r.faulted)
    requires r.ready == g.ready && r.nextGlobal == g.nextGlobal && r.ctxs == g.ctxs
    requires r.faulted || Accepted(r) == Accepted(g)
    ensures Quiet(r)
  {
  }

  lemma EmptyQuiet(buffering: bool)
    ensures Quiet(EmptyGate(buffering))
  {
  }
}
