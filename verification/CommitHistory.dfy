/** Accepted writes stay: whatever the gate is given, what it has accepted grows at the end only. */
module CommitHistory {
  import opened Bytes
  import opened Framer
  import opened CommitGate
  import opened CommitOrder

  lemma SameAccepted(g: Gate, g1: Gate)
    requires g1.settled == g.settled && g1.rec == g.rec
    ensures Accepted(g1) == Accepted(g)
  {
  }

  lemma {:induction false} DrainGrows(ok: Deliver, g: Gate)
    requires GateInv(g) && !Drain(ok, g).faulted
    ensures Accepted(g) <= Accepted(Drain(ok, g))
    decreases |g.ready|
  {
    hide Consecutive, Counted, NoneEmpty, InOrder, Emit, Accepted;
    if g.faulted {
      DrainFaulted(ok, g);
    } else if g.ready != [] {
      var cmd := g.ready[0];
      var g0 := if g.nextGlobal == 0 then g.(nextGlobal := cmd.global) else g;
      StartKeeps(g, cmd.global);
      SameView(g, g0.nextGlobal);
      if cmd.global == g0.nextGlobal {
        var (g1, sent) := Emit(ok, g0.(ready := g0.ready[1..]), cmd);
        EmitFacts(ok, g0.(ready := g0.ready[1..]), cmd);
        if sent {
          AcceptHead(ok, g0);
          GrowsByOne(ok, g0);
          var g2 := Release(g1, |cmd.data|);
          DrainGrows(ok, g2.(nextGlobal := g2.nextGlobal + 1));
        }
      }
    }
  }

  lemma GrowsByOne(ok: Deliver, g: Gate)
    requires GateInv(g) && !g.faulted && g.ready != []
    requires Emit(ok, g.(ready := g.ready[1..]), g.ready[0]).1
    ensures var g1 := Release(Emit(ok, g.(ready := g.ready[1..]), g.ready[0]).0, |g.ready[0].data|);
      Accepted(g1.(nextGlobal := g1.nextGlobal + 1)) == Accepted(g) + [Rec(g.ready[0].global, g.ready[0].data)]
  {
    AcceptOrder(ok, g);
  }

  lemma PairGrows(ok: Deliver, g: Gate, c: nat)
    requires GateInv(g) && !g.faulted && c in g.ctxs && g.ctxs[c].cmds != [] && g.ctxs[c].descs != []
    ensures var r := TakePair(ok, g, c); r.faulted || Accepted(g) <= Accepted(r)
  {
    hide GateInv, Drain, Insert, Accepted;
    var ctx := g.ctxs[c];
    var ctx' := ctx.(cmds := ctx.cmds[1..], descs := ctx.descs[1..]);
    var cmd := ctx.cmds[0].(global := ctx.descs[0].global);
    var g2 := g.(ctxs := g.ctxs[c := ctx'], ready := Insert(g.ready, cmd));
    SameAccepted(g, g2);
    SameAccepted(g, Release(g.(ctxs := g.ctxs[c := ctx']), |ctx.cmds[0].data|));
    if ctx.descs[0].write && !Drain(ok, g2).faulted {
      ToReadyInv(g, c, ctx', cmd);
      DrainGrows(ok, g2);
    }
  }

  lemma {:induction false} MatchGrows(ok: Deliver, g: Gate, c: nat)
    requires GateInv(g) && c in g.ctxs && !TryMatch(ok, g, c).faulted
    ensures Accepted(g) <= Accepted(TryMatch(ok, g, c))
    decreases |g.ctxs[c].cmds|
  {
    hide GateInv, TakePair, Matches, Accepted;
    var ctx := g.ctxs[c];
    if g.faulted {
      MatchFaulted(ok, g, c);
    } else if ctx.cmds != [] && ctx.descs != [] {
      var g1 := TakePair(ok, g, c);
      PairInv(ok, g, c);
      PairGrows(ok, g, c);
      if g1.faulted { MatchFaulted(ok, g1, c); }
      MatchGrows(ok, g1, c);
    }
  }

  lemma FrameOneGrows(ok: Deliver, g: Gate, c: nat, data: bytes)
    requires GateInv(g) && c in g.ctxs && data != [] && !FrameOne(ok, g, c, data).faulted
    ensures Accepted(g) <= Accepted(FrameOne(ok, g, c, data))
  {
    hide GateInv, TryMatch, Accepted;
    var g1 := Queue(g, c, data);
    SameAccepted(g, g1);
    if g.faulted {
      MatchFaulted(ok, g1, c);
    } else {
      QueueInv(g, c, data);
      MatchGrows(ok, g1, c);
    }
  }

  lemma {:induction false} FrameAllGrows(ok: Deliver, g: Gate, c: nat, cmds: seq<bytes>)
    requires GateInv(g) && c in g.ctxs && !FrameAll(ok, g, c, cmds).faulted
    requires forall i :: 0 <= i < |cmds| ==> cmds[i] != []
    ensures Accepted(g) <= Accepted(FrameAll(ok, g, c, cmds))
    decreases |cmds|
  {
    hide GateInv, FrameOne, Accepted;
    if cmds != [] {
      var g1 := FrameOne(ok, g, c, cmds[0]);
      if g1.faulted { FrameFaulted(ok, g1, c, cmds[1..]); }
      FrameOneInv(ok, g, c, cmds[0]);
      FrameOneGrows(ok, g, c, cmds[0]);
      FrameAllGrows(ok, g1, c, cmds[1..]);
    }
  }

  lemma FrameCtxGrows(ok: Deliver, g: Gate, c: nat)
    requires GateInv(g) && c in g.ctxs && !FrameCtx(ok, g, c).faulted
    ensures Accepted(g) <= Accepted(FrameCtx(ok, g, c))
  {
    hide GateInv, FrameAll, Cmds, Tail, Accepted;
    var cmds := Cmds(Proxy, g.ctxs[c].buf);
    NoEmptyCmds(g.ctxs[c].buf);
    if g.ctxs[c].baseline {
      SameAccepted(FrameAll(ok, g, c, cmds), FrameCtx(ok, g, c));
      FrameAllGrows(ok, g, c, cmds);
    }
  }

  lemma NoEmptyCmds(s: bytes)
    ensures forall i :: 0 <= i < |Cmds(Proxy, s)| ==> Cmds(Proxy, s)[i] != []
  {
    RunNonEmpty(Proxy, s, 0);
  }

  // ---------------------------------------------------------------- inputs

  /** What an input does to the history: a fault stays, and without one nothing accepted is lost. */
  ghost predicate Grows(g: Gate, r: Gate) {
    && (g.faulted ==> r.faulted)
    && (!r.faulted ==> Accepted(g) <= Accepted(r))
  }

  lemma DescGrows(ok: Deliver, g: Gate, c: nat, d: Desc)
    requires GateInv(g)
    ensures Grows(g, OnDesc(ok, g, c, d))
  {
    hide GateInv, TryMatch, Accepted;
    var g1 := WithCtx(g, c);
    var g2 := g1.(ctxs := g1.ctxs[c := g1.ctxs[c].(descs := g1.ctxs[c].descs + [d])]);
    WithCtxInv(g, c);
    SwapCtx(g1, c, g2.ctxs[c]);
    SameAccepted(g, g1);
    SameAccepted(g, g2);
    if !g.faulted && !TryMatch(ok, g2, c).faulted { MatchGrows(ok, g2, c); }
  }

  lemma RecordGrows(ok: Deliver, g: Gate, c: nat, n: nat, p: bytes)
    requires GateInv(g)
    ensures Grows(g, OnRecord(ok, g, c, n, p))
  {
    hide GateInv, TryMatch, FrameCtx, Accepted;
    if !g.faulted && !NoRoom(g, c) {
      var g1 := WithCtx(g, c);
      var ctx := g1.ctxs[c];
      var g2 := g1.(ctxs := g1.ctxs[c := ctx.(lastRecv := n, recvValid := true, buf := ctx.buf + p)]);
      WithCtxInv(g, c);
      SwapCtx(g1, c, g2.ctxs[c]);
      SameAccepted(g, g1);
      SameAccepted(g, g2);
      if !TryMatch(ok, g2, c).faulted { MatchGrows(ok, g2, c); }
      if !FrameCtx(ok, g2, c).faulted { FrameCtxGrows(ok, g2, c); }
    }
  }

  lemma BaselineGrows(ok: Deliver, g: Gate, c: nat, n: nat)
    requires GateInv(g)
    ensures Grows(g, OnBaseline(ok, g, c, n))
  {
    hide GateInv, TryMatch, FrameCtx, Accepted, ReleaseAll, DataBytes;
    if !NoRoom(g, c) {
      var g1 := WithCtx(g, c);
      var ctx := g1.ctxs[c];
      var reset := Ctx(if ctx.baseline then [] else ctx.buf, true, false, if n == 0 then 1 else n, 0, false, [], []);
      var g2 := ReleaseAll(g1, ctx.cmds);
      var g3 := g2.(ctxs := g2.ctxs[c := reset]);
      ReleaseAllFaulted(g1, ctx.cmds);
      WithCtxInv(g, c);
      DropCmds(g1, c, reset);
      SameAccepted(g, g3);
      var g4 := FrameCtx(ok, g3, c);
      FrameCtxInv(ok, g3, c);
      FrameCtxFaulted(ok, g3, c);
      if g4.faulted { MatchFaulted(ok, g4, c); }
      if !TryMatch(ok, g4, c).faulted {
        FrameCtxGrows(ok, g3, c);
        MatchGrows(ok, g4, c);
      }
    }
  }

  lemma FrameCtxFaulted(ok: Deliver, g: Gate, c: nat)
    requires c in g.ctxs
    ensures g.faulted ==> FrameCtx(ok, g, c).faulted
  {
    hide FrameAll, Cmds, Tail;
    if g.faulted { FrameFaulted(ok, g, c, Cmds(Proxy, g.ctxs[c].buf)); }
  }

  /** RESUME, a poll and dropping a connection settle or change what is held, not what was accepted. */
  lemma QuietGrows(ok: Deliver, g: Gate, c: nat, marker: nat, b: bool)
    requires GateInv(g)
    ensures Grows(g, OnResume(ok, g, marker)) && Grows(g, OnPoll(g, b))
    ensures Grows(g, OnIgnore(g, c)) && Grows(g, OnForget(g, c))
  {
    hide GateInv, Accepted, Replay, ReleaseAll;
    ResumeInv(ok, g, marker);
    SameAccepted(g, OnPoll(g, b));
    SameAccepted(g, OnIgnore(g, c));
    SameAccepted(g, OnForget(g, c));
    ReleaseAllFaulted(WithCtx(g, c), WithCtx(g, c).ctxs[c].cmds);
    if c in g.ctxs { ReleaseAllFaulted(g, g.ctxs[c].cmds); }
  }

  /** Whichever way it goes, a command that is accepted comes last, if what is kept is counted. */
  lemma EmitGrows(ok: Deliver, g: Gate, cmd: Cmd)
    requires g.recBytes == RecBytes(g.rec) && forall i :: 0 <= i < |g.rec| ==> g.rec[i].data != []
    ensures var (r, sent) := Emit(ok, g, cmd); sent ==> Accepted(r) == Accepted(g) + [Rec(cmd.global, cmd.data)]
  {
    var r := Rec(cmd.global, cmd.data);
    RecBytesPositive(g.rec);
    assert Recs(g.settled) + (g.rec + [r]) == Recs(g.settled) + g.rec + [r];
    assert Recs(g.settled + [Emitted(r)]) == Recs(g.settled) + [r];
  }

  /** The bytes of the commands a connection has queued. */
  function QueuedBytes(g: Gate, c: nat): nat {
    if c in g.ctxs then DataBytes(g.ctxs[c].cmds) else 0
  }

  /** Forgetting a connection gives back exactly the bytes of its queued commands, and settles nothing. */
  lemma ForgetExact(g: Gate, c: nat)
    requires GateInv(g) && !g.faulted
    ensures QueuedBytes(g, c) <= g.pending
    ensures OnForget(g, c) == g.(ctxs := g.ctxs - {c}, pending := g.pending - QueuedBytes(g, c))
  {
    hide GateInv, ReleaseAll, DataBytes;
    if c in g.ctxs {
      CtxCounted(g, c);
      ReleaseAllExact(g, g.ctxs[c].cmds);
    } else {
      assert g.ctxs - {c} == g.ctxs;
    }
  }

  /** So does ignoring one. */
  lemma IgnoreExact(g: Gate, c: nat)
    requires GateInv(g) && !g.faulted && !NoRoom(g, c)
    ensures QueuedBytes(g, c) <= g.pending
    ensures OnIgnore(g, c)
      == g.(ctxs := g.ctxs[c := NEW_CTX.(ignored := true)], pending := g.pending - QueuedBytes(g, c))
  {
    hide GateInv, ReleaseAll;
    if c in g.ctxs {
      CtxCounted(g, c);
      ReleaseAllExact(g, g.ctxs[c].cmds);
    } else {
      ReleaseAllExact(WithCtx(g, c), []);
      assert g.ctxs[c := NEW_CTX][c := NEW_CTX.(ignored := true)] == g.ctxs[c := NEW_CTX.(ignored := true)];
    }
  }

  lemma CtxCounted(g: Gate, c: nat)
    requires GateInv(g) && !g.faulted && c in g.ctxs
    ensures DataBytes(g.ctxs[c].cmds) <= g.pending
  {
    hide Consecutive, NoneEmpty, InOrder;
    WeightUpdate(g, c, g.ctxs[c].(cmds := []));
  }
}
