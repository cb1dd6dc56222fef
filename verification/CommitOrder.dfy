/** What the gate keeps between purges, whatever records and messages it is given and in whatever
    order: consecutive acceptance, exact accounting, no overtaking of the recovery queue. */
module CommitOrder {
  import opened Bytes
  import opened Framer
  import opened CommitGate
  import opened Sums

  function CtxBytes(ctx: Ctx): nat {
    DataBytes(ctx.cmds)
  }

  /** The bytes of every command that waits for its descriptor or for an earlier write. */
  ghost function Weight(g: Gate): nat {
    MapSum(g.ctxs, CtxBytes) + DataBytes(g.ready)
  }

  function RecBytes(rec: seq<Rec>): nat {
    if rec == [] then 0 else |rec[0].data| + RecBytes(rec[1..])
  }

  /** The accepted `global_seq` values are consecutive and the next one expected follows them. */
  ghost predicate Consecutive(g: Gate) {
    var a := Accepted(g);
    && (forall i :: 0 <= i < |a| ==> a[i].global == a[0].global + i)
    && (a != [] ==> g.nextGlobal == a[0].global + |a|)
  }

  /** Both counters are exact sums and together within the budget. */
  ghost predicate Counted(g: Gate) {
    && g.pending == Weight(g)
    && g.recBytes == RecBytes(g.rec)
    && g.pending + g.recBytes <= MEMORY_MAX
  }

  ghost predicate NoEmptyCmd(cmds: seq<Cmd>) {
    forall i :: 0 <= i < |cmds| ==> cmds[i].data != []
  }

  ghost predicate NoneEmpty(g: Gate) {
    && NoEmptyCmd(g.ready)
    && (forall i :: 0 <= i < |g.rec| ==> g.rec[i].data != [])
    && (forall c :: c in g.ctxs ==> NoEmptyCmd(g.ctxs[c].cmds))
  }

  predicate InOrder(ready: seq<Cmd>) {
    |ready| <= 1 || (ready[0].global <= ready[1].global && InOrder(ready[1..]))
  }

  /** The gate's invariant until it faults; what holds through a fault is `CommitClosed.Solid`. */
  ghost predicate GateInv(g: Gate) {
    g.faulted || (Consecutive(g) && Counted(g) && NoneEmpty(g) && InOrder(g.ready))
  }

  // ---------------------------------------------------------------- sequences

  lemma {:induction false} DataBytesAppend(a: seq<Cmd>, b: seq<Cmd>)
    ensures DataBytes(a + b) == DataBytes(a) + DataBytes(b)
  {
    if a == [] {
      assert a + b == b;
    } else {
      assert (a + b)[1..] == a[1..] + b;
      DataBytesAppend(a[1..], b);
    }
  }

  lemma {:induction false} RecBytesAppend(a: seq<Rec>, r: Rec)
    ensures RecBytes(a + [r]) == RecBytes(a) + |r.data|
  {
    if a != [] {
      assert (a + [r])[1..] == a[1..] + [r];
      RecBytesAppend(a[1..], r);
    }
  }

  lemma RecBytesPositive(rec: seq<Rec>)
    requires forall i :: 0 <= i < |rec| ==> rec[i].data != []
    ensures RecBytes(rec) > 0 <==> rec != []
  {
  }

  lemma {:induction false} InsertFacts(ready: seq<Cmd>, cmd: Cmd)
    ensures DataBytes(Insert(ready, cmd)) == DataBytes(ready) + |cmd.data|
    ensures InOrder(ready) ==> InOrder(Insert(ready, cmd))
  {
    if ready == [] || ready[0].global >= cmd.global {
      assert Insert(ready, cmd)[1..] == ready;
    } else {
      InsertFacts(ready[1..], cmd);
      assert Insert(ready, cmd)[1..] == Insert(ready[1..], cmd);
    }
  }

  lemma {:induction false} InsertMembers(ready: seq<Cmd>, cmd: Cmd)
    ensures forall x :: x in Insert(ready, cmd) <==> x in ready || x == cmd
  {
    if ready != [] && ready[0].global < cmd.global {
      InsertMembers(ready[1..], cmd);
      assert forall x :: x in ready <==> x == ready[0] || x in ready[1..];
    }
  }

  // ---------------------------------------------------------------- a fault stays

  lemma {:induction false} DrainFaulted(ok: Deliver, g: Gate)
    requires g.faulted
    ensures Drain(ok, g).faulted
    decreases |g.ready|
  {
    if g.ready != [] {
      var cmd := g.ready[0];
      var g0 := if g.nextGlobal == 0 then g.(nextGlobal := cmd.global) else g;
      if cmd.global == g0.nextGlobal {
        var (g1, sent) := Emit(ok, g0.(ready := g0.ready[1..]), cmd);
        if sent {
          DrainFaulted(ok, Release(g1, |cmd.data|).(nextGlobal := g1.nextGlobal + 1));
        }
      }
    }
  }

  lemma {:induction false} MatchFaulted(ok: Deliver, g: Gate, c: nat)
    requires c in g.ctxs && g.faulted
    ensures TryMatch(ok, g, c).faulted
    decreases |g.ctxs[c].cmds|
  {
    var ctx := g.ctxs[c];
    if ctx.cmds != [] && ctx.descs != [] && Matches(ctx.cmds[0], ctx.descs[0]) {
      var g1 := g.(ctxs := g.ctxs[c := ctx.(cmds := ctx.cmds[1..], descs := ctx.descs[1..])]);
      DrainFaulted(ok, g1.(ready := Insert(g1.ready, ctx.cmds[0].(global := ctx.descs[0].global))));
      MatchFaulted(ok, TakePair(ok, g, c), c);
    }
  }

  lemma {:induction false} FrameFaulted(ok: Deliver, g: Gate, c: nat, cmds: seq<bytes>)
    requires c in g.ctxs && g.faulted
    ensures FrameAll(ok, g, c, cmds).faulted
    decreases |cmds|
  {
    if cmds != [] {
      MatchFaulted(ok, Queue(g, c, cmds[0]), c);
      FrameFaulted(ok, FrameOne(ok, g, c, cmds[0]), c, cmds[1..]);
    }
  }

  // ---------------------------------------------------------------- draining

  /** Accepting the head of the ready list puts it behind every write accepted before: emission
      goes past the recovery queue only when that queue is empty. */
  lemma AcceptOrder(ok: Deliver, g: Gate)
    requires !g.faulted && g.ready != [] && g.recBytes == RecBytes(g.rec) && NoneEmpty(g)
    requires Emit(ok, g.(ready := g.ready[1..]), g.ready[0]).1
    ensures Accepted(Emit(ok, g.(ready := g.ready[1..]), g.ready[0]).0)
         == Accepted(g) + [Rec(g.ready[0].global, g.ready[0].data)]
  {
    var r := Rec(g.ready[0].global, g.ready[0].data);
    var g1 := Emit(ok, g.(ready := g.ready[1..]), g.ready[0]).0;
    RecBytesPositive(g.rec);
    if g.rec != [] || g.buffering || g.waitResume {
      assert Recs(g.settled) + (g.rec + [r]) == Recs(g.settled) + g.rec + [r];
    } else {
      assert Recs(g.settled + [Emitted(r)]) == Recs(g.settled) + [r];
    }
  }

  lemma AcceptCount(ok: Deliver, g: Gate)
    requires !g.faulted && g.ready != [] && Counted(g) && NoneEmpty(g) && InOrder(g.ready)
    requires Emit(ok, g.(ready := g.ready[1..]), g.ready[0]).1
    ensures var g2 := Release(Emit(ok, g.(ready := g.ready[1..]), g.ready[0]).0, |g.ready[0].data|);
      !g2.faulted && Counted(g2) && NoneEmpty(g2) && InOrder(g2.ready)
  {
    RecBytesAppend(g.rec, Rec(g.ready[0].global, g.ready[0].data));
  }

  lemma AcceptHead(ok: Deliver, g: Gate)
    requires !g.faulted && GateInv(g) && g.ready != []
    requires g.ready[0].global == g.nextGlobal
    requires Emit(ok, g.(ready := g.ready[1..]), g.ready[0]).1
    ensures var g2 := Release(Emit(ok, g.(ready := g.ready[1..]), g.ready[0]).0, |g.ready[0].data|);
      GateInv(g2.(nextGlobal := g2.nextGlobal + 1))
  {
    hide Accepted, Weight;
    AcceptOrder(ok, g);
    AcceptCount(ok, g);
    var g2 := Release(Emit(ok, g.(ready := g.ready[1..]), g.ready[0]).0, |g.ready[0].data|);
    SameView(g2, g2.nextGlobal + 1);
    SameView(Emit(ok, g.(ready := g.ready[1..]), g.ready[0]).0, g2.nextGlobal);
  }

  lemma SameView(g: Gate, n: nat)
    ensures Accepted(g.(nextGlobal := n)) == Accepted(g)
    ensures Weight(g.(nextGlobal := n)) == Weight(g)
    ensures forall p: nat :: Accepted(g.(pending := p)) == Accepted(g)
  {
  }

  lemma EmitFacts(ok: Deliver, g: Gate, cmd: Cmd)
    ensures Emit(ok, g, cmd).0.ready == g.ready && Emit(ok, g, cmd).0.ctxs == g.ctxs
    ensures !Emit(ok, g, cmd).1 ==> Emit(ok, g, cmd).0.faulted
  {
  }

  lemma {:induction false} DrainInv(ok: Deliver, g: Gate)
    requires GateInv(g)
    ensures GateInv(Drain(ok, g))
    decreases |g.ready|
  {
    hide Consecutive, Counted, NoneEmpty, InOrder, Emit;
    if g.faulted {
      DrainFaulted(ok, g);
    } else if g.ready != [] {
      var cmd := g.ready[0];
      var g0 := if g.nextGlobal == 0 then g.(nextGlobal := cmd.global) else g;
      StartKeeps(g, cmd.global);
      if cmd.global == g0.nextGlobal {
        var (g1, sent) := Emit(ok, g0.(ready := g0.ready[1..]), cmd);
        var g2 := Release(g1, |cmd.data|);
        EmitFacts(ok, g0.(ready := g0.ready[1..]), cmd);
        if sent {
          AcceptHead(ok, g0);
          DrainInv(ok, g2.(nextGlobal := g2.nextGlobal + 1));
        }
      }
    }
  }

  lemma StartKeeps(g: Gate, n: nat)
    requires GateInv(g)
    ensures g.nextGlobal == 0 ==> GateInv(g.(nextGlobal := n))
  {
    if !g.faulted && g.nextGlobal == 0 {
      assert Accepted(g) == [];
      assert Weight(g.(nextGlobal := n)) == Weight(g);
    }
  }

  // ---------------------------------------------------------------- matching and framing

  lemma WeightUpdate(g: Gate, c: nat, ctx: Ctx)
    ensures MapSum(g.ctxs[c := ctx], CtxBytes) + (if c in g.ctxs then DataBytes(g.ctxs[c].cmds) else 0)
         == MapSum(g.ctxs, CtxBytes) + DataBytes(ctx.cmds)
  {
    MapSumUpdate(g.ctxs, CtxBytes, c, ctx);
  }

  /** Replacing a connection's context by one with the same commands changes nothing counted. */
  lemma SwapCtx(g: Gate, c: nat, ctx: Ctx)
    requires GateInv(g)
    requires if c in g.ctxs then ctx.cmds == g.ctxs[c].cmds else ctx.cmds == []
    ensures GateInv(g.(ctxs := g.ctxs[c := ctx]))
  {
    hide Consecutive, InOrder, MapSum;
    if !g.faulted {
      WeightUpdate(g, c, ctx);
      SameOrder(g, g.(ctxs := g.ctxs[c := ctx]));
    }
  }

  lemma SameOrder(g: Gate, g1: Gate)
    requires Consecutive(g)
    requires g1.settled == g.settled && g1.rec == g.rec && g1.nextGlobal == g.nextGlobal
    ensures Consecutive(g1)
  {
  }

  lemma InsertNonEmpty(ready: seq<Cmd>, cmd: Cmd)
    requires NoEmptyCmd(ready) && cmd.data != []
    ensures NoEmptyCmd(Insert(ready, cmd))
  {
    InsertMembers(ready, cmd);
    assert forall x :: x in ready ==> x.data != [];
    assert forall x :: x in Insert(ready, cmd) ==> x.data != [];
  }

  /** The head command of a connection moves, with its `global_seq`, to the ready list. */
  lemma ToReadyInv(g: Gate, c: nat, ctx: Ctx, cmd: Cmd)
    requires GateInv(g) && !g.faulted && c in g.ctxs && g.ctxs[c].cmds != []
    requires ctx.cmds == g.ctxs[c].cmds[1..] && cmd.data == g.ctxs[c].cmds[0].data
    ensures GateInv(g.(ctxs := g.ctxs[c := ctx], ready := Insert(g.ready, cmd)))
  {
    hide Consecutive, InOrder, Insert;
    var g1 := g.(ctxs := g.ctxs[c := ctx], ready := Insert(g.ready, cmd));
    WeightUpdate(g, c, ctx);
    InsertFacts(g.ready, cmd);
    InsertNonEmpty(g.ready, cmd);
    SameOrder(g, g1);
  }

  lemma SkipInv(g: Gate, c: nat, ctx: Ctx)
    requires GateInv(g) && !g.faulted && c in g.ctxs && g.ctxs[c].cmds != []
    requires ctx.cmds == g.ctxs[c].cmds[1..]
    ensures GateInv(Release(g.(ctxs := g.ctxs[c := ctx]), |g.ctxs[c].cmds[0].data|))
  {
    hide Consecutive, InOrder, MapSum;
    var g1 := Release(g.(ctxs := g.ctxs[c := ctx]), |g.ctxs[c].cmds[0].data|);
    WeightUpdate(g, c, ctx);
    SameOrder(g, g1);
  }

  lemma PairInv(ok: Deliver, g: Gate, c: nat)
    requires GateInv(g) && c in g.ctxs && g.ctxs[c].cmds != [] && g.ctxs[c].descs != []
    ensures GateInv(TakePair(ok, g, c))
  {
    hide GateInv, Drain, Insert;
    var ctx := g.ctxs[c];
    var ctx' := ctx.(cmds := ctx.cmds[1..], descs := ctx.descs[1..]);
    var cmd := ctx.cmds[0].(global := ctx.descs[0].global);
    var g2 := g.(ctxs := g.ctxs[c := ctx'], ready := Insert(g.ready, cmd));
    if g.faulted {
      DrainFaulted(ok, g2);
      FaultInv(TakePair(ok, g, c));
    } else if ctx.descs[0].write {
      ToReadyInv(g, c, ctx', cmd);
      DrainInv(ok, g2);
    } else {
      SkipInv(g, c, ctx');
    }
  }

  lemma {:induction false} MatchInv(ok: Deliver, g: Gate, c: nat)
    requires GateInv(g) && c in g.ctxs
    ensures GateInv(TryMatch(ok, g, c))
    decreases |g.ctxs[c].cmds|
  {
    hide GateInv, TakePair, Matches;
    var ctx := g.ctxs[c];
    if ctx.cmds != [] && ctx.descs != [] {
      if Matches(ctx.cmds[0], ctx.descs[0]) {
        PairInv(ok, g, c);
        MatchInv(ok, TakePair(ok, g, c), c);
      } else {
        FaultInv(g);
      }
    }
  }

  lemma FaultInv(g: Gate)
    ensures GateInv(Fault(g))
  {
  }

  /** A command within the budget is queued. */
  lemma QueueInv(g: Gate, c: nat, data: bytes)
    requires GateInv(g) && !g.faulted && c in g.ctxs && data != []
    requires g.pending + |data| + g.recBytes <= MEMORY_MAX
    ensures GateInv(Queue(g, c, data))
  {
    hide Consecutive, InOrder, MapSum;
    var g1 := Queue(g, c, data);
    var cmd := Cmd(g.ctxs[c].nextSeq, 0, data);
    WeightUpdate(g, c, g1.ctxs[c]);
    DataBytesAppend(g.ctxs[c].cmds, [cmd]);
    assert DataBytes([cmd]) == |data|;
    hide DataBytes;
    SameOrder(g, g1);
  }

  lemma FrameOneInv(ok: Deliver, g: Gate, c: nat, data: bytes)
    requires GateInv(g) && c in g.ctxs && data != []
    ensures GateInv(FrameOne(ok, g, c, data))
  {
    hide TryMatch, GateInv;
    var g1 := Queue(g, c, data);
    FaultInv(g1);
    if g.faulted {
      MatchFaulted(ok, g1, c);
      FaultInv(TryMatch(ok, g1, c));
    } else if g1.pending + g1.recBytes <= MEMORY_MAX {
      QueueInv(g, c, data);
      MatchInv(ok, g1, c);
    }
  }

  lemma {:induction false} FrameAllInv(ok: Deliver, g: Gate, c: nat, cmds: seq<bytes>)
    requires GateInv(g) && c in g.ctxs
    requires forall i :: 0 <= i < |cmds| ==> cmds[i] != []
    ensures GateInv(FrameAll(ok, g, c, cmds))
    decreases |cmds|
  {
    hide GateInv, FrameOne;
    if cmds != [] {
      FrameOneInv(ok, g, c, cmds[0]);
      FrameAllInv(ok, FrameOne(ok, g, c, cmds[0]), c, cmds[1..]);
    }
  }

  /** A framer never takes an empty command. */
  lemma {:induction false} RunNonEmpty(side: Side, s: bytes, pos: nat)
    requires pos <= |s|
    ensures forall i :: 0 <= i < |Run(side, s, pos).0| ==> Run(side, s, pos).0[i] != []
    decreases |s| - pos
  {
    hide Step;
    if pos < |s| {
      match Step(side, s, pos)
      case Wait =>
      case Stop(_) =>
      case Skip(n) => RunNonEmpty(side, s, n);
      case Take(n) => RunNonEmpty(side, s, n);
    }
  }

  lemma FrameCtxInv(ok: Deliver, g: Gate, c: nat)
    requires GateInv(g) && c in g.ctxs
    ensures GateInv(FrameCtx(ok, g, c))
  {
    hide GateInv, FrameAll, Run;
    if g.ctxs[c].baseline {
      var buf := g.ctxs[c].buf;
      RunNonEmpty(Proxy, buf, 0);
      FrameAllInv(ok, g, c, Cmds(Proxy, buf));
      var g1 := FrameAll(ok, g, c, Cmds(Proxy, buf));
      SwapCtx(g1, c, g1.ctxs[c].(buf := Tail(Proxy, buf)));
    }
  }

  // ---------------------------------------------------------------- inputs

  lemma WithCtxInv(g: Gate, c: nat)
    requires GateInv(g)
    ensures GateInv(WithCtx(g, c))
  {
    hide GateInv;
    if c !in g.ctxs {
      SwapCtx(g, c, NEW_CTX);
    }
  }

  lemma {:induction false} ReleaseAllExact(g: Gate, cmds: seq<Cmd>)
    requires DataBytes(cmds) <= g.pending
    ensures ReleaseAll(g, cmds) == g.(pending := g.pending - DataBytes(cmds))
    decreases |cmds|
  {
    if cmds != [] {
      ReleaseAllExact(Release(g, |cmds[0].data|), cmds[1..]);
    }
  }

  lemma {:induction false} ReleaseAllFaulted(g: Gate, cmds: seq<Cmd>)
    ensures ReleaseAll(g, cmds).faulted == g.faulted
  {
  }

  /** Dropping a connection's commands takes exactly their bytes off the counter. */
  lemma DropCmds(g: Gate, c: nat, ctx: Ctx)
    requires GateInv(g) && c in g.ctxs && ctx.cmds == []
    ensures GateInv(ReleaseAll(g, g.ctxs[c].cmds).(ctxs := g.ctxs[c := ctx]))
  {
    ReleaseAllFaulted(g, g.ctxs[c].cmds);
    if !g.faulted {
      WeightUpdate(g, c, ctx);
      MapSumSplit(g.ctxs, CtxBytes, c);
      ReleaseAllExact(g, g.ctxs[c].cmds);
      assert Accepted(ReleaseAll(g, g.ctxs[c].cmds).(ctxs := g.ctxs[c := ctx])) == Accepted(g);
    }
  }

  lemma ForgetInv(g: Gate, c: nat)
    requires GateInv(g)
    ensures GateInv(OnForget(g, c))
  {
    if c in g.ctxs {
      ReleaseAllFaulted(g, g.ctxs[c].cmds);
      if !g.faulted {
        MapSumSplit(g.ctxs, CtxBytes, c);
        ReleaseAllExact(g, g.ctxs[c].cmds);
        assert Accepted(OnForget(g, c)) == Accepted(g);
      }
    }
  }

  lemma DescInv(ok: Deliver, g: Gate, c: nat, d: Desc)
    requires GateInv(g)
    ensures GateInv(OnDesc(ok, g, c, d))
  {
    hide GateInv, TryMatch;
    FaultInv(g);
    WithCtxInv(g, c);
    var g1 := WithCtx(g, c);
    var ctx := g1.ctxs[c];
    SwapCtx(g1, c, ctx.(descs := ctx.descs + [d]));
    MatchInv(ok, g1.(ctxs := g1.ctxs[c := ctx.(descs := ctx.descs + [d])]), c);
  }

  lemma RecordInv(ok: Deliver, g: Gate, c: nat, recvSeq: nat, payload: bytes)
    requires GateInv(g)
    ensures GateInv(OnRecord(ok, g, c, recvSeq, payload))
  {
    hide GateInv, TryMatch, FrameCtx;
    FaultInv(g);
    WithCtxInv(g, c);
    var g1 := WithCtx(g, c);
    FaultInv(g1);
    var ctx := g1.ctxs[c];
    var seen := ctx.(lastRecv := recvSeq, recvValid := true);
    FaultInv(g1.(ctxs := g1.ctxs[c := seen]));
    SwapCtx(g1, c, seen.(buf := ctx.buf + payload));
    var g2 := g1.(ctxs := g1.ctxs[c := seen.(buf := ctx.buf + payload)]);
    MatchInv(ok, g2, c);
    FrameCtxInv(ok, g2, c);
  }

  lemma BaselineInv(ok: Deliver, g: Gate, c: nat, next: nat)
    requires GateInv(g)
    ensures GateInv(OnBaseline(ok, g, c, next))
  {
    hide GateInv, TryMatch, FrameCtx, ReleaseAll;
    FaultInv(g);
    WithCtxInv(g, c);
    var g1 := WithCtx(g, c);
    var ctx := g1.ctxs[c];
    var reset := Ctx(if ctx.baseline then [] else ctx.buf, true, false,
                     if next == 0 then 1 else next, 0, false, [], []);
    DropCmds(g1, c, reset);
    var g2 := ReleaseAll(g1, ctx.cmds).(ctxs := g1.ctxs[c := reset]);
    FrameCtxInv(ok, g2, c);
    MatchInv(ok, FrameCtx(ok, g2, c), c);
  }

  lemma IgnoreInv(g: Gate, c: nat)
    requires GateInv(g)
    ensures GateInv(OnIgnore(g, c))
  {
    hide GateInv;
    WithCtxInv(g, c);
    DropCmds(WithCtx(g, c), c, NEW_CTX.(ignored := true));
  }

  // ---------------------------------------------------------------- RESUME

  /** How many of the queue's writes the marker covers. */
  function Covered(rec: seq<Rec>, marker: nat): (k: nat)
    ensures k <= |rec|
  {
    if rec != [] && rec[0].global <= marker then 1 + Covered(rec[1..], marker) else 0
  }

  ghost predicate Rising(rec: seq<Rec>) {
    forall i, j :: 0 <= i < j < |rec| ==> rec[i].global < rec[j].global
  }

  /** RESUME(m) drops exactly the prefix with `global_seq <= m` and emits the rest in order; a
      delivery that fails leaves an emitted prefix of that rest and nothing behind it. */
  lemma {:induction false} ReplayExact(ok: Deliver, rec: seq<Rec>, marker: nat)
    requires Rising(rec)
    ensures var (s, failed) := Replay(ok, rec, marker);
      var k := Covered(rec, marker);
      && Recs(s) <= rec && k <= |s|
      && (forall i :: 0 <= i < |rec| ==> (i < k <==> rec[i].global <= marker))
      && (forall i :: 0 <= i < |s| ==> s[i].Dropped? == (i < k))
      && (failed <==> |s| < |rec|)
      && (failed ==> !ok(rec[|s|].global))
  {
    if rec != [] {
      ReplayExact(ok, rec[1..], marker);
      var rest := Replay(ok, rec[1..], marker).0;
      var s := Replay(ok, rec, marker).0;
      if s != [] {
        assert s[1..] == rest;
        assert Recs(s) == [rec[0]] + Recs(rest);
        forall i | 0 <= i < |s| ensures s[i].Dropped? == (i < Covered(rec, marker)) {
          if i > 0 { assert s[i] == rest[i - 1]; }
        }
      }
      forall i | 0 <= i < |rec| ensures i < Covered(rec, marker) <==> rec[i].global <= marker {
        if i > 0 { assert rec[i] == rec[1..][i - 1]; }
      }
    }
  }

  lemma QueueRises(g: Gate)
    requires !g.faulted && GateInv(g)
    ensures Rising(g.rec)
  {
    var a, n := Accepted(g), |g.settled|;
    forall i | 0 <= i < |g.rec| ensures g.rec[i].global == a[0].global + n + i {
      assert g.rec[i] == a[n + i];
    }
  }

  lemma ResumeInv(ok: Deliver, g: Gate, marker: nat)
    requires GateInv(g)
    ensures GateInv(OnResume(ok, g, marker))
    ensures !OnResume(ok, g, marker).faulted ==> Accepted(OnResume(ok, g, marker)) == Accepted(g)
  {
    hide GateInv, Replay, Accepted, Rising, Recs;
    var g1 := OnResume(ok, g, marker);
    if g1.faulted {
      FaultInv(g1);
    } else {
      QueueRises(g);
      ReplayAll(ok, g.rec, marker);
      RecsAppend(g.settled, Replay(ok, g.rec, marker).0);
      ResumedInv(g, g1);
    }
  }

  lemma RecsAppend(a: seq<Settled>, b: seq<Settled>)
    ensures Recs(a + b) == Recs(a) + Recs(b)
  {
  }

  lemma ReplayAll(ok: Deliver, rec: seq<Rec>, marker: nat)
    requires Rising(rec) && !Replay(ok, rec, marker).1
    ensures Recs(Replay(ok, rec, marker).0) == rec
  {
    ReplayExact(ok, rec, marker);
  }

  lemma ResumedInv(g: Gate, g1: Gate)
    requires GateInv(g) && !g.faulted
    requires g1 == g.(rec := [], recBytes := 0, waitResume := false, settled := g1.settled)
    requires Recs(g1.settled) == Recs(g.settled) + g.rec
    ensures GateInv(g1) && Accepted(g1) == Accepted(g)
  {
    assert Accepted(g1) == Accepted(g);
    assert Weight(g1) == Weight(g);
  }

  // ---------------------------------------------------------------- every run

  datatype Input =
    | Record(cookie: nat, recvSeq: nat, payload: bytes)
    | Descriptor(cookie: nat, desc: Desc)
    | Baseline(cookie: nat, next: nat)
    | Ignore(cookie: nat)
    | Forget(cookie: nat)
    | Resume(marker: nat)
    | Poll(buffering: bool)
    | PurgeAll
    | OutsideFault      // time-out, lost channel, failed allocation

  ghost function Apply(ok: Deliver, g: Gate, i: Input): Gate {
    match i
    case Record(c, n, p) => OnRecord(ok, g, c, n, p)
    case Descriptor(c, d) => OnDesc(ok, g, c, d)
    case Baseline(c, n) => OnBaseline(ok, g, c, n)
    case Ignore(c) => OnIgnore(g, c)
    case Forget(c) => OnForget(g, c)
    case Resume(m) => OnResume(ok, g, m)
    case Poll(b) => OnPoll(g, b)
    case PurgeAll => Purge(g)
    case OutsideFault => Fault(g)
  }

  /** One input, with what the emit callback will answer while it is handled. */
  datatype Turn = Turn(ok: Deliver, input: Input)

  ghost function Play(g: Gate, turns: seq<Turn>): Gate
    decreases |turns|
  {
    if turns == [] then g else Play(Apply(turns[0].ok, g, turns[0].input), turns[1..])
  }

  lemma PollInv(g: Gate, b: bool)
    requires GateInv(g)
    ensures GateInv(OnPoll(g, b))
  {
    hide Consecutive, InOrder, MapSum;
    if !g.faulted { SameOrder(g, OnPoll(g, b)); }
  }

  lemma ApplyInv(ok: Deliver, g: Gate, i: Input)
    requires GateInv(g)
    ensures GateInv(Apply(ok, g, i))
  {
    hide GateInv, OnRecord, OnDesc, OnBaseline, OnIgnore, OnForget, OnResume, OnPoll, Purge;
    match i
    case Record(c, n, p) => RecordInv(ok, g, c, n, p);
    case Descriptor(c, d) => DescInv(ok, g, c, d);
    case Baseline(c, n) => BaselineInv(ok, g, c, n);
    case Ignore(c) => IgnoreInv(g, c);
    case Forget(c) => ForgetInv(g, c);
    case Resume(m) => ResumeInv(ok, g, m);
    case Poll(b) => PollInv(g, b);
    case PurgeAll => PurgeInv(g);
    case OutsideFault => FaultInv(g);
  }

  lemma EmptyInv(buffering: bool)
    ensures GateInv(EmptyGate(buffering))
  {
  }

  lemma PurgeInv(g: Gate)
    ensures GateInv(Purge(g))
  {
  }

  /** COMMIT ORDER.  After any sequence of inputs, in any order and however wrong, a gate that has
      not faulted has accepted consecutive `global_seq` values since its last purge, holds in its
      recovery queue the newest of them, and its byte counters are exact and within 256 MiB. */
  lemma {:induction false} EveryRun(g: Gate, turns: seq<Turn>)
    requires GateInv(g)
    ensures GateInv(Play(g, turns))
    decreases |turns|
  {
    hide GateInv, Apply;
    if turns != [] {
      ApplyInv(turns[0].ok, g, turns[0].input);
      EveryRun(Apply(turns[0].ok, g, turns[0].input), turns[1..]);
    }
  }
}
