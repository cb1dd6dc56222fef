/** Fail closed: what the gate accepts up to a fault, during the input that brings it and after it.  Nothing
    past a missing number gets out. */
module CommitClosed {
  import opened Bytes
  import opened Framer
  import opened Sums
  import opened CommitGate
  import opened CommitOrder

  // ---------------------------------------------------------------- copies of a number

  function InReady(cmds: seq<Cmd>, n: nat): nat {
    if cmds == [] then 0 else (if cmds[0].global == n then 1 else 0) + InReady(cmds[1..], n)
  }

  function InDescs(descs: seq<Desc>, n: nat): nat {
    if descs == [] then 0
    else (if descs[0].write && descs[0].global == n then 1 else 0) + InDescs(descs[1..], n)
  }

  function OfNumber(n: nat): Ctx -> nat {
    (ctx: Ctx) => InDescs(ctx.descs, n)
  }

  /** How often the gate holds number n: in unmatched descriptors and in the ready list. */
  ghost function Copies(g: Gate, n: nat): nat {
    MapSum(g.ctxs, OfNumber(n)) + InReady(g.ready, n)
  }

  ghost predicate Single(g: Gate) {
    Copies(g, 0) == 0 && forall n: nat :: Copies(g, n) <= 1
  }

  ghost predicate Fewer(g: Gate, g1: Gate) {
    forall n: nat :: Copies(g1, n) <= Copies(g, n)
  }

  lemma {:induction false} InsertCount(ready: seq<Cmd>, cmd: Cmd, n: nat)
    ensures InReady(Insert(ready, cmd), n) == InReady(ready, n) + if cmd.global == n then 1 else 0
  {
    if ready == [] || ready[0].global >= cmd.global {
      assert Insert(ready, cmd)[1..] == ready;
    } else {
      InsertCount(ready[1..], cmd, n);
      assert Insert(ready, cmd)[1..] == Insert(ready[1..], cmd);
    }
  }

  lemma {:induction false} InDescsAppend(descs: seq<Desc>, d: Desc, n: nat)
    ensures InDescs(descs + [d], n) == InDescs(descs, n) + if d.write && d.global == n then 1 else 0
  {
    if descs == [] {
      assert [d][1..] == [];
    } else {
      assert (descs + [d])[1..] == descs[1..] + [d];
      InDescsAppend(descs[1..], d, n);
    }
  }

  /** What replacing a connection's context does to the copies. */
  lemma SwapCopies(g: Gate, c: nat, ctx: Ctx, n: nat)
    ensures Copies(g.(ctxs := g.ctxs[c := ctx]), n) + (if c in g.ctxs then InDescs(g.ctxs[c].descs, n) else 0)
         == Copies(g, n) + InDescs(ctx.descs, n)
  {
    MapSumUpdate(g.ctxs, OfNumber(n), c, ctx);
  }

  // ---------------------------------------------------------------- what holds through a fault

  ghost predicate Numbered(a: seq<Rec>) {
    forall i :: 0 <= i < |a| ==> a[i].global == a[0].global + i
  }

  /** The accepted numbers are consecutive; the next one expected follows them, or is the one whose
      acceptance broke the budget, of which there is no other copy. */
  ghost predicate Row(g: Gate) {
    var a := Accepted(g);
    && Numbered(a)
    && (a != [] ==>
          && g.nextGlobal > 0
          && (g.nextGlobal == a[0].global + |a| ||
              (g.faulted && g.nextGlobal == a[0].global + |a| - 1 && Copies(g, g.nextGlobal) == 0)))
  }

  ghost predicate Solid(g: Gate) {
    g.recBytes == RecBytes(g.rec) && NoneEmpty(g) && Single(g) && Row(g)
  }

  lemma HealthySolid(g: Gate)
    requires GateInv(g) && !g.faulted && Single(g)
    ensures Solid(g)
  {
    hide Weight, Copies;
  }

  /** Whatever leaves the accepted writes alone and adds no copy once the gate has faulted. */
  lemma SameRow(g: Gate, g1: Gate)
    requires Solid(g) && NoneEmpty(g1) && Single(g1) && (g.faulted ==> g1.faulted && Fewer(g, g1))
    requires g1.settled == g.settled && g1.rec == g.rec && g1.recBytes == g.recBytes && g1.nextGlobal == g.nextGlobal
    ensures Solid(g1)
  {
    hide Copies;
  }

  lemma FewerSingle(g: Gate, g1: Gate)
    requires Single(g) && Fewer(g, g1)
    ensures Single(g1)
  {
    hide Copies;
  }

  lemma FewerTwice(a: Gate, b: Gate, c: Gate)
    requires Fewer(a, b) && Fewer(b, c)
    ensures Fewer(a, c)
  {
    hide Copies;
  }

  // ---------------------------------------------------------------- draining

  lemma SameCopies(g: Gate, g1: Gate)
    requires g1.ctxs == g.ctxs && g1.ready == g.ready
    ensures forall n: nat :: Copies(g1, n) == Copies(g, n)
  {
  }

  /** The number at the head of the ready list has no other copy. */
  lemma HeadCopies(g: Gate)
    requires Single(g) && g.ready != []
    ensures var g1 := g.(ready := g.ready[1..]);
      g.ready[0].global > 0 && Copies(g, g.ready[0].global) == 1 && Copies(g1, g.ready[0].global) == 0
      && Fewer(g, g1) && Single(g1)
  {
    hide MapSum;
    var n, g1 := g.ready[0].global, g.(ready := g.ready[1..]);
    assert Copies(g, n) == Copies(g1, n) + 1;
    forall k: nat ensures Copies(g1, k) <= Copies(g, k) {}
  }

  lemma AcceptedKept(g: Gate, r: Rec)
    ensures Accepted(g.(rec := g.rec + [r])) == Accepted(g) + [r]
    ensures g.rec == [] ==> Accepted(g.(settled := g.settled + [Emitted(r)])) == Accepted(g) + [r]
  {
    assert Recs(g.settled) + (g.rec + [r]) == Recs(g.settled) + g.rec + [r];
    assert Recs(g.settled + [Emitted(r)]) == Recs(g.settled) + [r];
  }

  lemma SameAccepted(g: Gate, g1: Gate)
    requires g1.rec == g.rec && g1.settled == g.settled
    ensures Accepted(g1) == Accepted(g)
  {
  }

  lemma EmitCounts(ok: Deliver, g: Gate, cmd: Cmd)
    requires g.recBytes == RecBytes(g.rec) && NoneEmpty(g) && cmd.data != []
    ensures var g1 := Emit(ok, g, cmd).0; g1.recBytes == RecBytes(g1.rec) && NoneEmpty(g1)
  {
    RecBytesAppend(g.rec, Rec(cmd.global, cmd.data));
    hide RecBytes;
  }

  /** `pc_emit_cmd`: the write is accepted behind the others, or the gate has faulted without it and keeps
      nothing. */
  lemma EmitOutcome(ok: Deliver, g: Gate, cmd: Cmd)
    requires g.recBytes == RecBytes(g.rec) && NoneEmpty(g)
    ensures var (g1, sent) := Emit(ok, g, cmd);
      && g1.ctxs == g.ctxs && g1.ready == g.ready && g1.nextGlobal == g.nextGlobal
      && (g.faulted || !sent ==> g1.faulted)
      && (Accepted(g1) == Accepted(g) + [Rec(cmd.global, cmd.data)] ||
          (!sent && Accepted(g1) == Accepted(g) && g1.rec == []))
  {
    RecBytesPositive(g.rec);
    hide Accepted, RecBytes, NoneEmpty;
    var r := Rec(cmd.global, cmd.data);
    AcceptedKept(g, r);
    var g1 := Emit(ok, g, cmd).0;
    if g.buffering || g.waitResume || g.recBytes > 0 {
      SameAccepted(g.(rec := g.rec + [r]), g1);
    } else if ok(cmd.global) {
      SameAccepted(g.(settled := g.settled + [Emitted(r)]), g1);
    } else {
      SameAccepted(g, g1);
    }
  }

  /** A write that is next may come behind the others. */
  lemma RowGrows(g: Gate, g1: Gate, r: Rec, sent: bool)
    requires Row(g) && Copies(g, g.nextGlobal) > 0 && r.global == g.nextGlobal > 0
    requires Accepted(g1) == Accepted(g) + [r] || (!sent && Accepted(g1) == Accepted(g))
    requires g1.nextGlobal == g.nextGlobal + (if sent then 1 else 0) && (!sent ==> g1.faulted)
    requires Copies(g1, g.nextGlobal) == 0
    ensures Row(g1)
  {
    hide Copies, Accepted;
  }

  /** The write at the head of the ready list is the one expected. */
  lemma HeadOut(ok: Deliver, g: Gate)
    requires Solid(g) && g.ready != [] && g.ready[0].global == g.nextGlobal
    ensures var (g1, sent) := Emit(ok, g.(ready := g.ready[1..]), g.ready[0]);
      var g2 := Release(g1, |g.ready[0].data|).(nextGlobal := g1.nextGlobal + if sent then 1 else 0);
      Solid(g2) && Fewer(g, g2) && (g.faulted || !sent ==> g2.faulted)
  {
    hide Copies, Emit, Row, RecBytes;
    var cmd, g' := g.ready[0], g.(ready := g.ready[1..]);
    HeadCopies(g);
    EmitCounts(ok, g', cmd);
    EmitOutcome(ok, g', cmd);
    var (g1, sent) := Emit(ok, g', cmd);
    var g2 := Release(g1, |cmd.data|).(nextGlobal := g1.nextGlobal + if sent then 1 else 0);
    SameCopies(g', g2);
    RowGrows(g, g2, Rec(cmd.global, cmd.data), sent);
  }

  lemma {:induction false} DrainSolid(ok: Deliver, g: Gate)
    requires Solid(g)
    ensures var r := Drain(ok, g); Solid(r) && Fewer(g, r) && (g.faulted ==> r.faulted)
    decreases |g.ready|
  {
    hide Solid, Fewer, Emit;
    var g0 := if g.nextGlobal == 0 && g.ready != [] then g.(nextGlobal := g.ready[0].global) else g;
    Adopted(g);
    Reflexive(g);
    if g.ready != [] {
      var cmd := g.ready[0];
      if cmd.global < g0.nextGlobal {
        FaultSolid(g0);
        FewerTwice(g, g0, Fault(g0));
      } else if cmd.global == g0.nextGlobal {
        HeadOut(ok, g0);
        var (g1, sent) := Emit(ok, g0.(ready := g0.ready[1..]), cmd);
        EmitFacts(ok, g0.(ready := g0.ready[1..]), cmd);
        var g2 := Release(g1, |cmd.data|);
        var g3 := g2.(nextGlobal := g1.nextGlobal + if sent then 1 else 0);
        FewerTwice(g, g0, g3);
        if sent {
          DrainSolid(ok, g3);
          FewerTwice(g, g3, Drain(ok, g3));
        } else {
          assert g3 == g2;
        }
      }
    }
  }

  lemma Reflexive(g: Gate)
    ensures Fewer(g, g)
  {
  }

  lemma Adopted(g: Gate)
    requires Solid(g)
    ensures var g0 := if g.nextGlobal == 0 && g.ready != [] then g.(nextGlobal := g.ready[0].global) else g;
      Solid(g0) && Fewer(g, g0)
  {
    hide MapSum;
    var g0 := if g.nextGlobal == 0 && g.ready != [] then g.(nextGlobal := g.ready[0].global) else g;
    SameCopies(g, g0);
    hide Copies;
  }

  lemma FaultSolid(g: Gate)
    requires Solid(g)
    ensures Solid(Fault(g)) && Fewer(g, Fault(g))
  {
    hide MapSum;
    SameCopies(g, Fault(g));
    FewerSingle(g, Fault(g));
    SameRow(g, Fault(g));
  }

  // ---------------------------------------------------------------- matching and framing

  /** A matched pair leaves its queues; a WRITE takes its number along to the ready list. */
  lemma PairCopies(g: Gate, c: nat, ctx: Ctx, cmd: Cmd, n: nat)
    requires c in g.ctxs && g.ctxs[c].descs != [] && ctx.descs == g.ctxs[c].descs[1..]
    requires cmd.global == g.ctxs[c].descs[0].global
    ensures Copies(g.(ctxs := g.ctxs[c := ctx]), n) <= Copies(g, n)
    ensures g.ctxs[c].descs[0].write ==>
      Copies(g.(ctxs := g.ctxs[c := ctx], ready := Insert(g.ready, cmd)), n) == Copies(g, n)
  {
    hide MapSum, Insert;
    SwapCopies(g, c, ctx, n);
    InsertCount(g.ready, cmd, n);
  }

  lemma PairSolid(ok: Deliver, g: Gate, c: nat)
    requires Solid(g) && c in g.ctxs && g.ctxs[c].cmds != [] && g.ctxs[c].descs != []
    ensures var r := TakePair(ok, g, c); Solid(r) && Fewer(g, r) && (g.faulted ==> r.faulted)
  {
    hide Copies, Drain, Insert, Row, RecBytes;
    var ctx := g.ctxs[c];
    var ctx' := ctx.(cmds := ctx.cmds[1..], descs := ctx.descs[1..]);
    var cmd := ctx.cmds[0].(global := ctx.descs[0].global);
    var g1 := g.(ctxs := g.ctxs[c := ctx']);
    forall n: nat ensures Copies(g1, n) <= Copies(g, n) { PairCopies(g, c, ctx', cmd, n); }
    if ctx.descs[0].write {
      var g2 := g1.(ready := Insert(g.ready, cmd));
      forall n: nat ensures Copies(g2, n) <= Copies(g, n) { PairCopies(g, c, ctx', cmd, n); }
      InsertNonEmpty(g.ready, cmd);
      SameRow(g, g2);
      DrainSolid(ok, g2);
      FewerTwice(g, g2, Drain(ok, g2));
    } else {
      var r := Release(g1, |cmd.data|);
      SameCopies(g1, r);
      SameRow(g, r);
    }
  }

  lemma {:induction false} MatchSolid(ok: Deliver, g: Gate, c: nat)
    requires Solid(g) && c in g.ctxs
    ensures var r := TryMatch(ok, g, c); Solid(r) && Fewer(g, r) && (g.faulted ==> r.faulted)
    decreases |g.ctxs[c].cmds|
  {
    hide Solid, Fewer, TakePair, Matches;
    Reflexive(g);
    FaultSolid(g);
    var ctx := g.ctxs[c];
    if ctx.cmds != [] && ctx.descs != [] && Matches(ctx.cmds[0], ctx.descs[0]) {
      PairSolid(ok, g, c);
      MatchSolid(ok, TakePair(ok, g, c), c);
      FewerTwice(g, TakePair(ok, g, c), TryMatch(ok, g, c));
    }
  }

  /** A context with the same descriptors and no empty command. */
  lemma SwapSolid(g: Gate, c: nat, ctx: Ctx)
    requires Solid(g) && NoEmptyCmd(ctx.cmds)
    requires ctx.descs == (if c in g.ctxs then g.ctxs[c].descs else []) || ctx.descs == []
    ensures var r := g.(ctxs := g.ctxs[c := ctx]); Solid(r) && Fewer(g, r)
  {
    hide Copies, Row, RecBytes;
    var r := g.(ctxs := g.ctxs[c := ctx]);
    forall n: nat ensures Copies(r, n) <= Copies(g, n) { SwapCopies(g, c, ctx, n); }
    SameRow(g, r);
  }

  lemma PendingSolid(g: Gate, p: nat)
    requires Solid(g)
    ensures Solid(g.(pending := p)) && Fewer(g, g.(pending := p))
  {
    hide MapSum, Row, RecBytes;
    SameCopies(g, g.(pending := p));
    SameRow(g, g.(pending := p));
  }

  lemma QueueNonEmpty(g: Gate, c: nat, data: bytes)
    requires NoneEmpty(g) && c in g.ctxs && data != []
    ensures NoEmptyCmd(Queue(g, c, data).ctxs[c].cmds)
  {
  }

  lemma QueueSolid(g: Gate, c: nat, data: bytes)
    requires Solid(g) && c in g.ctxs && data != []
    ensures Solid(Queue(g, c, data)) && Fewer(g, Queue(g, c, data))
  {
    hide Fewer, Row, RecBytes, Single, NoneEmpty;
    var g0, g1 := g.(pending := g.pending + |data|), Queue(g, c, data);
    QueueNonEmpty(g, c, data);
    PendingSolid(g, g.pending + |data|);
    SwapSolid(g0, c, g1.ctxs[c]);
    FewerTwice(g, g0, g1);
  }

  lemma FrameOneSolid(ok: Deliver, g: Gate, c: nat, data: bytes)
    requires Solid(g) && c in g.ctxs && data != []
    ensures var r := FrameOne(ok, g, c, data); Solid(r) && Fewer(g, r) && (g.faulted ==> r.faulted)
  {
    hide Solid, Fewer, TryMatch;
    var g1 := Queue(g, c, data);
    QueueSolid(g, c, data);
    FaultSolid(g1);
    MatchSolid(ok, g1, c);
    FewerTwice(g, g1, FrameOne(ok, g, c, data));
  }

  lemma {:induction false} FrameAllSolid(ok: Deliver, g: Gate, c: nat, cmds: seq<bytes>)
    requires Solid(g) && c in g.ctxs && forall i :: 0 <= i < |cmds| ==> cmds[i] != []
    ensures var r := FrameAll(ok, g, c, cmds); Solid(r) && Fewer(g, r) && (g.faulted ==> r.faulted)
    decreases |cmds|
  {
    hide Solid, Fewer, FrameOne;
    Reflexive(g);
    if cmds != [] {
      FrameOneSolid(ok, g, c, cmds[0]);
      FrameAllSolid(ok, FrameOne(ok, g, c, cmds[0]), c, cmds[1..]);
      FewerTwice(g, FrameOne(ok, g, c, cmds[0]), FrameAll(ok, g, c, cmds));
    }
  }

  lemma FrameCtxSolid(ok: Deliver, g: Gate, c: nat)
    requires Solid(g) && c in g.ctxs
    ensures var r := FrameCtx(ok, g, c); Solid(r) && Fewer(g, r) && (g.faulted ==> r.faulted)
  {
    var buf := g.ctxs[c].buf;
    var g1 := FrameAll(ok, g, c, Cmds(Proxy, buf));
    RunNonEmpty(Proxy, buf, 0);
    FrameAllSolid(ok, g, c, Cmds(Proxy, buf));
    assert NoEmptyCmd(g1.ctxs[c].cmds);
    hide Solid, Fewer, FrameAll, Run;
    Reflexive(g);
    SwapSolid(g1, c, g1.ctxs[c].(buf := Tail(Proxy, buf)));
    FewerTwice(g, g1, g1.(ctxs := g1.ctxs[c := g1.ctxs[c].(buf := Tail(Proxy, buf))]));
  }

  // ---------------------------------------------------------------- inputs

  lemma WithCtxSolid(g: Gate, c: nat)
    requires Solid(g)
    ensures Solid(WithCtx(g, c)) && Fewer(g, WithCtx(g, c))
    ensures NoEmptyCmd(WithCtx(g, c).ctxs[c].cmds)
  {
    assert c in g.ctxs ==> NoEmptyCmd(g.ctxs[c].cmds);
    hide Solid, Fewer;
    Reflexive(g);
    SwapSolid(g, c, NEW_CTX);
  }

  lemma RecordSolid(ok: Deliver, g: Gate, c: nat, recvSeq: nat, payload: bytes)
    requires Solid(g)
    ensures var r := OnRecord(ok, g, c, recvSeq, payload); Solid(r) && Fewer(g, r)
  {
    hide Solid, Fewer, TryMatch, FrameCtx;
    Reflexive(g);
    FaultSolid(g);
    WithCtxSolid(g, c);
    var g1 := WithCtx(g, c);
    var ctx := g1.ctxs[c];
    var seen := ctx.(lastRecv := recvSeq, recvValid := true);
    var g2 := g1.(ctxs := g1.ctxs[c := seen]);
    var g3 := g1.(ctxs := g1.ctxs[c := seen.(buf := ctx.buf + payload)]);
    FaultSolid(g1);
    SwapSolid(g1, c, seen);
    FaultSolid(g2);
    SwapSolid(g1, c, seen.(buf := ctx.buf + payload));
    MatchSolid(ok, g3, c);
    FrameCtxSolid(ok, g3, c);
    FewerTwice(g, g1, Fault(g1));
    FewerTwice(g, g1, g2);
    FewerTwice(g, g2, Fault(g2));
    FewerTwice(g, g1, g3);
    FewerTwice(g, g3, TryMatch(ok, g3, c));
    FewerTwice(g, g3, FrameCtx(ok, g3, c));
  }

  lemma BaselineSolid(ok: Deliver, g: Gate, c: nat, next: nat)
    requires Solid(g)
    ensures var r := OnBaseline(ok, g, c, next); Solid(r) && Fewer(g, r)
  {
    hide Solid, Fewer, TryMatch, FrameCtx, ReleaseAll;
    FaultSolid(g);
    if !NoRoom(g, c) {
      WithCtxSolid(g, c);
      var g1 := WithCtx(g, c);
      var ctx := g1.ctxs[c];
      var reset := Ctx(if ctx.baseline then [] else ctx.buf, true, false,
                       if next == 0 then 1 else next, 0, false, [], []);
      var g2 := ReleaseAll(g1, ctx.cmds);
      PendingSolid(g1, g2.pending);
      var g3 := g2.(ctxs := g2.ctxs[c := reset]);
      SwapSolid(g2, c, reset);
      FrameCtxSolid(ok, g3, c);
      MatchSolid(ok, FrameCtx(ok, g3, c), c);
      FewerTwice(g, g1, g2);
      FewerTwice(g, g2, g3);
      FewerTwice(g, g3, FrameCtx(ok, g3, c));
      FewerTwice(g, FrameCtx(ok, g3, c), OnBaseline(ok, g, c, next));
    }
  }

  lemma IgnoreSolid(g: Gate, c: nat)
    requires Solid(g)
    ensures Solid(OnIgnore(g, c)) && Fewer(g, OnIgnore(g, c))
  {
    hide Solid, Fewer, ReleaseAll;
    Reflexive(g);
    if !NoRoom(g, c) {
      WithCtxSolid(g, c);
      var g1 := WithCtx(g, c);
      var g2 := ReleaseAll(g1, g1.ctxs[c].cmds);
      PendingSolid(g1, g2.pending);
      SwapSolid(g2, c, NEW_CTX.(ignored := true));
      FewerTwice(g, g1, g2);
      FewerTwice(g, g2, OnIgnore(g, c));
    }
  }

  lemma ForgetSolid(g: Gate, c: nat)
    requires Solid(g)
    ensures Solid(OnForget(g, c)) && Fewer(g, OnForget(g, c))
  {
    hide Row, RecBytes, ReleaseAll;
    var r := OnForget(g, c);
    forall n: nat ensures Copies(r, n) <= Copies(g, n) {
      if c in g.ctxs { MapSumSplit(g.ctxs, OfNumber(n), c); }
    }
    hide Copies;
    SameRow(g, r);
  }

  /** A descriptor with a number the gate does not hold yet. */
  lemma DescSolid(ok: Deliver, g: Gate, c: nat, d: Desc)
    requires Solid(g) && !g.faulted && (d.write ==> d.global > 0 && Copies(g, d.global) == 0)
    ensures var r := OnDesc(ok, g, c, d);
      Solid(r) && forall n: nat :: Copies(r, n) <= Copies(g, n) + if d.write && d.global == n then 1 else 0
  {
    hide Copies, Row, RecBytes, TryMatch;
    FaultSolid(g);
    WithCtxSolid(g, c);
    var g1 := WithCtx(g, c);
    var ctx := g1.ctxs[c];
    var g2 := g1.(ctxs := g1.ctxs[c := ctx.(descs := ctx.descs + [d])]);
    forall n: nat ensures Copies(g2, n) == Copies(g1, n) + if d.write && d.global == n then 1 else 0 {
      SwapCopies(g1, c, ctx.(descs := ctx.descs + [d]), n);
      InDescsAppend(ctx.descs, d, n);
    }
    SameRow(g1, g2);
    MatchSolid(ok, g2, c);
  }

  // ---------------------------------------------------------------- RESUME

  /** RESUME takes a beginning of the recovery queue over and lets the rest go only when it faults. */
  lemma ResumeTakes(ok: Deliver, g: Gate, marker: nat)
    ensures var r := OnResume(ok, g, marker);
      && g.settled <= r.settled && Accepted(r) <= Accepted(g)
      && (!r.faulted ==> Accepted(r) == Accepted(g))
  {
    hide Replay;
    var s := Replay(ok, g.rec, marker).0;
    ReplayBegins(ok, g.rec, marker);
    RecsAppend(g.settled, s);
    assert Recs(g.settled + s) + [] == Recs(g.settled) + Recs(s);
  }

  lemma {:induction false} ReplayBegins(ok: Deliver, rec: seq<Rec>, marker: nat)
    ensures var (s, failed) := Replay(ok, rec, marker); Recs(s) <= rec && (!failed ==> Recs(s) == rec)
  {
    if rec != [] {
      ReplayBegins(ok, rec[1..], marker);
      var s := Replay(ok, rec, marker).0;
      if s != [] { assert s[1..] == Replay(ok, rec[1..], marker).0; }
    }
  }

  // ---------------------------------------------------------------- after a fault

  /** Without descriptors nothing is matched. */
  lemma {:induction false} FrameUnmatched(ok: Deliver, g: Gate, c: nat, cmds: seq<bytes>)
    requires c in g.ctxs && g.ctxs[c].descs == []
    ensures var r := FrameAll(ok, g, c, cmds);
      r.settled == g.settled && r.rec == g.rec && r.ctxs[c].descs == []
    decreases |cmds|
  {
    hide Matches, TakePair;
    if cmds != [] {
      FrameUnmatched(ok, FrameOne(ok, g, c, cmds[0]), c, cmds[1..]);
    }
  }

  lemma BaselineUnmatched(ok: Deliver, g: Gate, c: nat, n: nat)
    ensures var r := OnBaseline(ok, g, c, n); r.settled == g.settled && r.rec == g.rec
  {
    hide FrameAll, Cmds, Tail, ReleaseAll;
    if !NoRoom(g, c) {
      var g1 := WithCtx(g, c);
      var ctx := g1.ctxs[c];
      var reset := Ctx(if ctx.baseline then [] else ctx.buf, true, false, if n == 0 then 1 else n, 0, false, [], []);
      var g2 := ReleaseAll(g1, ctx.cmds);
      FrameUnmatched(ok, g2.(ctxs := g2.ctxs[c := reset]), c, Cmds(Proxy, reset.buf));
    }
  }

  /** NOTHING NEW AFTER A FAULT.  Whatever a faulted gate is given, short of a purge, it accepts nothing: a
      RESUME may still deliver what was kept before the fault, in order, up to the first that fails. */
  lemma FaultedTurn(ok: Deliver, g: Gate, i: Input)
    requires g.faulted && !i.PurgeAll?
    ensures var r := Apply(ok, g, i);
      r.faulted && g.settled <= r.settled && Accepted(r) <= Accepted(g)
  {
    hide OnBaseline, OnResume, Accepted, ReleaseAll;
    var r := Apply(ok, g, i);
    match i
    case Resume(m) => ResumeTakes(ok, g, m); ResumeFaulted(ok, g, m);
    case Baseline(c, n) =>
      BaselineUnmatched(ok, g, c, n);
      BaselineStays(ok, g, c, n);
      SameAccepted(g, r);
    case _ => SameAccepted(g, r);
  }

  lemma ResumeFaulted(ok: Deliver, g: Gate, m: nat)
    requires g.faulted
    ensures OnResume(ok, g, m).faulted
  {
  }

  lemma BaselineStays(ok: Deliver, g: Gate, c: nat, n: nat)
    requires g.faulted
    ensures OnBaseline(ok, g, c, n).faulted
  {
    hide FrameAll, TryMatch, ReleaseAll, Cmds, Tail;
    if !NoRoom(g, c) {
      var g1 := WithCtx(g, c);
      var ctx := g1.ctxs[c];
      var reset := Ctx(if ctx.baseline then [] else ctx.buf, true, false, if n == 0 then 1 else n, 0, false, [], []);
      var g2 := ReleaseAll(g1, ctx.cmds);
      var g3 := g2.(ctxs := g2.ctxs[c := reset]);
      FrameFaulted(ok, g3, c, Cmds(Proxy, reset.buf));
      MatchFaulted(ok, FrameCtx(ok, g3, c), c);
    }
  }

  predicate NoPurge(turns: seq<Turn>) {
    forall i :: 0 <= i < |turns| ==> !turns[i].input.PurgeAll?
  }

  /** FAIL CLOSED.  For every input sequence without a purge, however wrong: what a faulted gate has
      delivered by its end is a beginning of what it had accepted when it faulted. */
  lemma {:induction false} FaultedRun(g: Gate, turns: seq<Turn>)
    requires g.faulted && NoPurge(turns)
    ensures var r := Play(g, turns);
      r.faulted && g.settled <= r.settled && Accepted(r) <= Accepted(g)
    decreases |turns|
  {
    hide Apply, Accepted;
    if turns != [] {
      FaultedTurn(turns[0].ok, g, turns[0].input);
      FaultedRun(Apply(turns[0].ok, g, turns[0].input), turns[1..]);
    }
  }
}
