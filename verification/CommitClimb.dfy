/** A gate with room to spare whose next writes have rising numbers does not fault. */
module CommitClimb {
  import opened Bytes
  import opened Framer
  import opened CommitGate
  import CommitOrder
  import opened CommitMatch
  import opened CommitReactor

  /** Every delivery succeeds. */
  const ALWAYS: Deliver := (n: nat) => true

  /** The bytes the gate answers for. */
  function Load(g: Gate): nat {
    g.pending + g.recBytes
  }

  /** No command is longer than the buffer of a connection. */
  ghost predicate Slim(cmds: seq<bytes>) {
    forall i :: 0 <= i < |cmds| ==> |cmds[i]| <= CTX_BUF_CAP
  }

  /** The writes that wait, and after them those announced by `descs`, have rising numbers none of which is
      below the next one expected. */
  ghost predicate Climbs(g: Gate, descs: seq<Desc>) {
    && Rising(descs)
    && (forall i :: 0 <= i < |g.ready| ==> |g.ready[i].data| <= CTX_BUF_CAP)
    && (forall i :: 0 <= i < |g.ready| ==> 0 < g.ready[i].global && g.nextGlobal <= g.ready[i].global)
    && (forall i, j :: 0 <= i < j < |g.ready| ==> g.ready[i].global < g.ready[j].global)
    && (forall k :: 0 <= k < |descs| && descs[k].write ==> 0 < descs[k].global && g.nextGlobal <= descs[k].global)
    && (forall i, k :: 0 <= i < |g.ready| && 0 <= k < |descs| && descs[k].write ==> g.ready[i].global < descs[k].global)
  }

  lemma EmitLight(g: Gate, cmd: Cmd)
    requires !g.faulted && Load(g) + |cmd.data| <= MEMORY_MAX
    ensures var (r, sent) := Emit(ALWAYS, g, cmd);
      && sent && !r.faulted && r.ready == g.ready && r.nextGlobal == g.nextGlobal
      && r.pending == g.pending && r.recBytes <= g.recBytes + |cmd.data|
  {
  }

  /** A command that waits has its bytes counted. */
  lemma HeadCounted(g: Gate)
    requires CommitOrder.GateInv(g) && !g.faulted && g.ready != []
    ensures |g.ready[0].data| <= g.pending
  {
    hide CommitOrder.Consecutive, CommitOrder.NoneEmpty, CommitOrder.InOrder;
  }

  lemma {:induction false} DrainClimbs(g: Gate, descs: seq<Desc>)
    requires CommitOrder.GateInv(g) && !g.faulted && Climbs(g, descs) && Load(g) + CTX_BUF_CAP <= MEMORY_MAX
    ensures var r := Drain(ALWAYS, g); !r.faulted && Climbs(r, descs) && Load(r) <= Load(g)
    decreases |g.ready|
  {
    hide CommitOrder.GateInv, Emit, Rising;
    if g.ready != [] {
      var cmd := g.ready[0];
      var g0 := if g.nextGlobal == 0 then g.(nextGlobal := cmd.global) else g;
      CommitOrder.StartKeeps(g, cmd.global);
      if cmd.global == g0.nextGlobal {
        HeadCounted(g);
        EmitLight(g0.(ready := g0.ready[1..]), cmd);
        CommitOrder.AcceptHead(ALWAYS, g0);
        var g2 := Release(Emit(ALWAYS, g0.(ready := g0.ready[1..]), cmd).0, |cmd.data|);
        var g3 := g2.(nextGlobal := g2.nextGlobal + 1);
        HeadGone(g0, g3, descs);
        DrainClimbs(g3, descs);
      }
    }
  }

  lemma HeadGone(g: Gate, r: Gate, descs: seq<Desc>)
    requires Climbs(g, descs) && g.ready != [] && r.ready == g.ready[1..] && r.nextGlobal == g.ready[0].global + 1
    ensures Climbs(r, descs)
  {
    hide Rising;
    forall i | 0 <= i < |r.ready| ensures r.ready[i] == g.ready[i + 1] {}
  }

  /** A write with a number above all others goes to the end of the ready list. */
  lemma {:induction false} InsertLast(ready: seq<Cmd>, cmd: Cmd)
    requires forall i :: 0 <= i < |ready| ==> ready[i].global < cmd.global
    ensures Insert(ready, cmd) == ready + [cmd]
  {
    if ready != [] {
      InsertLast(ready[1..], cmd);
      assert ready == [ready[0]] + ready[1..];
    }
  }

  lemma PairClimbs(g: Gate, c: nat)
    requires CommitOrder.GateInv(g) && !g.faulted && c in g.ctxs && g.ctxs[c].cmds != [] && g.ctxs[c].descs != []
    requires Climbs(g, g.ctxs[c].descs) && Load(g) + CTX_BUF_CAP <= MEMORY_MAX
    requires |g.ctxs[c].cmds[0].data| <= CTX_BUF_CAP
    ensures var r := TakePair(ALWAYS, g, c);
      !r.faulted && Climbs(r, g.ctxs[c].descs[1..]) && Load(r) <= Load(g)
  {
    hide CommitOrder.GateInv, Drain, Insert;
    var ctx := g.ctxs[c];
    var ctx' := ctx.(cmds := ctx.cmds[1..], descs := ctx.descs[1..]);
    var d := ctx.descs[0];
    DescGone(g, ctx.descs);
    if d.write {
      var cmd := ctx.cmds[0].(global := d.global);
      var g2 := g.(ctxs := g.ctxs[c := ctx'], ready := Insert(g.ready, cmd));
      InsertLast(g.ready, cmd);
      CommitOrder.ToReadyInv(g, c, ctx', cmd);
      DrainClimbs(g2, ctx'.descs);
    }
  }

  lemma DescGone(g: Gate, descs: seq<Desc>)
    requires Climbs(g, descs) && descs != []
    ensures Climbs(g, descs[1..])
    ensures descs[0].write ==> forall cmd: Cmd :: cmd.global == descs[0].global && |cmd.data| <= CTX_BUF_CAP ==>
      Climbs(g.(ready := g.ready + [cmd]), descs[1..])
  {
    forall j, k | 0 <= j < k < |descs[1..]| && descs[1..][j].write && descs[1..][k].write
      ensures descs[1..][j].global < descs[1..][k].global
    {
      assert descs[1..][j] == descs[j + 1] && descs[1..][k] == descs[k + 1];
    }
  }

  /** Matching: the heads always belong together, and the numbers rise. */
  lemma {:induction false} MatchClimbs(g: Gate, c: nat, first: nat, framed: seq<bytes>, got: seq<Desc>,
                                       base: nat, log: seq<bytes>)
    requires CommitOrder.GateInv(g) && !g.faulted && c in g.ctxs && Load(g) + CTX_BUF_CAP <= MEMORY_MAX
    requires Aligned(g.ctxs[c], first, framed, got) && Honest(first, framed, got, base, log)
    requires Climbs(g, g.ctxs[c].descs) && Slim(framed)
    ensures var r := TryMatch(ALWAYS, g, c);
      !r.faulted && Climbs(r, r.ctxs[c].descs) && Load(r) <= Load(g) && CommitOrder.GateInv(r)
    decreases |g.ctxs[c].cmds|
  {
    hide CommitOrder.GateInv, TakePair, Matches, Aligned, Honest, Climbs;
    var ctx := g.ctxs[c];
    if ctx.cmds != [] && ctx.descs != [] {
      HeadsMatch(ctx, first, framed, got, base, log);
      HeadSlim(ctx, first, framed, got);
      PairClimbs(g, c);
      CommitOrder.PairInv(ALWAYS, g, c);
      MatchClimbs(TakePair(ALWAYS, g, c), c, first, framed, got, base, log);
    }
  }

  lemma HeadSlim(ctx: Ctx, first: nat, framed: seq<bytes>, got: seq<Desc>)
    requires Aligned(ctx, first, framed, got) && Slim(framed) && ctx.cmds != []
    ensures |ctx.cmds[0].data| <= CTX_BUF_CAP
  {
    assert ctx.cmds[0] == Cmd(first + (|framed| - |ctx.cmds|) + 0, 0, framed[|framed| - |ctx.cmds| + 0]);
  }

  lemma FrameOneClimbs(g: Gate, c: nat, data: bytes, first: nat, framed: seq<bytes>, got: seq<Desc>,
                       base: nat, log: seq<bytes>)
    requires CommitOrder.GateInv(g) && !g.faulted && c in g.ctxs && data != []
    requires Load(g) + |data| + CTX_BUF_CAP <= MEMORY_MAX && Slim(framed + [data])
    requires Aligned(g.ctxs[c], first, framed, got) && Honest(first, framed + [data], got, base, log)
    requires Climbs(g, g.ctxs[c].descs)
    ensures var r := FrameOne(ALWAYS, g, c, data);
      && !r.faulted && Climbs(r, r.ctxs[c].descs) && Load(r) <= Load(g) + |data| && CommitOrder.GateInv(r)
  {
    hide CommitOrder.GateInv, TryMatch, Honest;
    var g1 := Queue(g, c, data);
    var ctx, ctx1, framed1 := g.ctxs[c], g1.ctxs[c], framed + [data];
    var m := |framed| - |ctx.cmds|;
    forall i | 0 <= i < |ctx1.cmds| ensures ctx1.cmds[i] == Cmd(first + m + i, 0, framed1[m + i]) {}
    assert Aligned(ctx1, first, framed1, got);
    CommitOrder.QueueInv(g, c, data);
    SameClimbs(g, g1, ctx.descs);
    MatchClimbs(g1, c, first, framed1, got, base, log);
  }

  lemma SameClimbs(g: Gate, g1: Gate, descs: seq<Desc>)
    requires Climbs(g, descs) && g1.ready == g.ready && g1.nextGlobal == g.nextGlobal
    ensures Climbs(g1, descs)
  {
    hide Rising;
  }

  lemma {:induction false} FrameClimbs(g: Gate, c: nat, cmds: seq<bytes>, first: nat, framed: seq<bytes>,
                                       got: seq<Desc>,
                                       base: nat, log: seq<bytes>)
    requires CommitOrder.GateInv(g) && !g.faulted && c in g.ctxs
    requires Load(g) + |Flatten(cmds)| + CTX_BUF_CAP <= MEMORY_MAX && Slim(framed + cmds)
    requires forall i :: 0 <= i < |cmds| ==> cmds[i] != []
    requires Aligned(g.ctxs[c], first, framed, got) && Honest(first, framed + cmds, got, base, log)
    requires Climbs(g, g.ctxs[c].descs) && Committed(g, base, log)
    ensures var r := FrameAll(ALWAYS, g, c, cmds);
      && !r.faulted && Climbs(r, r.ctxs[c].descs) && Load(r) <= Load(g) + |Flatten(cmds)| && CommitOrder.GateInv(r)
    decreases |cmds|
  {
    hide CommitOrder.GateInv, FrameOne, Honest, Aligned, Committed, Climbs, Slim;
    if cmds != [] {
      var framed1 := framed + [cmds[0]];
      assert framed1 + cmds[1..] == framed + cmds;
      HonestPrefix(first, framed1, cmds[1..], got, base, log);
      assert Slim(framed1) by { SlimPrefix(framed1, framed + cmds); }
      FrameOneClimbs(g, c, cmds[0], first, framed, got, base, log);
      FrameOneAligned(ALWAYS, g, c, cmds[0], first, framed, got, base, log);
      FrameClimbs(FrameOne(ALWAYS, g, c, cmds[0]), c, cmds[1..], first, framed1, got, base, log);
    }
  }

  lemma SlimPrefix(a: seq<bytes>, b: seq<bytes>)
    requires a <= b && Slim(b)
    ensures Slim(a)
  {
    forall i | 0 <= i < |a| ensures |a[i]| <= CTX_BUF_CAP { assert a[i] == b[i]; }
  }

  /** All the bytes of a context's buffer are framed. */
  lemma FrameCtxClimbs(g: Gate, c: nat, first: nat, framed: seq<bytes>, got: seq<Desc>, base: nat, log: seq<bytes>)
    requires CommitOrder.GateInv(g) && !g.faulted && c in g.ctxs && g.ctxs[c].baseline
    requires Load(g) + |g.ctxs[c].buf| + CTX_BUF_CAP <= MEMORY_MAX && Slim(framed + Cmds(Proxy, g.ctxs[c].buf))
    requires Climbs(g, g.ctxs[c].descs) && Committed(g, base, log) && Aligned(g.ctxs[c], first, framed, got)
    requires Honest(first, framed + Cmds(Proxy, g.ctxs[c].buf), got, base, log)
    ensures var r := FrameCtx(ALWAYS, g, c);
      !r.faulted && Climbs(r, r.ctxs[c].descs) && Load(r) <= Load(g) + |g.ctxs[c].buf| && CommitOrder.GateInv(r)
  {
    var buf := g.ctxs[c].buf;
    var cmds := Cmds(Proxy, buf);
    CommitOrder.RunNonEmpty(Proxy, buf, 0);
    assert forall i :: 0 <= i < |cmds| ==> cmds[i] != [];
    RunBytes(Proxy, buf, 0);
    hide CommitOrder.GateInv, FrameAll, Cmds, Tail, Honest, Aligned, Committed, Rising;
    FrameClimbs(g, c, cmds, first, framed, got, base, log);
    var g1 := FrameAll(ALWAYS, g, c, cmds);
    CommitOrder.SwapCtx(g1, c, g1.ctxs[c].(buf := Tail(Proxy, buf)));
    SameClimbs(g1, FrameCtx(ALWAYS, g, c), g1.ctxs[c].descs);
  }

  /** Framing makes no bytes. */
  lemma {:induction false} RunBytes(side: Side, s: bytes, pos: nat)
    requires pos <= |s|
    ensures |Flatten(Run(side, s, pos).0)| <= Run(side, s, pos).1 - pos
    ensures Slim(Run(side, s, pos).0) || |s| > CTX_BUF_CAP
    decreases |s| - pos
  {
    hide Step;
    if pos < |s| {
      match Step(side, s, pos)
      case Wait =>
      case Stop(_) =>
      case Skip(n) => RunBytes(side, s, n);
      case Take(n) =>
        RunBytes(side, s, n);
        assert Run(side, s, pos).0[1..] == Run(side, s, n).0;
    }
  }
}
