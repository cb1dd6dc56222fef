/** The first write a gate accepts: while nothing has been accepted, only a write whose command and
    descriptor are both queued can start it. */
module CommitFirst {
  import opened Bytes
  import opened CommitGate
  import opened CommitOrder
  import opened CommitHistory

  /** Nothing has been accepted, and no start has been chosen. */
  predicate Fresh(g: Gate) {
    g.nextGlobal == 0 && g.ready == [] && g.settled == [] && g.rec == []
  }

  /** The first write accepted has number `first`. */
  predicate Started(g: Gate, first: nat) {
    Accepted(g) != [] && Accepted(g)[0].global == first
  }

  /** The position of the first WRITE descriptor, or the length. */
  function FirstWrite(descs: seq<Desc>): (i: nat)
    ensures i <= |descs| && (i < |descs| ==> descs[i].write)
    ensures forall j :: 0 <= j < i ==> !descs[j].write
  {
    if descs == [] || descs[0].write then 0 else 1 + FirstWrite(descs[1..])
  }

  /** Once `extra` more commands are queued, the first write this connection can match is `first`. */
  predicate Leads(ctx: Ctx, extra: nat, first: nat) {
    var i := FirstWrite(ctx.descs);
    i < |ctx.descs| && i < |ctx.cmds| + extra ==> ctx.descs[i].global == first
  }

  /** `b` is what is left of `a` after some SKIP descriptors at its front. */
  ghost predicate SkippedTo(a: seq<Desc>, b: seq<Desc>) {
    |b| <= |a| && b == a[|a| - |b|..] && forall j :: 0 <= j < |a| - |b| ==> !a[j].write
  }

  /** A start is kept while accepted writes stay. */
  lemma StaysStarted(g: Gate, r: Gate, first: nat)
    requires Started(g, first) && Accepted(g) <= Accepted(r)
    ensures Started(r, first)
  {
  }

  lemma MatchStarted(ok: Deliver, g: Gate, c: nat, first: nat)
    requires GateInv(g) && Started(g, first) && c in g.ctxs && !TryMatch(ok, g, c).faulted
    ensures Started(TryMatch(ok, g, c), first)
  {
    hide GateInv, TryMatch, Accepted;
    MatchGrows(ok, g, c);
    StaysStarted(g, TryMatch(ok, g, c), first);
  }

  lemma FrameAllStarted(ok: Deliver, g: Gate, c: nat, cmds: seq<bytes>, first: nat)
    requires GateInv(g) && Started(g, first) && c in g.ctxs && !FrameAll(ok, g, c, cmds).faulted
    requires forall i :: 0 <= i < |cmds| ==> cmds[i] != []
    ensures Started(FrameAll(ok, g, c, cmds), first)
  {
    hide GateInv, FrameAll, Accepted;
    FrameAllGrows(ok, g, c, cmds);
    StaysStarted(g, FrameAll(ok, g, c, cmds), first);
  }

  // ---------------------------------------------------------------- the first write

  /** The head of the ready list is accepted when it is the next number. */
  lemma DrainHead(ok: Deliver, g: Gate)
    requires GateInv(g) && !g.faulted && g.ready != [] && g.ready[0].global == g.nextGlobal > 0
    requires !Drain(ok, g).faulted
    ensures Accepted(g) + [Rec(g.ready[0].global, g.ready[0].data)] <= Accepted(Drain(ok, g))
  {
    hide GateInv, Emit, Accepted;
    var cmd := g.ready[0];
    var (g1, sent) := Emit(ok, g.(ready := g.ready[1..]), cmd);
    EmitFacts(ok, g.(ready := g.ready[1..]), cmd);
    if sent {
      AcceptHead(ok, g);
      GrowsByOne(ok, g);
      var g2 := Release(g1, |cmd.data|);
      DrainGrows(ok, g2.(nextGlobal := g2.nextGlobal + 1));
    }
  }

  lemma AdoptsHead(ok: Deliver, g: Gate)
    requires g.nextGlobal == 0 && g.ready != [] && g.ready[0].global > 0
    ensures Drain(ok, g) == Drain(ok, g.(nextGlobal := g.ready[0].global))
  {
    hide Emit;
  }

  /** The first write that is drained becomes the start. */
  lemma DrainFirst(ok: Deliver, g: Gate, cmd: Cmd)
    requires Fresh(g.(ready := [])) && g.ready == [cmd] && GateInv(g) && cmd.global > 0
    ensures var r := Drain(ok, g); r.faulted || Started(r, cmd.global)
  {
    var g0 := g.(nextGlobal := cmd.global);
    assert Accepted(g0) == [];
    hide GateInv, Drain, Accepted;
    AdoptsHead(ok, g);
    if g.faulted {
      DrainFaulted(ok, g);
    } else if !Drain(ok, g0).faulted {
      StartKeeps(g, cmd.global);
      DrainHead(ok, g0);
      assert Accepted(Drain(ok, g0))[0] == Rec(cmd.global, cmd.data);
    }
  }

  lemma PairFirst(ok: Deliver, g: Gate, c: nat, extra: nat, first: nat)
    requires GateInv(g) && !g.faulted && Fresh(g) && first > 0
    requires c in g.ctxs && g.ctxs[c].cmds != [] && g.ctxs[c].descs != [] && Leads(g.ctxs[c], extra, first)
    ensures var r := TakePair(ok, g, c);
      || r.faulted
      || Started(r, first)
      || (Fresh(r) && Leads(r.ctxs[c], extra, first) && !g.ctxs[c].descs[0].write)
  {
    hide GateInv, Drain, Started;
    var ctx := g.ctxs[c];
    if ctx.descs[0].write {
      var ctx' := ctx.(cmds := ctx.cmds[1..], descs := ctx.descs[1..]);
      var cmd := ctx.cmds[0].(global := ctx.descs[0].global);
      var g2 := g.(ctxs := g.ctxs[c := ctx'], ready := Insert(g.ready, cmd));
      ToReadyInv(g, c, ctx', cmd);
      DrainFirst(ok, g2, cmd);
    }
  }

  lemma {:induction false} MatchFirst(ok: Deliver, g: Gate, c: nat, extra: nat, first: nat)
    requires GateInv(g) && Fresh(g) && first > 0 && c in g.ctxs && Leads(g.ctxs[c], extra, first)
    requires !TryMatch(ok, g, c).faulted
    ensures var r := TryMatch(ok, g, c);
      || Started(r, first)
      || (Fresh(r) && Leads(r.ctxs[c], extra, first) && SkippedTo(g.ctxs[c].descs, r.ctxs[c].descs))
    decreases |g.ctxs[c].cmds|
  {
    hide GateInv, TakePair, Matches, Started, Leads;
    var ctx := g.ctxs[c];
    if g.faulted {
      MatchFaulted(ok, g, c);
    } else if ctx.cmds != [] && ctx.descs != [] {
      var g1 := TakePair(ok, g, c);
      PairInv(ok, g, c);
      PairFirst(ok, g, c, extra, first);
      if g1.faulted {
        MatchFaulted(ok, g1, c);
      } else if Started(g1, first) {
        MatchStarted(ok, g1, c, first);
      } else {
        MatchFirst(ok, g1, c, extra, first);
        SkipOne(ctx.descs, TryMatch(ok, g1, c).ctxs[c].descs);
      }
    }
  }

  lemma SkipOne(a: seq<Desc>, b: seq<Desc>)
    requires a != [] && !a[0].write
    ensures SkippedTo(a[1..], b) ==> SkippedTo(a, b)
  {
    if SkippedTo(a[1..], b) {
      forall j | 0 <= j < |a| - |b| ensures !a[j].write {
        if j > 0 { assert a[1..][j - 1] == a[j]; }
      }
    }
  }

  lemma SkipTwice(a: seq<Desc>, b: seq<Desc>, c: seq<Desc>)
    requires SkippedTo(a, b) && SkippedTo(b, c)
    ensures SkippedTo(a, c)
  {
    forall j | 0 <= j < |a| - |c| ensures !a[j].write {
      if j >= |a| - |b| { assert b[j - (|a| - |b|)] == a[j]; }
    }
  }

  lemma FrameOneFirst(ok: Deliver, g: Gate, c: nat, data: bytes, extra: nat, first: nat)
    requires GateInv(g) && Fresh(g) && first > 0 && c in g.ctxs && data != []
    requires Leads(g.ctxs[c], extra + 1, first) && !FrameOne(ok, g, c, data).faulted
    ensures var r := FrameOne(ok, g, c, data);
      || Started(r, first)
      || (Fresh(r) && Leads(r.ctxs[c], extra, first) && SkippedTo(g.ctxs[c].descs, r.ctxs[c].descs))
  {
    hide GateInv, TryMatch, Started;
    var g1 := Queue(g, c, data);
    if g.faulted {
      MatchFaulted(ok, g1, c);
    } else {
      QueueInv(g, c, data);
      MatchFirst(ok, g1, c, extra, first);
    }
  }

  lemma {:induction false} FrameAllFirst(ok: Deliver, g: Gate, c: nat, cmds: seq<bytes>, first: nat)
    requires GateInv(g) && Fresh(g) && first > 0 && c in g.ctxs
    requires Leads(g.ctxs[c], |cmds|, first) && !FrameAll(ok, g, c, cmds).faulted
    requires forall i :: 0 <= i < |cmds| ==> cmds[i] != []
    ensures var r := FrameAll(ok, g, c, cmds);
      || Started(r, first)
      || (Fresh(r) && SkippedTo(g.ctxs[c].descs, r.ctxs[c].descs))
    decreases |cmds|
  {
    hide GateInv, FrameOne, Started, Leads;
    if cmds != [] {
      var g1 := FrameOne(ok, g, c, cmds[0]);
      if g1.faulted { FrameFaulted(ok, g1, c, cmds[1..]); }
      FrameOneInv(ok, g, c, cmds[0]);
      FrameOneFirst(ok, g, c, cmds[0], |cmds| - 1, first);
      if Started(g1, first) {
        FrameAllStarted(ok, g1, c, cmds[1..], first);
      } else {
        FrameAllFirst(ok, g1, c, cmds[1..], first);
        var r := FrameAll(ok, g, c, cmds);
        if !Started(r, first) {
          SkipTwice(g.ctxs[c].descs, g1.ctxs[c].descs, r.ctxs[c].descs);
        }
      }
    }
  }
}
