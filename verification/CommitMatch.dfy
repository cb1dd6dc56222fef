/** A connection's queues against what the master did: framed commands and published descriptors
    pair up one to one, so a matched write carries the bytes the master committed. */
module CommitMatch {
  import opened Bytes
  import opened CommitGate
  import opened CommitOrder

  /** The context has framed `framed`, received the descriptors `got`, and matched all but the last
      |cmds| commands; `first` is the number of its first command. */
  ghost predicate Aligned(ctx: Ctx, first: nat, framed: seq<bytes>, got: seq<Desc>) {
    && ctx.nextSeq == first + |framed|
    && |ctx.cmds| <= |framed|
    && var m := |framed| - |ctx.cmds|;
      && m <= |got|
      && ctx.descs == got[m..]
      && forall i :: 0 <= i < |ctx.cmds| ==> ctx.cmds[i] == Cmd(first + m + i, 0, framed[m + i])
  }

  /** The descriptor of command `n` with bytes `data`; a WRITE names its place in the log. */
  ghost predicate Describes(d: Desc, n: nat, data: bytes, base: nat, log: seq<bytes>) {
    && d.seqNo == n && d.len == |data| && d.crc == Fnv(data)
    && (d.write ==> base < d.global <= base + |log| && log[d.global - base - 1] == data)
  }

  /** Where both are known, descriptors describe the framed commands. */
  ghost predicate Honest(first: nat, framed: seq<bytes>, got: seq<Desc>, base: nat, log: seq<bytes>) {
    forall i :: 0 <= i < |framed| && i < |got| ==> Describes(got[i], first + i, framed[i], base, log)
  }

  ghost predicate InLog(global: nat, data: bytes, base: nat, log: seq<bytes>) {
    base < global <= base + |log| && log[global - base - 1] == data
  }

  /** Every write the gate holds or has accepted is the log's write of that number. */
  ghost predicate Committed(g: Gate, base: nat, log: seq<bytes>) {
    && (forall i :: 0 <= i < |g.ready| ==> InLog(g.ready[i].global, g.ready[i].data, base, log))
    && (forall i :: 0 <= i < |g.rec| ==> InLog(g.rec[i].global, g.rec[i].data, base, log))
    && (forall i :: 0 <= i < |g.settled| ==> InLog(g.settled[i].rec.global, g.settled[i].rec.data, base, log))
  }

  lemma EmitCommitted(ok: Deliver, g: Gate, cmd: Cmd, base: nat, log: seq<bytes>)
    requires Committed(g, base, log) && InLog(cmd.global, cmd.data, base, log)
    ensures Committed(Emit(ok, g, cmd).0, base, log)
  {
    hide InLog;
    var g1 := Emit(ok, g, cmd).0;
    forall i | 0 <= i < |g1.rec| ensures InLog(g1.rec[i].global, g1.rec[i].data, base, log) {
      if i == |g.rec| { assert g1.rec[i] == Rec(cmd.global, cmd.data); }
    }
    forall i | 0 <= i < |g1.settled|
      ensures InLog(g1.settled[i].rec.global, g1.settled[i].rec.data, base, log)
    {
      if i == |g.settled| { assert g1.settled[i].rec == Rec(cmd.global, cmd.data); }
    }
  }

  lemma PopCommitted(g: Gate, n: nat, base: nat, log: seq<bytes>)
    requires Committed(g, base, log) && g.ready != []
    ensures Committed(g.(nextGlobal := n, ready := g.ready[1..]), base, log)
    ensures InLog(g.ready[0].global, g.ready[0].data, base, log)
  {
    hide InLog;
  }

  lemma {:induction false} DrainCommitted(ok: Deliver, g: Gate, base: nat, log: seq<bytes>)
    requires Committed(g, base, log)
    ensures Committed(Drain(ok, g), base, log)
    decreases |g.ready|
  {
    hide InLog, Emit;
    if g.ready != [] {
      var cmd := g.ready[0];
      var g0 := if g.nextGlobal == 0 then g.(nextGlobal := cmd.global) else g;
      if cmd.global == g0.nextGlobal {
        PopCommitted(g, g0.nextGlobal, base, log);
        var (g1, sent) := Emit(ok, g0.(ready := g0.ready[1..]), cmd);
        EmitCommitted(ok, g0.(ready := g0.ready[1..]), cmd, base, log);
        EmitFacts(ok, g0.(ready := g0.ready[1..]), cmd);
        if sent {
          DrainCommitted(ok, Release(g1, |cmd.data|).(nextGlobal := g1.nextGlobal + 1), base, log);
        }
      }
    }
  }

  lemma PairCommitted(ok: Deliver, g: Gate, c: nat, base: nat, log: seq<bytes>)
    requires Committed(g, base, log)
    requires c in g.ctxs && g.ctxs[c].cmds != [] && g.ctxs[c].descs != []
    requires g.ctxs[c].descs[0].write ==> InLog(g.ctxs[c].descs[0].global, g.ctxs[c].cmds[0].data, base, log)
    ensures Committed(TakePair(ok, g, c), base, log)
  {
    hide InLog, Drain, Insert;
    var ctx := g.ctxs[c];
    if ctx.descs[0].write {
      var cmd := ctx.cmds[0].(global := ctx.descs[0].global);
      InsertMembers(g.ready, cmd);
      assert forall x :: x in g.ready ==> InLog(x.global, x.data, base, log);
      var g1 := g.(ctxs := g.ctxs[c := ctx.(cmds := ctx.cmds[1..], descs := ctx.descs[1..])],
                   ready := Insert(g.ready, cmd));
      forall i | 0 <= i < |g1.ready| ensures InLog(g1.ready[i].global, g1.ready[i].data, base, log) {
        assert g1.ready[i] in Insert(g.ready, cmd);
      }
      DrainCommitted(ok, g1, base, log);
    }
  }

  /** The heads of two aligned queues belong together, and their tails are aligned again. */
  lemma HeadsMatch(ctx: Ctx, first: nat, framed: seq<bytes>, got: seq<Desc>, base: nat, log: seq<bytes>)
    requires Aligned(ctx, first, framed, got) && Honest(first, framed, got, base, log)
    requires ctx.cmds != [] && ctx.descs != []
    ensures Matches(ctx.cmds[0], ctx.descs[0])
    ensures ctx.descs[0].write ==> InLog(ctx.descs[0].global, ctx.cmds[0].data, base, log)
    ensures Aligned(ctx.(cmds := ctx.cmds[1..], descs := ctx.descs[1..]), first, framed, got)
  {
    hide Fnv;
    var m := |framed| - |ctx.cmds|;
    assert ctx.cmds[0] == Cmd(first + m + 0, 0, framed[m + 0]) && ctx.descs[0] == got[m];
    assert Describes(got[m], first + m, framed[m], base, log);
  }

  /** Matching never finds a mismatch, keeps the queues aligned, and stops only when one is empty. */
  lemma {:induction false} MatchAligned(ok: Deliver, g: Gate, c: nat,
                                        first: nat, framed: seq<bytes>, got: seq<Desc>, base: nat, log: seq<bytes>)
    requires c in g.ctxs && Aligned(g.ctxs[c], first, framed, got)
    requires Honest(first, framed, got, base, log) && Committed(g, base, log)
    ensures var r := TryMatch(ok, g, c);
      && Aligned(r.ctxs[c], first, framed, got)
      && Committed(r, base, log)
      && (r.ctxs[c].cmds == [] || r.ctxs[c].descs == [])
      && r.ctxs == g.ctxs[c := g.ctxs[c].(cmds := r.ctxs[c].cmds, descs := r.ctxs[c].descs)]
    decreases |g.ctxs[c].cmds|
  {
    hide TakePair, Committed, Aligned, Honest, Matches;
    var ctx := g.ctxs[c];
    if ctx.cmds != [] && ctx.descs != [] {
      HeadsMatch(ctx, first, framed, got, base, log);
      PairCommitted(ok, g, c, base, log);
      MatchAligned(ok, TakePair(ok, g, c), c, first, framed, got, base, log);
    } else {
      assert g.ctxs == g.ctxs[c := g.ctxs[c]];
    }
  }

  /** Framing one more command. */
  lemma FrameOneAligned(ok: Deliver, g: Gate, c: nat, data: bytes,
                        first: nat, framed: seq<bytes>, got: seq<Desc>, base: nat, log: seq<bytes>)
    requires c in g.ctxs && Aligned(g.ctxs[c], first, framed, got)
    requires Honest(first, framed + [data], got, base, log) && Committed(g, base, log)
    ensures var r := FrameOne(ok, g, c, data);
      && Aligned(r.ctxs[c], first, framed + [data], got)
      && Committed(r, base, log)
      && (r.faulted || r.ctxs[c].cmds == [] || r.ctxs[c].descs == [])
      && r.ctxs == g.ctxs[c := g.ctxs[c].(nextSeq := r.ctxs[c].nextSeq, cmds := r.ctxs[c].cmds,
                                          descs := r.ctxs[c].descs)]
  {
    hide TryMatch;
    var g1 := Queue(g, c, data);
    var ctx, ctx1, framed1 := g.ctxs[c], g1.ctxs[c], framed + [data];
    var m := |framed| - |ctx.cmds|;
    forall i | 0 <= i < |ctx1.cmds| ensures ctx1.cmds[i] == Cmd(first + m + i, 0, framed1[m + i]) {}
    assert Aligned(ctx1, first, framed1, got);
    if g1.pending + g1.recBytes <= MEMORY_MAX {
      MatchAligned(ok, g1, c, first, framed1, got, base, log);
    }
  }

  lemma {:induction false} FrameAllAligned(ok: Deliver, g: Gate, c: nat, cmds: seq<bytes>,
                                           first: nat, framed: seq<bytes>, got: seq<Desc>, base: nat, log: seq<bytes>)
    requires c in g.ctxs && Aligned(g.ctxs[c], first, framed, got)
    requires Honest(first, framed + cmds, got, base, log) && Committed(g, base, log)
    ensures var r := FrameAll(ok, g, c, cmds);
      && Aligned(r.ctxs[c], first, framed + cmds, got)
      && Committed(r, base, log)
      && r.ctxs == g.ctxs[c := g.ctxs[c].(nextSeq := r.ctxs[c].nextSeq, cmds := r.ctxs[c].cmds,
                                          descs := r.ctxs[c].descs)]
    decreases |cmds|
  {
    hide FrameOne, Aligned, Committed, Describes;
    if cmds == [] {
      assert framed + cmds == framed;
      assert g.ctxs == g.ctxs[c := g.ctxs[c]];
    } else {
      var framed1 := framed + [cmds[0]];
      assert framed1 + cmds[1..] == framed + cmds;
      HonestPrefix(first, framed1, cmds[1..], got, base, log);
      FrameOneAligned(ok, g, c, cmds[0], first, framed, got, base, log);
      FrameAllAligned(ok, FrameOne(ok, g, c, cmds[0]), c, cmds[1..], first, framed1, got, base, log);
    }
  }

  lemma HonestPrefix(first: nat, a: seq<bytes>, b: seq<bytes>, got: seq<Desc>, base: nat, log: seq<bytes>)
    requires Honest(first, a + b, got, base, log)
    ensures Honest(first, a, got, base, log)
  {
    hide Describes;
    forall i | 0 <= i < |a| && i < |got| ensures Describes(got[i], first + i, a[i], base, log) {
      assert (a + b)[i] == a[i];
    }
  }
}
