/** What the gate refuses: a pair that does not belong together, a record out of order, a buffer or a table that
    is full.  The gate faults and nothing of it is accepted.  And what it passes over: connections it was told
    to ignore. */
module CommitRefuse {
  import opened Bytes
  import opened Framer
  import opened CommitGate

  /** The command and the descriptor differ in number, length or checksum. */
  predicate Differ(cmd: Cmd, d: Desc) {
    cmd.seqNo != d.seqNo || |cmd.data| != d.len || Fnv(cmd.data) != d.crc
  }

  predicate HeadsDiffer(ctx: Ctx) {
    ctx.cmds != [] && ctx.descs != [] && Differ(ctx.cmds[0], ctx.descs[0])
  }

  /** Nothing was accepted or made ready. */
  predicate NothingNew(g: Gate, r: Gate) {
    r.settled == g.settled && r.rec == g.rec && r.ready == g.ready && r.nextGlobal == g.nextGlobal
  }

  // ---------------------------------------------------------------- pairs that do not belong together

  /** How many pairs from the heads of the two queues on belong together. */
  function Agreeing(cmds: seq<Cmd>, descs: seq<Desc>): (k: nat)
    ensures k <= |cmds| && k <= |descs|
    ensures forall i :: 0 <= i < k ==> !Differ(cmds[i], descs[i])
    ensures k < |cmds| && k < |descs| ==> Differ(cmds[k], descs[k])
  {
    if cmds == [] || descs == [] || Differ(cmds[0], descs[0]) then 0 else 1 + Agreeing(cmds[1..], descs[1..])
  }

  /** A FOREIGN PAIR.  `pc_try_match` takes pairs off the two queues as long as number, length and checksum
      agree.  At the first pair that differs it stops with a fault and leaves the pair where it is; without
      one it stops, with no fault of its own, when a queue is empty. */
  lemma {:induction false} MatchExactly(ok: Deliver, g: Gate, c: nat)
    requires c in g.ctxs
    ensures var r, ctx := TryMatch(ok, g, c), g.ctxs[c];
      var k := Agreeing(ctx.cmds, ctx.descs);
      && r.ctxs[c].cmds == ctx.cmds[k..] && r.ctxs[c].descs == ctx.descs[k..]
      && (k < |ctx.cmds| && k < |ctx.descs| ==> r.faulted)
    decreases |g.ctxs[c].cmds|
  {
    hide TakePair, Fnv;
    var ctx := g.ctxs[c];
    if ctx.cmds != [] && ctx.descs != [] && !Differ(ctx.cmds[0], ctx.descs[0]) {
      var g1 := TakePair(ok, g, c);
      var k := Agreeing(ctx.cmds[1..], ctx.descs[1..]);
      MatchExactly(ok, g1, c);
      assert ctx.cmds[1..][k..] == ctx.cmds[1 + k..] && ctx.descs[1..][k..] == ctx.descs[1 + k..];
    }
  }

  lemma RefusesHeads(ok: Deliver, g: Gate, c: nat)
    requires c in g.ctxs && HeadsDiffer(g.ctxs[c])
    ensures TryMatch(ok, g, c) == Fault(g)
  {
    hide Fnv;
  }

  /** Behind a pair that differs whatever else the connection sends is queued and not matched. */
  lemma {:induction false} FrameRefused(ok: Deliver, g: Gate, c: nat, cmds: seq<bytes>)
    requires c in g.ctxs && HeadsDiffer(g.ctxs[c])
    ensures var r := FrameAll(ok, g, c, cmds);
      NothingNew(g, r) && HeadsDiffer(r.ctxs[c]) && (g.faulted || cmds != [] ==> r.faulted)
    decreases |cmds|
  {
    hide TryMatch, Fnv;
    if cmds != [] {
      var g1 := Queue(g, c, cmds[0]);
      assert HeadsDiffer(g1.ctxs[c]);
      RefusesHeads(ok, g1, c);
      FrameRefused(ok, FrameOne(ok, g, c, cmds[0]), c, cmds[1..]);
    }
  }

  /** A connection that is matched up and whose input is taken. */
  predicate Open(g: Gate, c: nat) {
    !g.faulted && c in g.ctxs && g.ctxs[c].baseline && !g.ctxs[c].ignored
  }

  /** A descriptor that differs from the oldest waiting command: the gate faults, nothing is accepted. */
  lemma DescRefused(ok: Deliver, g: Gate, c: nat, d: Desc)
    requires Open(g, c) && g.ctxs[c].descs == [] && g.ctxs[c].cmds != [] && Differ(g.ctxs[c].cmds[0], d)
    ensures var r := OnDesc(ok, g, c, d); r.faulted && NothingNew(g, r)
  {
    hide TryMatch, Fnv;
    var ctx := g.ctxs[c];
    RefusesHeads(ok, g.(ctxs := g.ctxs[c := ctx.(descs := ctx.descs + [d])]), c);
  }

  /** A record whose first command differs from the oldest waiting descriptor: the gate faults, nothing of the
      record is accepted, however many commands it holds. */
  lemma RecordRefused(ok: Deliver, g: Gate, c: nat, n: nat, p: bytes)
    requires Open(g, c) && g.ctxs[c].cmds == [] && g.ctxs[c].descs != []
    requires var cmds := Cmds(Proxy, g.ctxs[c].buf + p);
      cmds != [] && Differ(Cmd(g.ctxs[c].nextSeq, 0, cmds[0]), g.ctxs[c].descs[0])
    ensures var r := OnRecord(ok, g, c, n, p); r.faulted && NothingNew(g, r)
  {
    hide Cmds, Tail, FrameAll, Fnv;
    var ctx := g.ctxs[c];
    var cmds := Cmds(Proxy, ctx.buf + p);
    var g2 := g.(ctxs := g.ctxs[c := ctx.(lastRecv := n, recvValid := true, buf := ctx.buf + p)]);
    FirstRefused(ok, g2, c, cmds);
  }

  lemma FirstRefused(ok: Deliver, g: Gate, c: nat, cmds: seq<bytes>)
    requires c in g.ctxs && g.ctxs[c].cmds == [] && g.ctxs[c].descs != [] && cmds != []
    requires Differ(Cmd(g.ctxs[c].nextSeq, 0, cmds[0]), g.ctxs[c].descs[0])
    ensures var r := FrameAll(ok, g, c, cmds); r.faulted && NothingNew(g, r)
  {
    hide TryMatch, Fnv;
    var g1 := Queue(g, c, cmds[0]);
    assert HeadsDiffer(g1.ctxs[c]);
    RefusesHeads(ok, g1, c);
    FrameRefused(ok, FrameOne(ok, g, c, cmds[0]), c, cmds[1..]);
  }

  // ---------------------------------------------------------------- records that are not taken

  /** A LOST RECORD.  A record that does not follow the last one of its connection, one that would overflow the
      connection's buffer, and anything of a connection for which the table has no room: the gate faults and
      accepts nothing. */
  lemma InputRefused(ok: Deliver, g: Gate, c: nat, n: nat, p: bytes, d: Desc)
    requires !g.faulted
    ensures var r := OnRecord(ok, g, c, n, p);
      && (c in g.ctxs && !g.ctxs[c].ignored && g.ctxs[c].recvValid && n != g.ctxs[c].lastRecv + 1 ==>
            r.faulted && NothingNew(g, r))
      && (c in g.ctxs && !g.ctxs[c].ignored && |g.ctxs[c].buf| + |p| > CTX_BUF_CAP ==> r.faulted && NothingNew(g, r))
    ensures NoRoom(g, c) ==>
      && OnRecord(ok, g, c, n, p) == Fault(g) && OnDesc(ok, g, c, d) == Fault(g)
      && OnBaseline(ok, g, c, n) == Fault(g) && OnIgnore(g, c) == g
  {
    hide TryMatch, FrameCtx;
  }

  /** AN IGNORED CONNECTION.  From an IGNORE on, until its next BASELINE, whatever is captured of a connection or
      published about it leaves the gate as it is. */
  lemma IgnoredInert(ok: Deliver, g: Gate, c: nat, n: nat, p: bytes, d: Desc)
    requires c in g.ctxs && g.ctxs[c].ignored
    ensures OnRecord(ok, g, c, n, p) == g && OnDesc(ok, g, c, d) == g
  {
  }

  // ---------------------------------------------------------------- a new start

  /** Commands as they are queued from number `first` on. */
  function Numbered(cmds: seq<bytes>, first: nat): (r: seq<Cmd>)
    ensures |r| == |cmds|
  {
    if cmds == [] then [] else [Cmd(first, 0, cmds[0])] + Numbered(cmds[1..], first + 1)
  }

  lemma QueuesOne(ok: Deliver, g: Gate, c: nat, data: bytes)
    requires c in g.ctxs && g.ctxs[c].descs == []
    ensures var r, ctx := FrameOne(ok, g, c, data), g.ctxs[c];
      && r.ctxs[c] == ctx.(cmds := ctx.cmds + [Cmd(ctx.nextSeq, 0, data)], nextSeq := ctx.nextSeq + 1)
      && NothingNew(g, r)
  {
    hide Matches, TakePair;
  }

  /** Without descriptors commands are only queued. */
  lemma {:induction false} FrameQueues(ok: Deliver, g: Gate, c: nat, cmds: seq<bytes>)
    requires c in g.ctxs && g.ctxs[c].descs == []
    ensures var r, ctx := FrameAll(ok, g, c, cmds), g.ctxs[c];
      && r.ctxs[c] == ctx.(cmds := ctx.cmds + Numbered(cmds, ctx.nextSeq), nextSeq := ctx.nextSeq + |cmds|)
      && NothingNew(g, r)
    decreases |cmds|
  {
    hide FrameOne;
    var ctx := g.ctxs[c];
    if cmds == [] {
      assert ctx.cmds + [] == ctx.cmds;
    } else {
      var g1 := FrameOne(ok, g, c, cmds[0]);
      QueuesOne(ok, g, c, cmds[0]);
      FrameQueues(ok, g1, c, cmds[1..]);
      assert ctx.cmds + [Cmd(ctx.nextSeq, 0, cmds[0])] + Numbered(cmds[1..], ctx.nextSeq + 1)
          == ctx.cmds + Numbered(cmds, ctx.nextSeq);
    }
  }

  /** A NEW START.  A BASELINE announces the number of the connection's next command.  Bytes that came before its
      first one are framed from that number on and wait for their descriptors; at a later one everything old of
      the connection is gone: bytes, commands, descriptors and the receive count.  Nothing is accepted. */
  lemma BaselineStarts(ok: Deliver, g: Gate, c: nat, n: nat)
    requires !NoRoom(g, c)
    ensures var r := OnBaseline(ok, g, c, n);
      var early := if c in g.ctxs && !g.ctxs[c].baseline then g.ctxs[c].buf else [];
      var first, cmds := if n == 0 then 1 else n, Cmds(Proxy, early);
      && c in r.ctxs && NothingNew(g, r)
      && r.ctxs[c] == Ctx(Tail(Proxy, early), true, false, first + |cmds|, 0, false, Numbered(cmds, first), [])
  {
    hide FrameCtx, TryMatch, Cmds, Tail, ReleaseAll, Numbered;
    var g1 := WithCtx(g, c);
    var ctx := g1.ctxs[c];
    var early: bytes := if ctx.baseline then [] else ctx.buf;
    var first := if n == 0 then 1 else n;
    var g3 := ReleaseAll(g1, ctx.cmds).(ctxs := g1.ctxs[c := Ctx(early, true, false, first, 0, false, [], [])]);
    FramesEarly(ok, g3, c, first, early);
  }

  lemma FramesEarly(ok: Deliver, g: Gate, c: nat, first: nat, early: bytes)
    requires c in g.ctxs && g.ctxs[c] == Ctx(early, true, false, first, 0, false, [], [])
    ensures var r, cmds := TryMatch(ok, FrameCtx(ok, g, c), c), Cmds(Proxy, early);
      && NothingNew(g, r)
      && r.ctxs[c] == Ctx(Tail(Proxy, early), true, false, first + |cmds|, 0, false, Numbered(cmds, first), [])
  {
    hide FrameAll, Cmds, Tail, Matches, TakePair, Numbered;
    FrameQueues(ok, g, c, Cmds(Proxy, early));
    assert [] + Numbered(Cmds(Proxy, early), first) == Numbered(Cmds(Proxy, early), first);
  }
}
