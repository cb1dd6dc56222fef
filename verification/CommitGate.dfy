/** The proxy's Commit Gate (`proxy_commit.c`) as functions on its state: re-framed commands wait
    for their descriptor, committed writes are put in `global_seq` order and are emitted, kept for
    recovery, or stop the gate. */
module CommitGate {
  import opened Bytes
  import opened Framer

  const MAX_CTX := 4096
  const CTX_BUF_CAP := 2 * 1024 * 1024
  const MEMORY_MAX := 256 * 1024 * 1024

  const FNV_BASIS: bv64 := 1469598103934665603

  function FnvMix(h: bv64, b: byte): bv64 {
    (h ^ (b as bv64)) * 1099511628211
  }

  /** FNV-1a, 64 bit: the checksum both programs use. */
  function Fnv(data: bytes): bv64 {
    if data == [] then FNV_BASIS else FnvMix(Fnv(data[..|data| - 1]), data[|data| - 1])
  }

  datatype Cmd = Cmd(seqNo: nat, global: nat, data: bytes)

  datatype Desc = Desc(seqNo: nat, global: nat, crc: bv64, len: nat, write: bool)

  datatype Ctx = Ctx(
    buf: bytes, baseline: bool, ignored: bool, nextSeq: nat,
    lastRecv: nat, recvValid: bool, cmds: seq<Cmd>, descs: seq<Desc>)

  datatype Rec = Rec(global: nat, data: bytes)

  /** What became of an accepted write that has left the gate. */
  datatype Settled = Emitted(rec: Rec) | Dropped(rec: Rec)

  /** `settled` is a history variable: the writes accepted since the last purge and no longer held,
      oldest first. */
  datatype Gate = Gate(
    ctxs: map<nat, Ctx>, nextGlobal: nat, ready: seq<Cmd>,
    buffering: bool, waitResume: bool, rec: seq<Rec>,
    pending: nat, recBytes: nat, faulted: bool, settled: seq<Settled>)

  /** Whether delivering the write with a given `global_seq` succeeds: the emit callback. */
  type Deliver = nat -> bool

  const NEW_CTX := Ctx([], false, false, 0, 0, false, [], [])

  function EmptyGate(buffering: bool): Gate {
    Gate(map[], 0, [], buffering, false, [], 0, 0, false, [])
  }

  function Fault(g: Gate): Gate {
    g.(faulted := true)
  }

  // ---------------------------------------------------------------- global order

  /** `pc_ready_insert`: in front of the first command that is not smaller. */
  function Insert(ready: seq<Cmd>, cmd: Cmd): seq<Cmd> {
    if ready == [] || ready[0].global >= cmd.global then [cmd] + ready
    else [ready[0]] + Insert(ready[1..], cmd)
  }

  /** `pc_emit_cmd`. */
  function Emit(ok: Deliver, g: Gate, cmd: Cmd): (Gate, bool) {
    var r := Rec(cmd.global, cmd.data);
    if g.buffering || g.waitResume || g.recBytes > 0 then
      var g1 := g.(rec := g.rec + [r], recBytes := g.recBytes + |cmd.data|);
      var g2 := if g1.pending + g1.recBytes > MEMORY_MAX then Fault(g1) else g1;
      (g2, !g2.faulted)
    else if ok(cmd.global) then (g.(settled := g.settled + [Emitted(r)]), true)
    else (Fault(g), false)
  }

  /** `pc_cmd_free`'s accounting. */
  function Release(g: Gate, n: nat): Gate {
    if g.pending >= n then g.(pending := g.pending - n) else g
  }

  /** `pc_drain_ready`. */
  function Drain(ok: Deliver, g: Gate): (r: Gate)
    ensures r.ctxs == g.ctxs
    decreases |g.ready|
  {
    if g.ready == [] then g
    else
      var cmd := g.ready[0];
      var g0 := if g.nextGlobal == 0 then g.(nextGlobal := cmd.global) else g;
      if cmd.global < g0.nextGlobal then Fault(g0)
      else if cmd.global > g0.nextGlobal then g0
      else
        var (g1, sent) := Emit(ok, g0.(ready := g0.ready[1..]), cmd);
        var g2 := Release(g1, |cmd.data|);
        if !sent then g2 else Drain(ok, g2.(nextGlobal := g2.nextGlobal + 1))
  }

  // ---------------------------------------------------------------- matching

  predicate Matches(cmd: Cmd, d: Desc) {
    cmd.seqNo == d.seqNo && |cmd.data| == d.len && Fnv(cmd.data) == d.crc
  }

  /** One matched pair leaves the connection's two queues. */
  function TakePair(ok: Deliver, g: Gate, c: nat): (r: Gate)
    requires c in g.ctxs && g.ctxs[c].cmds != [] && g.ctxs[c].descs != []
    ensures r.ctxs == g.ctxs[c := g.ctxs[c].(cmds := g.ctxs[c].cmds[1..], descs := g.ctxs[c].descs[1..])]
  {
    var ctx := g.ctxs[c];
    var cmd, d := ctx.cmds[0], ctx.descs[0];
    var g1 := g.(ctxs := g.ctxs[c := ctx.(cmds := ctx.cmds[1..], descs := ctx.descs[1..])]);
    if d.write then Drain(ok, g1.(ready := Insert(g1.ready, cmd.(global := d.global))))
    else Release(g1, |cmd.data|)
  }

  /** `pc_try_match`, without its time-outs. */
  function TryMatch(ok: Deliver, g: Gate, c: nat): (r: Gate)
    requires c in g.ctxs
    ensures r.ctxs.Keys == g.ctxs.Keys
    decreases |g.ctxs[c].cmds|
  {
    var ctx := g.ctxs[c];
    if ctx.cmds == [] || ctx.descs == [] then g
    else if !Matches(ctx.cmds[0], ctx.descs[0]) then Fault(g)
    else TryMatch(ok, TakePair(ok, g, c), c)
  }

  // ---------------------------------------------------------------- framing

  /** `pc_frame_one`, its command queued but not yet matched. */
  function Queue(g: Gate, c: nat, data: bytes): Gate
    requires c in g.ctxs
  {
    var ctx := g.ctxs[c];
    g.(ctxs := g.ctxs[c := ctx.(nextSeq := ctx.nextSeq + 1,
                                cmds := ctx.cmds + [Cmd(ctx.nextSeq, 0, data)])],
       pending := g.pending + |data|)
  }

  function FrameOne(ok: Deliver, g: Gate, c: nat, data: bytes): (r: Gate)
    requires c in g.ctxs
    ensures r.ctxs.Keys == g.ctxs.Keys
  {
    var g1 := Queue(g, c, data);
    if g1.pending + g1.recBytes > MEMORY_MAX then Fault(g1) else TryMatch(ok, g1, c)
  }

  function FrameAll(ok: Deliver, g: Gate, c: nat, cmds: seq<bytes>): (r: Gate)
    requires c in g.ctxs
    ensures r.ctxs.Keys == g.ctxs.Keys
    decreases |cmds|
  {
    if cmds == [] then g else FrameAll(ok, FrameOne(ok, g, c, cmds[0]), c, cmds[1..])
  }

  /** `pc_frame_ctx`. */
  ghost function FrameCtx(ok: Deliver, g: Gate, c: nat): (r: Gate)
    requires c in g.ctxs
    ensures r.ctxs.Keys == g.ctxs.Keys
  {
    var buf := g.ctxs[c].buf;
    if !g.ctxs[c].baseline then g
    else
      var g1 := FrameAll(ok, g, c, Cmds(Proxy, buf));
      g1.(ctxs := g1.ctxs[c := g1.ctxs[c].(buf := Tail(Proxy, buf))])
  }

  // ---------------------------------------------------------------- inputs

  /** `pc_get_ctx(cookie, 1)` fails. */
  predicate NoRoom(g: Gate, c: nat) {
    c !in g.ctxs && |g.ctxs| >= MAX_CTX
  }

  function WithCtx(g: Gate, c: nat): (r: Gate)
    ensures c in r.ctxs
  {
    if c in g.ctxs then g else g.(ctxs := g.ctxs[c := NEW_CTX])
  }

  /** `pc_on_desc`. */
  function OnDesc(ok: Deliver, g: Gate, c: nat, d: Desc): Gate {
    if g.faulted then g
    else if NoRoom(g, c) then Fault(g)
    else
      var g1 := WithCtx(g, c);
      var ctx := g1.ctxs[c];
      if ctx.ignored then g1
      else
        var g2 := g1.(ctxs := g1.ctxs[c := ctx.(descs := ctx.descs + [d])]);
        if ctx.baseline then TryMatch(ok, g2, c) else g2
  }

  /** `proxy_commit_on_record`. */
  ghost function OnRecord(ok: Deliver, g: Gate, c: nat, recvSeq: nat, payload: bytes): Gate {
    if g.faulted then g
    else if NoRoom(g, c) then Fault(g)
    else
      var g1 := WithCtx(g, c);
      var ctx := g1.ctxs[c];
      if ctx.ignored then g1
      else if ctx.recvValid && recvSeq != ctx.lastRecv + 1 then Fault(g1)
      else
        var seen := ctx.(lastRecv := recvSeq, recvValid := true);
        if |ctx.buf| + |payload| > CTX_BUF_CAP then Fault(g1.(ctxs := g1.ctxs[c := seen]))
        else
          var g2 := g1.(ctxs := g1.ctxs[c := seen.(buf := ctx.buf + payload)]);
          if ctx.baseline then FrameCtx(ok, g2, c) else TryMatch(ok, g2, c)
  }

  function DataBytes(cmds: seq<Cmd>): nat {
    if cmds == [] then 0 else |cmds[0].data| + DataBytes(cmds[1..])
  }

  /** Frees a list of commands one by one. */
  function ReleaseAll(g: Gate, cmds: seq<Cmd>): (r: Gate)
    ensures r == g.(pending := r.pending)
    decreases |cmds|
  {
    if cmds == [] then g else ReleaseAll(Release(g, |cmds[0].data|), cmds[1..])
  }

  /** `pc_on_baseline`. */
  ghost function OnBaseline(ok: Deliver, g: Gate, c: nat, next: nat): Gate {
    if NoRoom(g, c) then Fault(g)
    else
      var g1 := WithCtx(g, c);
      var ctx := g1.ctxs[c];
      var g2 := ReleaseAll(g1, ctx.cmds);
      var reset := Ctx(if ctx.baseline then [] else ctx.buf, true, false,
                        if next == 0 then 1 else next, 0, false, [], []);
      TryMatch(ok, FrameCtx(ok, g2.(ctxs := g2.ctxs[c := reset]), c), c)
  }

  /** `pc_ctx_reset` and the ignored mark. */
  function OnIgnore(g: Gate, c: nat): Gate {
    if NoRoom(g, c) then g
    else
      var g1 := WithCtx(g, c);
      ReleaseAll(g1, g1.ctxs[c].cmds).(ctxs := g1.ctxs[c := NEW_CTX.(ignored := true)])
  }

  /** `pc_remove_ctx`. */
  function OnForget(g: Gate, c: nat): Gate {
    if c !in g.ctxs then g
    else ReleaseAll(g, g.ctxs[c].cmds).(ctxs := g.ctxs - {c})
  }

  /** What RESUME does with the recovery queue: the settled writes, and whether delivery failed. */
  function Replay(ok: Deliver, rec: seq<Rec>, marker: nat): (r: (seq<Settled>, bool))
    ensures |r.0| <= |rec|
  {
    if rec == [] then ([], false)
    else if rec[0].global <= marker then
      var (s, failed) := Replay(ok, rec[1..], marker);
      ([Dropped(rec[0])] + s, failed)
    else if !ok(rec[0].global) then ([], true)
    else
      var (s, failed) := Replay(ok, rec[1..], marker);
      ([Emitted(rec[0])] + s, failed)
  }

  /** `pc_on_resume`. */
  function OnResume(ok: Deliver, g: Gate, marker: nat): Gate {
    var (s, failed) := Replay(ok, g.rec, marker);
    var g1 := g.(rec := [], recBytes := 0, waitResume := false, settled := g.settled + s);
    if failed then Fault(g1) else g1
  }

  /** The buffering edge in `proxy_commit_poll`. */
  function OnPoll(g: Gate, buffering: bool): Gate {
    if buffering == g.buffering then g
    else g.(buffering := buffering,
            waitResume := g.waitResume || (!buffering && g.recBytes > 0))
  }

  /** `proxy_commit_purge`. */
  function Purge(g: Gate): Gate {
    EmptyGate(g.buffering)
  }

  /** The writes accepted since the last purge, in the order they were accepted. */
  function Recs(settled: seq<Settled>): (r: seq<Rec>)
    ensures |r| == |settled| && forall i :: 0 <= i < |r| ==> r[i] == settled[i].rec
  {
    if settled == [] then [] else [settled[0].rec] + Recs(settled[1..])
  }

  function Accepted(g: Gate): seq<Rec> {
    Recs(g.settled) + g.rec
  }
}
