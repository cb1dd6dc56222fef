/** The Commit Gate as the proxy runs it: one object whose queues, counters and buffers every call
    changes in place, each call proved against its function in `CommitGate`. */
module ProxyCommit {
  import opened Bytes
  import opened Framer
  import opened FramerLoops
  import opened CommitGate
  import opened CommitOrder
  import opened CommitHistory

  /** The checksum loop, the same in `kvs_cmd_crc64` and in `pc_try_match`. */
  method Checksum(data: bytes) returns (h: bv64)
    ensures h == Fnv(data)
  {
    hide FnvMix;
    h := FNV_BASIS;
    var i := 0;
    while i < |data|
      invariant i <= |data| && h == Fnv(data[..i])
    {
      assert data[..i + 1][..i] == data[..i];
      h := FnvMix(h, data[i]);
      i := i + 1;
    }
    assert data[..i] == data;
  }

  /** The proxy's gate.  `Valid` is what holds between two of its calls: unless it has faulted, accepted
      numbers are consecutive, and `pending` and `recBytes` are the exact byte sums of what is queued and
      of what is kept for recovery, together within the budget. */
  class ProxyGate {
    var ctxs: map<nat, Ctx>
    var nextGlobal: nat
    var ready: seq<Cmd>
    var buffering: bool
    var waitResume: bool
    var rec: seq<Rec>
    var pending: nat
    var recBytes: nat
    var faulted: bool
    ghost var settled: seq<Settled>

    ghost function State(): Gate
      reads this
    {
      Gate(ctxs, nextGlobal, ready, buffering, waitResume, rec, pending, recBytes, faulted, settled)
    }

    ghost predicate Valid()
      reads this
    {
      GateInv(State())
    }

    /** Every write accepted since the last purge, oldest first. */
    ghost function History(): seq<Rec>
      reads this
    {
      Accepted(State())
    }

    constructor ()
      ensures State() == EmptyGate(false) && Valid()
    {
      ctxs, nextGlobal, ready, buffering, waitResume := map[], 0, [], false, false;
      rec, pending, recBytes, faulted, settled := [], 0, 0, false, [];
      new;
      EmptyInv(false);
    }

    method Fail()
      modifies this`faulted
      ensures State() == Fault(old(State()))
    {
      faulted := true;
    }

    method ReadyInsert(cmd: Cmd)
      modifies this`ready
      ensures State() == old(State()).(ready := Insert(old(ready), cmd))
    {
      hide Insert;
      var i := 0;
      assert ready[..0] + Insert(ready[0..], cmd) == Insert(ready, cmd) by { assert ready[0..] == ready; }
      while i < |ready| && ready[i].global < cmd.global
        invariant i <= |ready| && ready == old(ready)
        invariant Insert(ready, cmd) == ready[..i] + Insert(ready[i..], cmd)
      {
        PastSmaller(ready, i, cmd);
        i := i + 1;
      }
      AtPlace(ready, i, cmd);
      ghost var r0 := ready;
      ready := ready[..i] + [cmd] + ready[i..];
      assert ready == Insert(r0, cmd);
    }

    /** The command is kept: it is the last one accepted, and a count that was exact stays so. */
    method RecoveryAppend(cmd: Cmd)
      modifies this`rec, this`recBytes, this`faulted
      ensures rec == old(rec) + [Rec(cmd.global, cmd.data)] && recBytes == old(recBytes) + |cmd.data|
      ensures faulted == (old(faulted) || pending + recBytes > MEMORY_MAX)
      ensures History() == old(History()) + [Rec(cmd.global, cmd.data)]
      ensures old(recBytes) == RecBytes(old(rec)) ==> recBytes == RecBytes(rec)
    {
      RecBytesAppend(rec, Rec(cmd.global, cmd.data));
      assert Recs(settled) + (rec + [Rec(cmd.global, cmd.data)]) == Recs(settled) + rec + [Rec(cmd.global, cmd.data)];
      rec := rec + [Rec(cmd.global, cmd.data)];
      recBytes := recBytes + |cmd.data|;
      if pending + recBytes > MEMORY_MAX { Fail(); }
    }

    /** What is kept for recovery is counted. */
    ghost predicate KeptCounted()
      reads this
    {
      recBytes == RecBytes(rec) && forall i :: 0 <= i < |rec| ==> rec[i].data != []
    }

    /** Delivered or kept, the command is accepted after all others; refused, the gate has faulted.  It is kept
        exactly while the gate buffers, waits for RESUME or has anything kept. */
    method EmitCmd(ok: Deliver, cmd: Cmd) returns (sent: bool)
      modifies this`rec, this`recBytes, this`faulted, this`settled
      ensures (State(), sent) == Emit(ok, old(State()), cmd)
      ensures !old(faulted) ==> (sent <==> !faulted)
      ensures sent && old(KeptCounted()) ==> History() == old(History()) + [Rec(cmd.global, cmd.data)]
      ensures buffering || waitResume || old(recBytes) > 0 ==>
        settled == old(settled) && rec == old(rec) + [Rec(cmd.global, cmd.data)]
      ensures !buffering && !waitResume && old(recBytes) == 0 ==>
        rec == old(rec) && settled == old(settled) + if sent then [Emitted(Rec(cmd.global, cmd.data))] else []
    {
      ghost var g := State();
      if KeptCounted() { EmitGrows(ok, g, cmd); }
      if buffering || waitResume || recBytes > 0 {
        RecoveryAppend(cmd);
        return !faulted;
      }
      if !ok(cmd.global) {
        Fail();
        return false;
      }
      settled := settled + [Emitted(Rec(cmd.global, cmd.data))];
      return true;
    }

    method CmdFree(n: nat)
      modifies this`pending
      ensures State() == Release(old(State()), n)
    {
      if pending >= n { pending := pending - n; }
    }

    method DrainReady(ok: Deliver)
      modifies this
      ensures State() == Drain(ok, old(State()))
    {
      hide Emit, Release;
      while |ready| > 0
        invariant Drain(ok, old(State())) == Drain(ok, State())
        decreases |ready|
      {
        var cmd := ready[0];
        if nextGlobal == 0 { nextGlobal := cmd.global; }
        if cmd.global < nextGlobal {
          Fail();
          return;
        }
        if cmd.global > nextGlobal { break; }
        ready := ready[1..];
        var sent := EmitCmd(ok, cmd);
        CmdFree(|cmd.data|);
        if !sent { return; }
        nextGlobal := nextGlobal + 1;
      }
    }

    method TryMatch(ok: Deliver, c: nat)
      requires c in ctxs
      modifies this
      ensures State() == CommitGate.TryMatch(ok, old(State()), c)
    {
      while |ctxs[c].cmds| > 0 && |ctxs[c].descs| > 0
        invariant c in ctxs
        invariant CommitGate.TryMatch(ok, old(State()), c) == CommitGate.TryMatch(ok, State(), c)
        decreases |ctxs[c].cmds|
      {
        ghost var g := State();
        var ctx := ctxs[c];
        var cmd, d := ctx.cmds[0], ctx.descs[0];
        if cmd.seqNo != d.seqNo || |cmd.data| != d.len { Fail(); return; }
        var h := Checksum(cmd.data);
        if h != d.crc { Fail(); return; }
        ctxs := ctxs[c := ctx.(cmds := ctx.cmds[1..], descs := ctx.descs[1..])];
        if d.write {
          ReadyInsert(cmd.(global := d.global));
          DrainReady(ok);
        } else {
          CmdFree(|cmd.data|);
        }
        assert State() == TakePair(ok, g, c);
      }
    }

    /** One framed command is queued and matched as far as possible. */
    method FrameOne(ok: Deliver, c: nat, data: bytes)
      requires c in ctxs
      modifies this
      ensures State() == CommitGate.FrameOne(ok, old(State()), c, data)
      ensures old(Valid()) && data != [] ==> Valid() && (!faulted ==> old(History()) <= History())
    {
      hide GateInv, Accepted, CommitGate.TryMatch;
      ghost var g := State();
      if Valid() && data != [] {
        FrameOneInv(ok, g, c, data);
        if !CommitGate.FrameOne(ok, g, c, data).faulted { FrameOneGrows(ok, g, c, data); }
      }
      var ctx := ctxs[c];
      ctxs := ctxs[c := ctx.(nextSeq := ctx.nextSeq + 1, cmds := ctx.cmds + [Cmd(ctx.nextSeq, 0, data)])];
      pending := pending + |data|;
      if pending + recBytes > MEMORY_MAX {
        Fail();
        return;
      }
      TryMatch(ok, c);
    }

    method FrameCtx(ok: Deliver, c: nat)
      requires c in ctxs
      modifies this
      ensures State() == CommitGate.FrameCtx(ok, old(State()), c)
    {
      if !ctxs[c].baseline { return; }
      var buf := ctxs[c].buf;
      var pos := 0;
      while pos < |buf|
        invariant pos <= |buf| && c in ctxs
        invariant Tail(Proxy, buf) == buf[Run(Proxy, buf, pos).1..]
        invariant FrameAll(ok, old(State()), c, Cmds(Proxy, buf))
               == FrameAll(ok, State(), c, Run(Proxy, buf, pos).0)
        decreases |buf| - pos
      {
        var o := ProxyStep(buf, pos);
        match o {
          case Wait => break;
          case Skip(n) => pos := n;
          case Take(n) =>
            assert Run(Proxy, buf, pos).0[1..] == Run(Proxy, buf, n).0;
            FrameOne(ok, c, buf[pos..n]);
            pos := n;
        }
      }
      ctxs := ctxs[c := ctxs[c].(buf := buf[pos..])];
    }

    /** `pc_get_ctx(cookie, 1)`: only a new connection is refused, and only by a full table; the table never
        grows beyond its size, and nothing that is counted changes. */
    method GetCtx(c: nat) returns (found: bool)
      modifies this`ctxs
      ensures found == !NoRoom(old(State()), c)
      ensures State() == if found then WithCtx(old(State()), c) else old(State())
      ensures found ==> c in ctxs
      ensures old(|ctxs|) <= MAX_CTX ==> |ctxs| <= MAX_CTX
      ensures old(Valid()) ==> Valid()
    {
      ghost var g := State();
      if Valid() { WithCtxInv(g, c); }
      if c in ctxs { return true; }
      if |ctxs| >= MAX_CTX { return false; }
      ctxs := ctxs[c := NEW_CTX];
      return true;
    }

    method OnDesc(ok: Deliver, c: nat, d: Desc)
      requires Valid()
      modifies this
      ensures Valid() && Grows(old(State()), State())
      ensures State() == CommitGate.OnDesc(ok, old(State()), c, d)
    {
      hide GateInv, Accepted;
      DescInv(ok, State(), c, d);
      DescGrows(ok, State(), c, d);
      if faulted { return; }
      var found := GetCtx(c);
      if !found { Fail(); return; }
      var ctx := ctxs[c];
      if ctx.ignored { return; }
      ctxs := ctxs[c := ctx.(descs := ctx.descs + [d])];
      if ctx.baseline { TryMatch(ok, c); }
    }

    /** One BATCH message: descriptors are taken until one faults. */
    method OnBatch(ok: Deliver, c: seq<nat>, ds: seq<Desc>)
      requires Valid() && |c| == |ds|
      modifies this
      ensures Valid() && Grows(old(State()), State())
      ensures State() == DescAll(ok, old(State()), c, ds)
    {
      hide GateInv, Accepted;
      var i := 0;
      while i < |ds|
        invariant i <= |ds| && Valid() && Grows(old(State()), State())
        invariant DescAll(ok, old(State()), c, ds) == DescAll(ok, State(), c[i..], ds[i..])
      {
        OnDesc(ok, c[i], ds[i]);
        assert c[i..][1..] == c[i + 1..] && ds[i..][1..] == ds[i + 1..];
        i := i + 1;
        if faulted {
          DescAllFaulted(ok, State(), c[i..], ds[i..]);
          break;
        }
      }
    }

    method OnRecord(ok: Deliver, c: nat, recvSeq: nat, payload: bytes)
      requires Valid()
      modifies this
      ensures Valid() && Grows(old(State()), State())
      ensures State() == CommitGate.OnRecord(ok, old(State()), c, recvSeq, payload)
    {
      hide CommitGate.FrameCtx, CommitGate.TryMatch, GateInv, Accepted;
      RecordInv(ok, State(), c, recvSeq, payload);
      RecordGrows(ok, State(), c, recvSeq, payload);
      if faulted { return; }
      var found := GetCtx(c);
      if !found { Fail(); return; }
      var ctx := ctxs[c];
      if ctx.ignored { return; }
      if ctx.recvValid && recvSeq != ctx.lastRecv + 1 { Fail(); return; }
      ghost var before := ctxs;
      ctxs := ctxs[c := ctx.(lastRecv := recvSeq, recvValid := true)];
      if |ctx.buf| + |payload| > CTX_BUF_CAP { Fail(); return; }
      ctxs := ctxs[c := ctxs[c].(buf := ctx.buf + payload)];
      assert ctxs == before[c := ctx.(lastRecv := recvSeq, recvValid := true, buf := ctx.buf + payload)];
      if ctx.baseline { FrameCtx(ok, c); } else { TryMatch(ok, c); }
    }

    /** Frees a list of commands. */
    method FreeAll(cmds: seq<Cmd>)
      modifies this`pending
      ensures State() == ReleaseAll(old(State()), cmds)
    {
      var i := 0;
      while i < |cmds|
        invariant i <= |cmds|
        invariant ReleaseAll(old(State()), cmds) == ReleaseAll(State(), cmds[i..])
      {
        CmdFree(|cmds[i].data|);
        assert cmds[i..][1..] == cmds[i + 1..];
        i := i + 1;
      }
    }

    method OnBaseline(ok: Deliver, c: nat, next: nat)
      requires Valid()
      modifies this
      ensures Valid() && Grows(old(State()), State())
      ensures State() == CommitGate.OnBaseline(ok, old(State()), c, next)
    {
      hide GateInv, Accepted, CommitGate.FrameCtx, CommitGate.TryMatch, ReleaseAll;
      BaselineInv(ok, State(), c, next);
      BaselineGrows(ok, State(), c, next);
      var found := GetCtx(c);
      if !found { Fail(); return; }
      var ctx := ctxs[c];
      FreeAll(ctx.cmds);
      ctxs := ctxs[c := Ctx(if ctx.baseline then [] else ctx.buf, true, false,
                            if next == 0 then 1 else next, 0, false, [], [])];
      FrameCtx(ok, c);
      TryMatch(ok, c);
    }

    /** The bytes of the connection's commands, and no others, are given back; what was accepted stays. */
    method OnIgnore(c: nat)
      requires Valid()
      modifies this
      ensures Valid() && Grows(old(State()), State())
      ensures State() == CommitGate.OnIgnore(old(State()), c)
      ensures !old(faulted) && !NoRoom(old(State()), c) ==>
        pending == old(pending) - QueuedBytes(old(State()), c) && c in ctxs && ctxs[c].ignored
    {
      hide GateInv, Accepted, ReleaseAll;
      ghost var g := State();
      IgnoreInv(g, c);
      QuietGrows(n => true, g, c, 0, false);
      if !faulted && !NoRoom(g, c) { IgnoreExact(g, c); }
      var found := GetCtx(c);
      if found {
        FreeAll(ctxs[c].cmds);
        ctxs := ctxs[c := NEW_CTX.(ignored := true)];
      }
    }

    method OnForget(c: nat)
      requires Valid()
      modifies this
      ensures Valid() && Grows(old(State()), State())
      ensures State() == CommitGate.OnForget(old(State()), c)
      ensures !old(faulted) ==> pending == old(pending) - QueuedBytes(old(State()), c) && c !in ctxs
    {
      hide GateInv, Accepted, ReleaseAll;
      ghost var g := State();
      ForgetInv(g, c);
      QuietGrows(n => true, g, c, 0, false);
      if !faulted { ForgetExact(g, c); }
      if c in ctxs {
        FreeAll(ctxs[c].cmds);
        ctxs := ctxs - {c};
      }
    }

    /** Nothing is kept any more; the writes that were are accepted as before, those up to the marker
        dropped and the others emitted, in order. */
    method OnResume(ok: Deliver, marker: nat)
      requires Valid()
      modifies this
      ensures Valid() && Grows(old(State()), State())
      ensures State() == CommitGate.OnResume(ok, old(State()), marker)
      ensures !old(faulted) && !faulted ==> rec == [] && History() == old(History())
      ensures !old(faulted) && !faulted ==>
        forall i :: 0 <= i < |old(rec)| ==> Settles(settled, |old(settled)| + i, old(rec)[i], marker)
    {
      hide Replay, GateInv, Accepted, Covered;
      ghost var g := State();
      ResumeInv(ok, g, marker);
      QuietGrows(ok, g, 0, marker, false);
      if !faulted {
        QueueRises(g);
        ReplayExact(ok, rec, marker);
      }
      var failed, done := ReplayQueue(ok, rec, marker);
      rec, recBytes, waitResume, settled := [], 0, false, settled + done;
      if failed { Fail(); }
    }

    /** The BUFFERING edge in `proxy_commit_poll`. */
    method Poll(on: bool)
      requires Valid()
      modifies this
      ensures Valid() && Grows(old(State()), State())
      ensures State() == OnPoll(old(State()), on)
      ensures !faulted && old(buffering) && !on && rec != [] ==> waitResume
    {
      ghost var g := State();
      PollInv(g, on);
      QuietGrows(n => true, g, 0, 0, on);
      if !faulted { RecBytesPositive(rec); }
      hide GateInv, Accepted;
      if on != buffering {
        buffering := on;
        if !on && recBytes > 0 { waitResume := true; }
      }
    }

    /** But for the buffering flag a purged gate is a new one. */
    method Purge()
      modifies this
      ensures Valid() && State() == EmptyGate(old(buffering)) && History() == []
    {
      hide GateInv;
      EmptyInv(buffering);
      ctxs, ready, rec, recBytes, nextGlobal := map[], [], [], 0, 0;
      waitResume, pending, faulted, settled := false, 0, false, [];
    }
  }

  /** At place k of the history is this write: dropped when the marker covers it, else emitted. */
  predicate Settles(settled: seq<Settled>, k: nat, r: Rec, marker: nat) {
    k < |settled| && settled[k] == if r.global <= marker then Dropped(r) else Emitted(r)
  }

  /** The recovery queue is gone through: what is covered is dropped, the rest emitted until a delivery
      fails. */
  method ReplayQueue(ok: Deliver, rec: seq<Rec>, marker: nat) returns (failed: bool, ghost done: seq<Settled>)
    ensures (done, failed) == Replay(ok, rec, marker)
  {
    failed, done := false, [];
    var i := 0;
    assert rec[0..] == rec && [] + Replay(ok, rec, marker).0 == Replay(ok, rec, marker).0;
    while i < |rec|
      invariant i <= |rec| && Replay(ok, rec, marker) == Onward(done, failed, Replay(ok, rec[i..], marker))
    {
      assert rec[i..][1..] == rec[i + 1..];
      ReplayStep(done, ok, rec[i..], marker);
      if !failed && rec[i].global <= marker {
        done := done + [Dropped(rec[i])];
      } else if !failed {
        if !ok(rec[i].global) {
          failed := true;
        } else {
          done := done + [Emitted(rec[i])];
        }
      }
      i := i + 1;
    }
    assert done + [] == done;
  }

  /** What a replay gives once a part of it is there. */
  function Onward(done: seq<Settled>, failed: bool, rest: (seq<Settled>, bool)): (seq<Settled>, bool) {
    if failed then (done, true) else (done + rest.0, rest.1)
  }

  lemma ReplayStep(done: seq<Settled>, ok: Deliver, rec: seq<Rec>, marker: nat)
    requires rec != []
    ensures var rest := Replay(ok, rec[1..], marker);
      Onward(done, false, Replay(ok, rec, marker)) ==
      if rec[0].global <= marker then Onward(done + [Dropped(rec[0])], false, rest)
      else if ok(rec[0].global) then Onward(done + [Emitted(rec[0])], false, rest)
      else (done, true)
  {
    var rest := Replay(ok, rec[1..], marker);
    assert done + ([Dropped(rec[0])] + rest.0) == done + [Dropped(rec[0])] + rest.0;
    assert done + ([Emitted(rec[0])] + rest.0) == done + [Emitted(rec[0])] + rest.0;
    assert done + [] == done;
  }

  lemma PastSmaller(ready: seq<Cmd>, i: nat, cmd: Cmd)
    requires i < |ready| && ready[i].global < cmd.global
    ensures ready[..i] + Insert(ready[i..], cmd) == ready[..i + 1] + Insert(ready[i + 1..], cmd)
  {
    assert ready[i..][1..] == ready[i + 1..];
    var rest := Insert(ready[i + 1..], cmd);
    assert ready[..i] + ([ready[i]] + rest) == ready[..i + 1] + rest;
  }

  lemma AtPlace(ready: seq<Cmd>, i: nat, cmd: Cmd)
    requires i <= |ready| && (i < |ready| ==> ready[i].global >= cmd.global)
    ensures ready[..i] + Insert(ready[i..], cmd) == ready[..i] + [cmd] + ready[i..]
  {
  }

  function DescAll(ok: Deliver, g: Gate, c: seq<nat>, ds: seq<Desc>): Gate
    requires |c| == |ds|
    decreases |ds|
  {
    if ds == [] then g else DescAll(ok, CommitGate.OnDesc(ok, g, c[0], ds[0]), c[1..], ds[1..])
  }

  lemma {:induction false} DescAllFaulted(ok: Deliver, g: Gate, c: seq<nat>, ds: seq<Desc>)
    requires |c| == |ds| && g.faulted
    ensures DescAll(ok, g, c, ds) == g
    decreases |ds|
  {
    if ds != [] {
      DescAllFaulted(ok, g, c[1..], ds[1..]);
    }
  }
}
