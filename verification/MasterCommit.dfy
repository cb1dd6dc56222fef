/** The master's publishing side: commands are numbered as they are dispatched, every one gets
    exactly one WRITE or SKIP descriptor, and descriptors go out in batches of at most 64. */
module MasterCommit {
  import opened Bytes
  import opened Framer
  import opened FramerLoops
  import opened CommitGate
  import opened CommitSystem
  import opened CommitRuns
  import ProxyCommit

  const BATCH_MAX := 64

  /** The fields of a client connection that publication uses. */
  class Client {
    var cookie: nat
    var replica: bool
    var inbuf: bytes
    var parsedSeq: nat
    var curSeq: nat
    var curLen: nat
    var curCrc: bv64
    var committed: bool

    constructor (c: nat)
      ensures cookie == c && !replica && inbuf == [] && parsedSeq == 0 && curSeq == 0
    {
      cookie, replica, inbuf, parsedSeq, curSeq := c, false, [], 0, 0;
      curLen, curCrc, committed := 0, 0, false;
    }
  }

  class Publisher {
    var connected: bool
    var session: nat
    var globalSeq: nat
    const batch: array<Msg>
    var n: nat
    /** What has been handed to the control channel. */
    var channel: seq<Msg>
    /** Whether the coming sends succeed; none left means that they do. */
    var sends: seq<bool>

    ghost predicate Valid()
      reads this
    {
      batch.Length == BATCH_MAX && n < BATCH_MAX
    }

    /** The coming sends all succeed. */
    ghost predicate Works()
      reads this
    {
      forall i :: 0 <= i < |sends| ==> sends[i]
    }

    /** Sent and still batched. */
    ghost function Published(): seq<Msg>
      requires Valid()
      reads this, batch
    {
      channel + batch[..n]
    }

    constructor (sid: nat, answers: seq<bool>)
      ensures Valid() && fresh(batch) && Published() == [] && connected && session == sid && globalSeq == 0
      ensures sends == answers
    {
      connected, session, globalSeq, n, channel, sends := true, sid, 0, 0, [], answers;
      batch := new Msg[BATCH_MAX](_ => ResumeMsg(0));
    }

    /** `commit_send_locked`: a send that fails closes the channel. */
    method Send() returns (works: bool)
      modifies this`connected, this`sends
      ensures works == (old(connected) && (old(sends) == [] || old(sends)[0]))
      ensures connected == works
      ensures old(Works()) ==> Works() && connected == old(connected)
    {
      if !connected { return false; }
      works := sends == [] || sends[0];
      if sends != [] { sends := sends[1..]; }
      connected := works;
    }

    /** `commit_flush_locked`: the batch goes out whole, or is lost with the channel. */
    method Flush()
      requires batch.Length == BATCH_MAX && n <= BATCH_MAX
      modifies this`n, this`channel, this`connected, this`sends
      ensures Valid() && n == 0
      ensures connected ==> old(connected) && channel == old(channel + batch[..n])
      ensures !connected ==> channel == old(channel)
      ensures old(Works()) ==> Works() && connected == old(connected)
      ensures connected <==> old(connected) && (old(n) == 0 || old(sends) == [] || old(sends)[0])
    {
      if n == 0 {
        assert channel + batch[..n] == channel;
        return;
      }
      var works := Send();
      if works { channel := channel + batch[..n]; }
      n := 0;
    }

    method BatchAdd(m: Msg)
      requires Valid() && connected
      modifies this`n, this`channel, this`connected, this`sends, batch
      ensures Valid()
      ensures connected ==> Published() == old(Published()) + [m]
      ensures !connected ==> channel == old(channel) && n == 0
      ensures old(Works()) ==> Works() && connected == old(connected)
      ensures connected <==> old(n) + 1 < BATCH_MAX || old(sends) == [] || old(sends)[0]
    {
      batch[n] := m;
      n := n + 1;
      assert channel + batch[..n] == old(Published()) + [m];
      if n >= BATCH_MAX { Flush(); }
    }

    /** Whether a descriptor is due for the client's current command. */
    predicate Due(c: Client)
      reads this, c
    {
      !c.replica && c.cookie != 0 && !c.committed && c.curSeq != 0 && session != 0
    }

    /** A WRITE takes the next number; its descriptor is the next one out, unless the channel fails. */
    method PublishWrite(c: Client)
      requires Valid()
      modifies this`n, this`channel, this`connected, this`sends, this`globalSeq, batch, c`committed
      ensures Valid() && (connected ==> old(connected))
      ensures c.committed == (old(c.committed) || old(Due(c)))
      ensures globalSeq == old(globalSeq) + if old(Due(c) && connected) then 1 else 0
      ensures old(Due(c)) && connected ==>
        Published() == old(Published()) + [DescMsg(c.cookie, Desc(c.curSeq, globalSeq, c.curCrc, c.curLen, true))]
      ensures !connected ==> channel == old(channel)
      ensures !old(Due(c) && connected) ==> Published() == old(Published()) && connected == old(connected)
      ensures old(Works()) ==> Works() && connected == old(connected)
    {
      if !Due(c) { return; }
      c.committed := true;
      if !connected { return; }
      globalSeq := globalSeq + 1;
      BatchAdd(DescMsg(c.cookie, Desc(c.curSeq, globalSeq, c.curCrc, c.curLen, true)));
    }

    method PublishSkip(c: Client)
      requires Valid()
      modifies this`n, this`channel, this`connected, this`sends, batch, c`committed
      ensures Valid() && (connected ==> old(connected))
      ensures c.committed == (old(c.committed) || old(Due(c)))
      ensures old(Due(c)) && connected ==>
        Published() == old(Published()) + [DescMsg(c.cookie, Desc(c.curSeq, 0, c.curCrc, c.curLen, false))]
      ensures !connected ==> channel == old(channel)
      ensures !old(Due(c) && connected) ==> Published() == old(Published()) && connected == old(connected)
      ensures old(Works()) ==> Works() && connected == old(connected)
    {
      if !Due(c) { return; }
      c.committed := true;
      if !connected { return; }
      BatchAdd(DescMsg(c.cookie, Desc(c.curSeq, 0, c.curCrc, c.curLen, false)));
    }

    /** A command is numbered and executed; `write` says whether the engine changed anything.  While the
        channel works exactly one descriptor describes it; once it does not, nothing goes out. */
    method Dispatch(c: Client, data: bytes, write: bool)
      requires Valid() && session != 0 && !c.replica && c.cookie != 0
      modifies this`n, this`channel, this`connected, this`sends, this`globalSeq, batch
      modifies c`committed, c`parsedSeq, c`curSeq, c`curLen, c`curCrc
      ensures Valid() && (connected ==> old(connected)) && c.parsedSeq == old(c.parsedSeq) + 1
      ensures globalSeq == old(globalSeq) + (if write && old(connected) then 1 else 0)
      ensures connected ==>
        Published() == old(Published()) +
          [DescMsg(c.cookie, Desc(c.parsedSeq, if write then globalSeq else 0, Fnv(data), |data|, write))]
      ensures !connected ==> channel == old(channel)
      ensures old(Works()) ==> Works() && connected == old(connected)
    {
      hide Fnv;
      c.parsedSeq := c.parsedSeq + 1;
      c.curSeq := c.parsedSeq;
      c.curLen := |data|;
      c.curCrc := ProxyCommit.Checksum(data);
      c.committed := false;
      if write { PublishWrite(c); }
      PublishSkip(c);
    }

    /** `parse_resp_stream` on a client connection: every complete command of the input buffer is
        dispatched.  What goes out is always a beginning of the descriptors due, one for each command, in
        order; with the channel still up at the end it is all of them. */
    method Parse(c: Client, writes: seq<bool>)
      requires Valid() && session != 0 && !c.replica && c.cookie != 0
      requires |writes| == |Cmds(Master, c.inbuf)|
      modifies this`n, this`channel, this`connected, this`sends, this`globalSeq, batch, c
      ensures Valid() && n == 0 && c.cookie == old(c.cookie) && (connected ==> old(connected))
      ensures c.inbuf == Tail(Master, old(c.inbuf))
      ensures c.parsedSeq == old(c.parsedSeq) + |writes|
      ensures connected ==> globalSeq == old(globalSeq) + |Writes(Cmds(Master, old(c.inbuf)), writes)|
      ensures channel <= old(Published()) +
        Announced(c.cookie, old(c.parsedSeq) + 1, old(globalSeq), Cmds(Master, old(c.inbuf)), writes, |writes|)
      ensures connected ==>
        channel == old(Published()) +
          Announced(c.cookie, old(c.parsedSeq) + 1, old(globalSeq), Cmds(Master, old(c.inbuf)), writes, |writes|)
      ensures !old(connected) ==> channel == old(channel)
      ensures old(Works()) ==> Works() && connected == old(connected)
    {
      hide Step, Announced, Logged, Fnv, Batch, Writes, CommitRuns.Published;
      var buf := c.inbuf;
      ghost var all := Cmds(Master, buf);
      ghost var first, logged := c.parsedSeq + 1, globalSeq;
      var pos, k := 0, 0;
      AnnouncedNone(c.cookie, first, logged, all, writes);
      assert Published() + [] == Published();
      while pos < |buf|
        invariant pos <= |buf| && k <= |writes| && Valid() && session != 0 && (connected ==> old(connected))
        invariant !c.replica && c.cookie == old(c.cookie) && c.cookie != 0
        invariant all[k..] == Run(Master, buf, pos).0
        invariant Tail(Master, buf) == buf[Run(Master, buf, pos).1..]
        invariant c.parsedSeq + 1 == first + k
        invariant connected ==> globalSeq == logged + Logged(all, writes, k)
        invariant connected ==> Published() == old(Published()) + Announced(c.cookie, first, logged, all, writes, k)
        invariant channel <= old(Published()) + Announced(c.cookie, first, logged, all, writes, k)
        invariant !old(connected) ==> channel == old(channel)
        invariant old(Works()) ==> Works() && connected == old(connected)
        decreases |buf| - pos
      {
        var o := MasterStep(buf, pos);
        match o {
          case Wait => break;
          case Stop(p) => pos := p; break;
          case Skip(p) => pos := p;
          case Take(p) =>
            assert all[k..][0] == buf[pos..p];
            assert all[k..][1..] == all[k + 1..];
            AnnouncedMore(c.cookie, first, logged, all, writes, k);
            Dispatch(c, buf[pos..p], writes[k]);
            pos, k := p, k + 1;
        }
      }
      AnnouncedAll(c.cookie, first, logged, all, writes);
      assert k == |all|;
      Flush();
      c.inbuf := buf[pos..];
    }
  }

  /** The messages for the first k commands of a buffer, and the writes among them. */
  function Announced(c: nat, first: nat, logged: nat, cmds: seq<bytes>, writes: seq<bool>, k: nat): seq<Msg>
    requires |cmds| == |writes| && k <= |cmds|
  {
    Batch(c, CommitRuns.Published(first, 0, logged, cmds[..k], writes[..k]))
  }

  function Logged(cmds: seq<bytes>, writes: seq<bool>, k: nat): nat
    requires |cmds| == |writes| && k <= |cmds|
  {
    |Writes(cmds[..k], writes[..k])|
  }

  lemma AnnouncedNone(c: nat, first: nat, logged: nat, cmds: seq<bytes>, writes: seq<bool>)
    requires |cmds| == |writes|
    ensures Announced(c, first, logged, cmds, writes, 0) == [] && Logged(cmds, writes, 0) == 0
  {
  }

  lemma AnnouncedAll(c: nat, first: nat, logged: nat, cmds: seq<bytes>, writes: seq<bool>)
    requires |cmds| == |writes|
    ensures Announced(c, first, logged, cmds, writes, |cmds|)
      == Batch(c, CommitRuns.Published(first, 0, logged, cmds, writes))
    ensures Logged(cmds, writes, |cmds|) == |Writes(cmds, writes)|
  {
    assert cmds[..|cmds|] == cmds && writes[..|cmds|] == writes;
  }

  /** One more command: one more descriptor. */
  lemma AnnouncedMore(c: nat, first: nat, logged: nat, cmds: seq<bytes>, writes: seq<bool>, k: nat)
    requires |cmds| == |writes| && k < |cmds|
    ensures Logged(cmds, writes, k + 1) == Logged(cmds, writes, k) + (if writes[k] then 1 else 0)
    ensures Announced(c, first, logged, cmds, writes, k + 1) == Announced(c, first, logged, cmds, writes, k) +
      [DescMsg(c, Desc(first + k, if writes[k] then logged + Logged(cmds, writes, k) + 1 else 0,
                       Fnv(cmds[k]), |cmds[k]|, writes[k]))]
  {
    hide Fnv, CommitRuns.Published, Writes, Batch;
    PublishedSnoc(first, logged, cmds[..k], writes[..k], cmds[k], writes[k]);
    assert cmds[..k + 1] == cmds[..k] + [cmds[k]] && writes[..k + 1] == writes[..k] + [writes[k]];
    BatchSnoc(c, CommitRuns.Published(first, 0, logged, cmds[..k], writes[..k]),
              Desc(first + k, if writes[k] then logged + Logged(cmds, writes, k) + 1 else 0,
                   Fnv(cmds[k]), |cmds[k]|, writes[k]));
  }

  lemma BatchSnoc(c: nat, ds: seq<Desc>, d: Desc)
    ensures Batch(c, ds + [d]) == Batch(c, ds) + [DescMsg(c, d)]
  {
  }

  lemma {:induction false} PublishedSnoc(n: nat, logged: nat, cmds: seq<bytes>, writes: seq<bool>, data: bytes,
                                         write: bool)
    requires |cmds| == |writes|
    ensures CommitRuns.Published(n, 0, logged, cmds + [data], writes + [write])
      == CommitRuns.Published(n, 0, logged, cmds, writes) +
         [Desc(n + |cmds|, if write then logged + |Writes(cmds, writes)| + 1 else 0, Fnv(data), |data|, write)]
    ensures Writes(cmds + [data], writes + [write]) == Writes(cmds, writes) + (if write then [data] else [])
    decreases |cmds|
  {
    hide Fnv;
    if cmds == [] {
      assert [data][1..] == [] && [write][1..] == [];
      assert cmds + [data] == [data] && writes + [write] == [write];
    } else {
      assert (cmds + [data])[1..] == cmds[1..] + [data] && (writes + [write])[1..] == writes[1..] + [write];
      PublishedSnoc(n + 1, if writes[0] then logged + 1 else logged, cmds[1..], writes[1..], data, write);
    }
  }
}
