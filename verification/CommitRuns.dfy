/** Every step of the system keeps its invariant. */
module CommitRuns {
  import opened Bytes
  import opened Framer
  import opened FramerTheorems
  import opened FramerAgreement
  import opened CommitGate
  import CommitOrder
  import opened CommitMatch
  import opened CommitSystem
  import opened CommitSafety

  // ---------------------------------------------------------------- master: connections

  /** A control message goes behind the channel and in front of the batch. */
  lemma InsertWire(conns: map<nat, Conn>, conns': map<nat, Conn>, a: seq<Msg>, m: Msg, b: seq<Msg>)
    requires WireOk(conns, a + b) && Batched(b) && !m.DescMsg?
    requires forall c :: c in conns ==> c in conns' && conns'[c].first == conns[c].first
    requires !m.ResumeMsg? ==> m.cookie in conns'
    requires m.BaselineMsg? ==> m.next == conns'[m.cookie].first && m.cookie !in conns
    ensures WireOk(conns', a + [m] + b)
  {
    var w := a + [m] + b;
    forall x | x in w ensures x == m || x in a + b {}
    forall i, j | 0 <= i < j < |w| && w[j].BaselineMsg? ensures !About(w[i], w[j].cookie) {
      if j < |a| {
        assert (a + b)[i] == w[i] && (a + b)[j] == w[j];
      } else if j == |a| {
        assert w[i] in a + b;
      }
    }
  }

  lemma WaitingInsert(a: seq<Msg>, m: Msg, b: seq<Msg>, c: nat)
    ensures Waiting(a + [m] + b, c) <==> Waiting(a + b, c) || (m.BaselineMsg? && m.cookie == c)
  {
    var w := a + [m] + b;
    if Waiting(w, c) {
      var i :| 0 <= i < |w| && w[i].BaselineMsg? && w[i].cookie == c;
      if i < |a| {
        assert (a + b)[i] == w[i];
      } else if i > |a| {
        assert (a + b)[i - 1] == w[i];
      }
    }
    if Waiting(a + b, c) {
      var i :| 0 <= i < |a + b| && (a + b)[i].BaselineMsg? && (a + b)[i].cookie == c;
      if i < |a| {
        assert w[i] == (a + b)[i];
      } else {
        assert w[i + 1] == (a + b)[i];
      }
    }
    if m.BaselineMsg? && m.cookie == c {
      assert w[|a|] == m;
    }
  }

  lemma NewConn(first: nat, base: nat, log: seq<bytes>)
    requires first > 0
    ensures ConnOk(Conn(first, [], 0, [], 0, [], []), base, log)
  {
    NothingFramed(Master);
    EmptyClean();
    var none: bytes := [];
    assert none[..0] == none && none[0..] == none;
  }

  /** What the proxy has read of a connection. */
  ghost predicate SameView(s: Sys, s1: Sys, c: nat)
    requires c in s.conns && c in s1.conns
  {
    && s1.conns[c].first == s.conns[c].first
    && Consumed(s1, c) == Consumed(s, c) && Got(s1, c) == Got(s, c)
    && (Waiting(Wire(s1), c) <==> Waiting(Wire(s), c))
  }

  /** Master steps do not touch the gate or what it has read. */
  lemma KeepProxy(s: Sys, s1: Sys)
    requires Inv(s) && MasterInv(s1)
    requires s1.gate == s.gate && s1.base == s.base && s.log <= s1.log
    requires s.conns.Keys <= s1.conns.Keys
    requires forall c :: c in s.conns ==> SameView(s, s1, c)
    requires forall c :: c in s1.conns && c !in s.conns ==> Consumed(s1, c) == [] && Got(s1, c) == []
    ensures Inv(s1)
  {
    hide Aligned, Run, Committed, CommitOrder.GateInv, ConnOk, WireOk, Waiting, RingBytes, WireDescs;
    if !s.gate.faulted {
      CommittedGrows(s.gate, s.base, s.log, s1.log);
      forall c | c in s1.conns
        ensures CtxOk(s1.gate.ctxs, c, s1.conns[c].first, Consumed(s1, c), Got(s1, c), Waiting(Wire(s1), c))
      {
        if c in s.conns { assert SameView(s, s1, c); }
      }
    }
  }

  lemma OpenInv(s: Sys, c: nat, first: nat)
    requires Inv(s) && Enabled(s, Open(c, first))
    ensures Inv(Next(s, Open(c, first)))
  {
    hide ConnInv, ProxyInv, WireOk, Waiting, CleanRun, SameView, Consumed, Got;
    var s1 := Next(s, Open(c, first));
    var m := BaselineMsg(c, first);
    assert Wire(s1) == s.channel + [m] + s.batch;
    InsertWire(s.conns, s1.conns, s.channel, m, s.batch);
    OpenView(s, s1, c, first);
    forall k | k in s1.conns ensures ConnInv(s1, k) { if k != c { SentView(s, s1, m, k); } }
    forall k | k in s.conns ensures SameView(s, s1, k) { SentView(s, s1, m, k); }
    KeepProxy(s, s1);
  }

  /** What a message on the channel that is no descriptor does to a connection. */
  lemma SentView(s: Sys, s1: Sys, m: Msg, k: nat)
    requires MasterInv(s) && k in s.conns && k in s1.conns && s1.conns[k] == s.conns[k] && s1.ring == s.ring
    requires s1.base == s.base && s1.log == s.log && Wire(s1) == s.channel + [m] + s.batch
    requires !m.DescMsg? && (m.BaselineMsg? ==> m.cookie != k)
    ensures ConnInv(s1, k) && SameView(s, s1, k)
  {
    hide ConnOk, WireOk, Waiting, RingBytes, WireDescs;
    WireDescsInsert(s.channel, m, s.batch, k);
    WaitingInsert(s.channel, m, s.batch, k);
    assert ConnInv(s, k);
  }

  /** A new connection: nothing read, nothing on its way but the BASELINE. */
  lemma OpenView(s: Sys, s1: Sys, c: nat, first: nat)
    requires MasterInv(s) && c !in s.conns && first > 0 && c in s1.conns && s1.ring == s.ring && s1.base == s.base
    requires s1.conns[c] == Conn(first, [], 0, [], 0, [], []) && s1.log == s.log
    requires Wire(s1) == s.channel + [BaselineMsg(c, first)] + s.batch
    ensures ConnInv(s1, c) && Consumed(s1, c) == [] && Got(s1, c) == []
  {
    hide ConnOk, WireOk, RingBytes, WireDescs, MasterInv;
    NewConn(first, s.base, s.log);
    NewCookie(s, c);
    WireDescsInsert(s.channel, BaselineMsg(c, first), s.batch, c);
  }

  /** FORGET, IGNORE and RESUME on the channel. */
  lemma SendInv(s: Sys, m: Msg)
    requires Inv(s) && !m.DescMsg? && !m.BaselineMsg?
    requires !m.ResumeMsg? ==> m.cookie in s.conns
    ensures Inv(s.(channel := s.channel + [m]))
  {
    hide ConnInv, ProxyInv, WireOk, Waiting, SameView;
    var s1 := s.(channel := s.channel + [m]);
    assert Wire(s1) == s.channel + [m] + s.batch;
    InsertWire(s.conns, s1.conns, s.channel, m, s.batch);
    forall k | k in s1.conns ensures ConnInv(s1, k) && SameView(s, s1, k) { SentView(s, s1, m, k); }
    KeepProxy(s, s1);
  }

  lemma EmptyClean()
    ensures CleanRun([], 0)
  {
  }

  /** Nothing about a cookie that was never opened is on its way. */
  lemma NewCookie(s: Sys, c: nat)
    requires MasterInv(s) && c !in s.conns
    ensures RingBytes(s.ring, c) == [] && WireDescs(Wire(s), c) == []
  {
    hide ConnOk;
    NoRing(s.ring, c);
    WireDescsNone(Wire(s), c);
  }

  lemma {:induction false} NoRing(ring: seq<Packet>, c: nat)
    requires forall i :: 0 <= i < |ring| ==> ring[i].cookie != c
    ensures RingBytes(ring, c) == []
  {
    if ring != [] {
      NoRing(ring[1..], c);
    }
  }

  lemma FlushInv(s: Sys)
    requires Inv(s)
    ensures Inv(Next(s, Flush))
  {
    hide ConnOk, ProxyInv, WireOk, Waiting, RingBytes, WireDescs;
    var s1 := Next(s, Flush);
    assert Wire(s1) == Wire(s);
    forall k | k in s1.conns ensures ConnInv(s1, k) {
      assert ConnInv(s, k);
    }
    KeepProxy(s, s1);
  }

  // ---------------------------------------------------------------- master: receive

  lemma RecvConn(conn: Conn, p: bytes, base: nat, log: seq<bytes>)
    requires ConnOk(conn, base, log) && CleanRun(conn.stream + p, 0)
    ensures ConnOk(conn.(stream := conn.stream + p, inbuf := conn.inbuf + p, recvs := conn.recvs + 1), base, log)
  {
    hide CleanRun, Describes, Run;
    assert (conn.stream + p)[..conn.parsed] == conn.stream[..conn.parsed];
    assert (conn.stream + p)[conn.parsed..] == conn.stream[conn.parsed..] + p;
  }

  lemma RecvInv(s: Sys, c: nat, p: bytes)
    requires Inv(s) && Enabled(s, Recv(c, p))
    ensures Inv(Next(s, Recv(c, p)))
  {
    hide ConnInv, ProxyInv, WireOk, Waiting, CleanRun, SameView;
    var s1 := Next(s, Recv(c, p));
    assert Wire(s1) == Wire(s);
    WireConns(s.conns, s1.conns, Wire(s));
    forall k | k in s1.conns ensures ConnInv(s1, k) { RecvView(s, c, p, k); }
    forall k | k in s.conns ensures SameView(s, s1, k) { RecvView(s, c, p, k); }
    KeepProxy(s, s1);
  }

  /** What a receive does to one connection. */
  lemma RecvView(s: Sys, c: nat, p: bytes, k: nat)
    requires MasterInv(s) && Enabled(s, Recv(c, p)) && k in s.conns
    ensures ConnInv(Next(s, Recv(c, p)), k) && SameView(s, Next(s, Recv(c, p)), k)
  {
    hide ConnOk, WireOk, Waiting, CleanRun, RingBytes, WireDescs;
    var s1, conn := Next(s, Recv(c, p)), s.conns[k];
    assert Wire(s1) == Wire(s);
    assert ConnInv(s, k);
    RingBytesAppend(s.ring, Packet(c, s.conns[c].recvs + 1, p), k);
    SuffixAppend(RingBytes(s.ring, k), conn.stream, if k == c then p else []);
    assert conn.stream + [] == conn.stream;
    if k == c { RecvConn(conn, p, s.base, s.log); }
  }

  lemma WireConns(conns: map<nat, Conn>, conns': map<nat, Conn>, wire: seq<Msg>)
    requires WireOk(conns, wire)
    requires forall c :: c in conns ==> c in conns' && conns'[c].first == conns[c].first
    ensures WireOk(conns', wire)
  {
  }

  // ---------------------------------------------------------------- master: parse and publish

  function Batch(c: nat, ds: seq<Desc>): (b: seq<Msg>)
    ensures |b| == |ds| && forall i :: 0 <= i < |b| ==> b[i] == DescMsg(c, ds[i])
  {
    if ds == [] then [] else [DescMsg(c, ds[0])] + Batch(c, ds[1..])
  }

  lemma {:induction false} BatchDescs(c: nat, ds: seq<Desc>, k: nat)
    ensures WireDescs(Batch(c, ds), k) == if k == c then ds else []
  {
    if ds != [] {
      assert Batch(c, ds)[1..] == Batch(c, ds[1..]);
      BatchDescs(c, ds[1..], k);
    }
  }

  /** The descriptors published for `cmds`, the next being number `n`. */
  function Published(n: nat, base: nat, logged: nat, cmds: seq<bytes>, writes: seq<bool>): (ds: seq<Desc>)
    requires |cmds| == |writes|
    ensures |ds| == |cmds|
    decreases |cmds|
  {
    if cmds == [] then []
    else
      var g := if writes[0] then base + logged + 1 else 0;
      [Desc(n, g, Fnv(cmds[0]), |cmds[0]|, writes[0])] +
      Published(n + 1, base, if writes[0] then logged + 1 else logged, cmds[1..], writes[1..])
  }

  /** The descriptor of a command dispatched when `logged` writes are in the log. */
  function DescOf(n: nat, base: nat, logged: nat, data: bytes, write: bool): Desc {
    Desc(n, if write then base + logged + 1 else 0, Fnv(data), |data|, write)
  }

  /** The writes among dispatched commands. */
  function Writes(cmds: seq<bytes>, writes: seq<bool>): seq<bytes>
    requires |cmds| == |writes|
    decreases |cmds|
  {
    if cmds == [] then []
    else (if writes[0] then [cmds[0]] else []) + Writes(cmds[1..], writes[1..])
  }

  /** The state after publishing `cmds` with the descriptors `ds`. */
  function PublishedState(s: Sys, c: nat, cmds: seq<bytes>, ds: seq<Desc>, log: seq<bytes>): Sys
    requires c in s.conns
  {
    var conn := s.conns[c];
    s.(conns := s.conns[c := conn.(sent := conn.sent + cmds, descs := conn.descs + ds)],
       log := s.log + log, batch := s.batch + Batch(c, ds))
  }

  lemma PublishTwice(s: Sys, c: nat, a: seq<bytes>, ds: seq<Desc>, log: seq<bytes>,
                     a': seq<bytes>, ds': seq<Desc>, log': seq<bytes>)
    requires c in s.conns
    ensures PublishedState(PublishedState(s, c, a, ds, log), c, a', ds', log')
         == PublishedState(s, c, a + a', ds + ds', log + log')
  {
    var conn := s.conns[c];
    assert conn.sent + a + a' == conn.sent + (a + a');
    assert conn.descs + ds + ds' == conn.descs + (ds + ds');
    assert s.log + log + log' == s.log + (log + log');
    assert s.batch + Batch(c, ds) + Batch(c, ds') == s.batch + Batch(c, ds + ds');
  }

  lemma PublishNothing(s: Sys, c: nat)
    requires c in s.conns
    ensures PublishedState(s, c, [], [], []) == s && Publish(s, c, [], []) == s && Writes([], []) == []
    ensures Published(s.conns[c].first + |s.conns[c].sent|, s.base, |s.log|, [], []) == []
  {
    var conn := s.conns[c];
    assert conn.sent + [] == conn.sent && conn.descs + [] == conn.descs;
    assert s.log + [] == s.log && s.batch + [] == s.batch;
    assert s.conns[c := conn] == s.conns;
  }

  /** Publishing in closed form. */
  lemma {:induction false} PublishAll(s: Sys, c: nat, cmds: seq<bytes>, writes: seq<bool>)
    requires c in s.conns && |cmds| == |writes|
    ensures Publish(s, c, cmds, writes)
         == PublishedState(s, c, cmds,
              Published(s.conns[c].first + |s.conns[c].sent|, s.base, |s.log|, cmds, writes), Writes(cmds, writes))
    decreases |cmds|
  {
    hide Published, Publish, PublishOne, PublishedState, Writes, DescOf;
    var conn := s.conns[c];
    if cmds == [] {
      PublishNothing(s, c);
    } else {
      var n := conn.first + |conn.sent|;
      var d := DescOf(n, s.base, |s.log|, cmds[0], writes[0]);
      var log0 := if writes[0] then [cmds[0]] else [];
      PublishCons(s, c, cmds, writes);
      PublishedCons(n, s.base, |s.log|, cmds, writes);
      WritesCons(cmds, writes);
      PublishFirst(s, c, cmds[0], writes[0]);
      StateParts(s, c, [cmds[0]], [d], log0);
      var s1 := PublishOne(s, c, cmds[0], writes[0]);
      PublishAll(s1, c, cmds[1..], writes[1..]);
      var ds1 := Published(n + 1, s.base, |s1.log|, cmds[1..], writes[1..]);
      PublishTwice(s, c, [cmds[0]], [d], log0, cmds[1..], ds1, Writes(cmds[1..], writes[1..]));
      assert [cmds[0]] + cmds[1..] == cmds;
    }
  }

  lemma StateParts(s: Sys, c: nat, cmds: seq<bytes>, ds: seq<Desc>, log: seq<bytes>)
    requires c in s.conns
    ensures var t := PublishedState(s, c, cmds, ds, log);
      && c in t.conns && t.conns[c].first == s.conns[c].first && t.conns[c].sent == s.conns[c].sent + cmds
      && t.base == s.base && t.log == s.log + log
  {
  }

  /** One command more at the front: its descriptor, then the others'. */
  lemma PublishedCons(n: nat, base: nat, logged: nat, cmds: seq<bytes>, writes: seq<bool>)
    requires |cmds| == |writes| && cmds != []
    ensures Published(n, base, logged, cmds, writes)
      == [DescOf(n, base, logged, cmds[0], writes[0])]
         + Published(n + 1, base, if writes[0] then logged + 1 else logged, cmds[1..], writes[1..])
  {
    hide Fnv;
  }

  lemma PublishCons(s: Sys, c: nat, cmds: seq<bytes>, writes: seq<bool>)
    requires c in s.conns && |cmds| == |writes| && cmds != []
    ensures Publish(s, c, cmds, writes) == Publish(PublishOne(s, c, cmds[0], writes[0]), c, cmds[1..], writes[1..])
  {
    hide PublishOne;
  }

  lemma WritesCons(cmds: seq<bytes>, writes: seq<bool>)
    requires |cmds| == |writes| && cmds != []
    ensures Writes(cmds, writes) == (if writes[0] then [cmds[0]] else []) + Writes(cmds[1..], writes[1..])
  {
  }

  lemma PublishFirst(s: Sys, c: nat, data: bytes, write: bool)
    requires c in s.conns
    ensures PublishOne(s, c, data, write)
         == PublishedState(s, c, [data], [DescOf(s.conns[c].first + |s.conns[c].sent|, s.base, |s.log|, data, write)],
                           if write then [data] else [])
  {
    hide Fnv;
    assert s.log + [] == s.log;
  }

  lemma {:induction false} PublishedDescribes(n: nat, base: nat, log: seq<bytes>, cmds: seq<bytes>, writes: seq<bool>)
    requires |cmds| == |writes|
    ensures var ds := Published(n, base, |log|, cmds, writes);
      forall i :: 0 <= i < |ds| ==> Describes(ds[i], n + i, cmds[i], base, log + Writes(cmds, writes))
    decreases |cmds|
  {
    hide Fnv;
    var ds, log' := Published(n, base, |log|, cmds, writes), log + Writes(cmds, writes);
    if cmds != [] {
      var log1 := if writes[0] then log + [cmds[0]] else log;
      PublishedDescribes(n + 1, base, log1, cmds[1..], writes[1..]);
      var ds1 := Published(n + 1, base, |log1|, cmds[1..], writes[1..]);
      assert log1 + Writes(cmds[1..], writes[1..]) == log';
      forall i | 0 <= i < |ds| ensures Describes(ds[i], n + i, cmds[i], base, log') {
        if i > 0 {
          assert ds[i] == ds1[i - 1] && cmds[i] == cmds[1..][i - 1];
        } else if writes[0] {
          assert log'[|log|] == cmds[0];
        }
      }
    }
  }

  /** Parsing dispatches exactly the commands of the stream that were not dispatched before. */
  lemma ParseConn(conn: Conn, ds: seq<Desc>, base: nat, log: seq<bytes>)
    requires ConnOk(conn, base, log) && |ds| == |Cmds(Master, conn.inbuf)|
    requires forall i :: 0 <= i < |ds| ==>
      Describes(ds[i], conn.first + |conn.sent| + i, Cmds(Master, conn.inbuf)[i], base, log)
    ensures ConnOk(conn.(parsed := |conn.stream|, inbuf := Tail(Master, conn.inbuf),
                         sent := conn.sent + Cmds(Master, conn.inbuf), descs := conn.descs + ds), base, log)
  {
    hide CleanRun, Describes, Run, Calm;
    var a, b := conn.stream[..conn.parsed], conn.stream[conn.parsed..];
    assert a + b == conn.stream;
    CleanRunAgree(conn.stream, 0);
    RunChunk(Master, a, b);
    assert conn.stream[..|conn.stream|] == conn.stream;
    assert Tail(Master, conn.inbuf) + conn.stream[|conn.stream|..] == Tail(Master, conn.inbuf);
    var sent', descs' := conn.sent + Cmds(Master, conn.inbuf), conn.descs + ds;
    forall i | 0 <= i < |sent'| ensures Describes(descs'[i], conn.first + i, sent'[i], base, log) {
      if i >= |conn.sent| {
        var j := i - |conn.sent|;
        assert Describes(ds[j], conn.first + |conn.sent| + j, Cmds(Master, conn.inbuf)[j], base, log);
      }
    }
  }

  lemma AppendBatch(conns: map<nat, Conn>, wire: seq<Msg>, c: nat, ds: seq<Desc>)
    requires WireOk(conns, wire) && c in conns
    ensures WireOk(conns, wire + Batch(c, ds))
    ensures forall k :: Waiting(wire + Batch(c, ds), k) <==> Waiting(wire, k)
  {
    var b := Batch(c, ds);
    var w := wire + b;
    forall x | x in w ensures x in wire || (x.DescMsg? && x.cookie == c) {}
    forall i, j | 0 <= i < j < |w| && w[j].BaselineMsg? ensures !About(w[i], w[j].cookie) {
      assert j < |wire|;
    }
    forall k ensures Waiting(w, k) <==> Waiting(wire, k) {
      if Waiting(w, k) {
        var i :| 0 <= i < |w| && w[i].BaselineMsg? && w[i].cookie == k;
        assert wire[i] == w[i];
      }
      if Waiting(wire, k) {
        var i :| 0 <= i < |wire| && wire[i].BaselineMsg? && wire[i].cookie == k;
        assert w[i] == wire[i];
      }
    }
  }

  lemma SuffixAppend<T>(a: seq<T>, b: seq<T>, c: seq<T>)
    requires IsSuffix(a, b)
    ensures IsSuffix(a + c, b + c)
    ensures Front(b + c, a + c) == Front(b, a)
  {
  }

  lemma PublishConn(s: Sys, s1: Sys, c: nat, ds: seq<Desc>, k: nat)
    requires MasterInv(s) && c in s.conns && k in s.conns && k in s1.conns && s.log <= s1.log
    requires s1.base == s.base && s1.ring == s.ring && Wire(s1) == Wire(s) + Batch(c, ds)
    requires if k == c then s1.conns[k].stream == s.conns[k].stream && s1.conns[k].descs == s.conns[k].descs + ds
             else s1.conns[k] == s.conns[k]
    requires k == c ==> ConnOk(s1.conns[k], s.base, s1.log)
    ensures ConnInv(s1, k)
    ensures Consumed(s1, k) == Consumed(s, k) && Got(s1, k) == Got(s, k)
  {
    hide ConnOk, WireOk, RingBytes, WireDescs, Batch;
    assert ConnInv(s, k);
    WireDescsAppend(Wire(s), Batch(c, ds), k);
    BatchDescs(c, ds, k);
    if k == c {
      SuffixAppend(WireDescs(Wire(s), k), s.conns[k].descs, ds);
    } else {
      ConnGrows(s.conns[k], s.base, s.log, s1.log);
      assert WireDescs(Wire(s), k) + [] == WireDescs(Wire(s), k);
    }
  }

  /** Publishing descriptors `ds` of connection `c` behind everything else. */
  lemma PublishInv(s: Sys, c: nat, conn1: Conn, ds: seq<Desc>, log1: seq<bytes>)
    requires Inv(s) && c in s.conns && s.log <= log1
    requires ConnOk(conn1, s.base, log1) && conn1.first == s.conns[c].first
    requires conn1.stream == s.conns[c].stream && conn1.descs == s.conns[c].descs + ds
    ensures Inv(s.(conns := s.conns[c := conn1], log := log1, batch := s.batch + Batch(c, ds)))
  {
    hide ConnOk, ProxyInv, WireOk, Waiting, RingBytes, WireDescs, IsSuffix, Consumed, Got;
    var s1 := s.(conns := s.conns[c := conn1], log := log1, batch := s.batch + Batch(c, ds));
    assert Wire(s1) == Wire(s) + Batch(c, ds);
    AppendBatch(s.conns, Wire(s), c, ds);
    WireConns(s.conns, s1.conns, Wire(s1));
    forall k | k in s1.conns ensures ConnInv(s1, k) {
      PublishConn(s, s1, c, ds, k);
    }
    assert MasterInv(s1);
    forall k | k in s.conns ensures SameView(s, s1, k) {
      PublishConn(s, s1, c, ds, k);
    }
    KeepProxy(s, s1);
  }

  /** The connection once everything complete in its buffer has been published. */
  ghost function Parsed(s: Sys, c: nat, writes: seq<bool>): Conn
    requires Enabled(s, Parse(c, writes))
  {
    var conn := s.conns[c];
    var cmds := Cmds(Master, conn.inbuf);
    conn.(parsed := |conn.stream|, inbuf := Tail(Master, conn.inbuf), sent := conn.sent + cmds,
          descs := conn.descs + Published(conn.first + |conn.sent|, s.base, |s.log|, cmds, writes))
  }

  lemma ParsedOk(s: Sys, c: nat, writes: seq<bool>)
    requires MasterInv(s) && Enabled(s, Parse(c, writes))
    ensures ConnOk(Parsed(s, c, writes), s.base, s.log + Writes(Cmds(Master, s.conns[c].inbuf), writes))
  {
    hide ConnOk, WireOk, RingBytes, WireDescs, Run, Describes, Published, CleanRun;
    var conn := s.conns[c];
    var cmds := Cmds(Master, conn.inbuf);
    var ds := Published(conn.first + |conn.sent|, s.base, |s.log|, cmds, writes);
    PublishedDescribes(conn.first + |conn.sent|, s.base, s.log, cmds, writes);
    assert ConnInv(s, c);
    ConnGrows(conn, s.base, s.log, s.log + Writes(cmds, writes));
    ParseConn(conn, ds, s.base, s.log + Writes(cmds, writes));
  }

  lemma ParsedNext(s: Sys, c: nat, writes: seq<bool>)
    requires Enabled(s, Parse(c, writes))
    ensures var conn, cmds := s.conns[c], Cmds(Master, s.conns[c].inbuf);
      var ds := Published(conn.first + |conn.sent|, s.base, |s.log|, cmds, writes);
      Next(s, Parse(c, writes)) == s.(conns := s.conns[c := Parsed(s, c, writes)],
                                      log := s.log + Writes(cmds, writes), batch := s.batch + Batch(c, ds))
  {
    hide Run, Published, Publish, Writes, Batch, CleanRun;
    PublishAll(s, c, Cmds(Master, s.conns[c].inbuf), writes);
  }

  lemma ParseInv(s: Sys, c: nat, writes: seq<bool>)
    requires Inv(s) && Enabled(s, Parse(c, writes))
    ensures Inv(Next(s, Parse(c, writes)))
  {
    hide ConnOk, MasterInv, ProxyInv, Run, Published, Publish, Next, Writes, Batch, CleanRun;
    var conn, cmds := s.conns[c], Cmds(Master, s.conns[c].inbuf);
    var ds := Published(conn.first + |conn.sent|, s.base, |s.log|, cmds, writes);
    ParsedOk(s, c, writes);
    ParsedNext(s, c, writes);
    PublishInv(s, c, Parsed(s, c, writes), ds, s.log + Writes(cmds, writes));
  }

  // ---------------------------------------------------------------- proxy

  /** A proxy step that concerns one connection. */
  lemma OneConn(s: Sys, s1: Sys, c: nat)
    requires Inv(s) && MasterInv(s1) && !s.gate.faulted
    requires s1.conns == s.conns && s1.base == s.base && s1.log == s.log && c in s.conns
    requires forall k :: k in s.conns && k != c ==> SameView(s, s1, k)
    requires s1.gate.faulted ||
      (&& SameElsewhere(s.gate.ctxs, s1.gate.ctxs, c)
       && CtxOk(s1.gate.ctxs, c, s.conns[c].first, Consumed(s1, c), Got(s1, c), Waiting(Wire(s1), c))
       && Committed(s1.gate, s.base, s.log) && CommitOrder.GateInv(s1.gate))
    ensures Inv(s1)
  {
    hide Aligned, Run, Committed, CommitOrder.GateInv, ConnOk, WireOk, Waiting, RingBytes, WireDescs;
    if !s1.gate.faulted {
      forall k | k in s1.conns
        ensures CtxOk(s1.gate.ctxs, k, s1.conns[k].first, Consumed(s1, k), Got(s1, k), Waiting(Wire(s1), k))
      {
        if k != c { assert SameView(s, s1, k); }
      }
      forall k | k in s1.gate.ctxs ensures k in s1.conns {
        if k != c { assert k in s.gate.ctxs; }
      }
    }
  }

  /** Once faulted, only the master's part of the invariant is left. */
  lemma FaultedInv(s1: Sys)
    requires MasterInv(s1) && s1.gate.faulted
    ensures Inv(s1)
  {
  }

  lemma PopRing(s: Sys, gate: Gate, k: nat)
    requires MasterInv(s) && s.ring != [] && k in s.conns
    ensures var s1 := s.(ring := s.ring[1..], gate := gate);
      && ConnInv(s1, k)
      && Got(s1, k) == Got(s, k)
      && Consumed(s1, k) == Consumed(s, k) + (if s.ring[0].cookie == k then s.ring[0].payload else [])
      && Consumed(s1, k) <= s.conns[k].stream
  {
    hide ConnOk, WireOk, WireDescs;
    assert ConnInv(s, k);
    var p := if s.ring[0].cookie == k then s.ring[0].payload else [];
    var rest := RingBytes(s.ring[1..], k);
    SuffixPop(p, rest, s.conns[k].stream);
  }

  lemma SuffixPop<T>(p: seq<T>, rest: seq<T>, b: seq<T>)
    requires IsSuffix(p + rest, b)
    ensures IsSuffix(rest, b)
    ensures Front(b, rest) == Front(b, p + rest) + p && Front(b, rest) <= b
  {
    var k := |b| - |p + rest|;
    assert b[k..][|p|..] == rest && b[k..][..|p|] == p;
    assert b[|b| - |rest|..] == b[k..][|p|..];
    assert b[..|b| - |rest|] == b[..k] + b[k..][..|p|];
  }

  lemma RecordInv(s: Sys, ok: Deliver)
    requires Inv(s) && Enabled(s, TakeRecord(ok))
    ensures Inv(Next(s, TakeRecord(ok)))
  {
    hide ConnOk, WireOk, WireDescs, RingBytes, IsSuffix, Consumed;
    hide Got, Committed, CommitOrder.GateInv, CtxOk, OnRecord, Cmds;
    var p := s.ring[0];
    var c := p.cookie;
    var g := OnRecord(ok, s.gate, c, p.recvSeq, p.payload);
    var s1 := s.(ring := s.ring[1..], gate := g);
    assert Wire(s1) == Wire(s);
    forall k | k in s1.conns ensures ConnInv(s1, k) {
      PopRing(s, g, k);
    }
    assert MasterInv(s1);
    if s.gate.faulted {
      assert OnRecord(ok, s.gate, c, p.recvSeq, p.payload).faulted by { StillFaulted(ok, s.gate, c, p); }
      FaultedInv(s1);
    } else {
      PopRing(s, g, c);
      assert ConnInv(s, c);
      GotPrefix(s, c);
      HonestConn(s.conns[c], Consumed(s1, c), Got(s, c), s.base, s.log);
      RecordOk(ok, s.gate, c, p.recvSeq, p.payload, s.conns[c].first, Consumed(s, c), Got(s, c),
               Waiting(Wire(s), c), s.base, s.log);
      CommitOrder.RecordInv(ok, s.gate, c, p.recvSeq, p.payload);
      forall k | k in s.conns && k != c ensures SameView(s, s1, k) {
        PopRing(s, g, k);
        assert Consumed(s, k) + [] == Consumed(s, k);
      }
      OneConn(s, s1, c);
    }
  }

  lemma StillFaulted(ok: Deliver, g: Gate, c: nat, p: Packet)
    requires g.faulted
    ensures OnRecord(ok, g, c, p.recvSeq, p.payload) == g
  {
  }

  lemma GotPrefix(s: Sys, c: nat)
    requires MasterInv(s) && c in s.conns
    ensures Got(s, c) <= s.conns[c].descs && Consumed(s, c) <= s.conns[c].stream
  {
    hide ConnOk, WireOk, WireDescs, RingBytes;
    assert ConnInv(s, c);
  }
}
