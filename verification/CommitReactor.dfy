/** The master's event loop receives and parses a connection before it turns to the next one.  Under
    that discipline the accepted writes are a prefix of the log. */
module CommitReactor {
  import opened Bytes
  import opened Framer
  import opened FramerTheorems
  import opened FramerAgreement
  import opened CommitGate
  import CommitOrder
  import opened CommitMatch
  import opened CommitSystem
  import opened CommitSafety
  import opened CommitRuns
  import opened CommitFirst
  import opened CommitTheorem

  // ---------------------------------------------------------------- the discipline

  /** The master runs its event loop, or stands still, or receives and parses in any order. */
  datatype Mode = Loop | Halted | Any

  /** `busy` has been received but not yet parsed; `closed` have been forgotten or turned replica by the
      master, and `dropped` of these by the proxy too; `first` is the number the gate starts at. */
  datatype Plan = Plan(mode: Mode, busy: Option<nat>, closed: set<nat>, dropped: set<nat>, first: nat)

  /** The proxy has read every record and message about the connection. */
  ghost predicate Done(s: Sys, c: nat) {
    RingBytes(s.ring, c) == [] && WireDescs(Wire(s), c) == [] && !Waiting(Wire(s), c)
  }

  predicate Dropping(m: Msg) {
    m.IgnoreMsg? || m.ForgetMsg?
  }

  /** In its event loop the master does nothing else between a receive and its parse.  It forgets a
      connection, or turns it replica, whenever it likes, and does not read it afterwards; the proxy reads
      that message when it has read everything else about the connection.  The proxy's other steps are
      free. */
  ghost predicate Allowed(s: Sys, plan: Plan, e: Event)
    requires Enabled(s, e)
  {
    match e
    case Recv(c, _) => plan.mode != Halted && plan.busy == None && c !in plan.closed
    case Parse(c, _) => if plan.mode == Loop then plan.busy == Some(c) else plan.mode == Any && c !in plan.closed
    case Open(_, _) => plan.busy == None
    case Flush => plan.busy == None
    case SendResume(_) => plan.busy == None
    case Close(_) => plan.mode == Loop && plan.busy == None
    case ToReplica(_) => plan.mode == Loop && plan.busy == None
    case TakeMsg(_) => Dropping(s.channel[0]) ==> Done(s, s.channel[0].cookie)
    case _ => true
  }

  ghost function Onward(s: Sys, plan: Plan, e: Event): Plan
    requires Enabled(s, e)
  {
    match e
    case Recv(c, _) => if plan.mode == Loop then plan.(busy := Some(c)) else plan
    case Parse(_, _) => plan.(busy := None)
    case Close(c) => plan.(closed := plan.closed + {c})
    case ToReplica(c) => plan.(closed := plan.closed + {c})
    case TakeMsg(_) =>
      if Dropping(s.channel[0]) then plan.(dropped := plan.dropped + {s.channel[0].cookie}) else plan
    case _ => plan
  }

  ghost predicate Disciplined(s: Sys, plan: Plan, events: seq<Event>)
    requires IsRun(s, events)
    decreases |events|
  {
    events == [] ||
    (Allowed(s, plan, events[0]) && Disciplined(Next(s, events[0]), Onward(s, plan, events[0]), events[1..]))
  }

  // ---------------------------------------------------------------- orders on the way

  ghost predicate IsWrite(s: Sys, c: nat, k: nat) {
    c in s.conns && k < |s.conns[c].descs| && s.conns[c].descs[k].write
  }

  /** The k-th command of connection c is the session's first write. */
  ghost predicate IsOne(s: Sys, c: nat, k: nat) {
    IsWrite(s, c, k) && s.conns[c].descs[k].global == s.base + 1
  }

  /** What the proxy will have read of a connection when only ring[i..] is left. */
  function ReadAt(s: Sys, i: nat, c: nat): bytes
    requires c in s.conns && i <= |s.ring|
  {
    Front(s.conns[c].stream, RingBytes(s.ring[i..], c))
  }

  /** By then the proxy will have framed command k of connection c. */
  ghost predicate FramedAt(s: Sys, i: nat, c: nat, k: nat) {
    c in s.conns && i <= |s.ring| && k < |Cmds(Proxy, ReadAt(s, i, c))|
  }

  /** No write leaves the ring before the first one. */
  ghost predicate RingOrder(s: Sys) {
    forall i: nat, c, k: nat, c1, k1: nat ::
      IsWrite(s, c, k) && FramedAt(s, i, c, k) && IsOne(s, c1, k1) ==> FramedAt(s, i, c1, k1)
  }

  ghost predicate GotOne(s: Sys) {
    exists c, k: nat :: IsOne(s, c, k) && k < |Got(s, c)|
  }

  /** The number of the first write announced on the wire. */
  function WireFirst(wire: seq<Msg>): Option<nat> {
    if wire == [] then None
    else if wire[0].DescMsg? && wire[0].desc.write then Some(wire[0].desc.global)
    else WireFirst(wire[1..])
  }

  /** No descriptor of a write is read before that of the first one. */
  ghost predicate DescOrder(s: Sys) {
    && (if s.log == [] then WireFirst(Wire(s)) == None
        else GotOne(s) || WireFirst(Wire(s)) == Some(s.base + 1))
    && (forall c, k: nat :: IsWrite(s, c, k) && k < |Got(s, c)| ==> GotOne(s))
  }

  ghost predicate Rising(descs: seq<Desc>) {
    forall j, k :: 0 <= j < k < |descs| && descs[j].write && descs[k].write ==> descs[j].global < descs[k].global
  }

  ghost predicate ConnsOrdered(s: Sys, plan: Plan) {
    && (forall c :: c in s.conns ==> Rising(s.conns[c].descs))
    && (plan.mode == Loop ==>
          forall c :: c in s.conns && plan.busy != Some(c) ==> s.conns[c].parsed == |s.conns[c].stream|)
  }

  /** The record of the connection being served is the newest in the ring. */
  ghost predicate Newest(s: Sys, c: nat) {
    && c in s.conns
    && (s.ring != [] ==>
          && s.ring[|s.ring| - 1].cookie == c && s.conns[c].parsed <= |s.conns[c].stream|
          && s.conns[c].stream == s.conns[c].stream[..s.conns[c].parsed] + s.ring[|s.ring| - 1].payload)
  }

  ghost predicate BusyOk(s: Sys, plan: Plan) {
    plan.busy.Some? ==> plan.mode == Loop && plan.busy.value !in plan.closed && Newest(s, plan.busy.value)
  }

  ghost predicate ClosedOk(s: Sys, plan: Plan) {
    && (forall i :: 0 <= i < |s.ring| ==> s.ring[i].payload != [])
    && plan.dropped <= plan.closed
    && (forall c :: c in plan.closed ==> c in s.conns && s.conns[c].parsed == |s.conns[c].stream|)
    && (forall c :: c in plan.dropped ==> Done(s, c))
    && (forall m :: m in Wire(s) && Dropping(m) ==> m.cookie in plan.closed)
  }

  ghost predicate MasterOrder(s: Sys, plan: Plan) {
    && (plan.mode != Any ==> RingOrder(s) && plan.first == s.base + 1)
    && DescOrder(s) && ConnsOrdered(s, plan) && BusyOk(s, plan) && ClosedOk(s, plan) && plan.first > 0
  }

  // ---------------------------------------------------------------- the gate's side

  predicate Baselined(g: Gate, c: nat) {
    c in g.ctxs && g.ctxs[c].baseline
  }

  ghost predicate NoWrites(descs: seq<Desc>) {
    forall k :: 0 <= k < |descs| ==> !descs[k].write
  }

  /** A connection is waiting for its BASELINE, is being matched, or was dropped with nothing owed. */
  ghost predicate Served(s: Sys, plan: Plan, c: nat)
    requires c in s.conns
  {
    || Waiting(Wire(s), c)
    || Baselined(s.gate, c)
    || (c in plan.dropped && (Fresh(s.gate) ==> NoWrites(s.conns[c].descs)))
  }

  predicate Greedy(ctx: Ctx) {
    ctx.cmds == [] || ctx.descs == []
  }

  /** No write of the connection has been matched. */
  ghost predicate Quiet(ctx: Ctx, got: seq<Desc>) {
    forall k :: 0 <= k < |got| - |ctx.descs| ==> !got[k].write
  }

  ghost predicate Begun(s: Sys, first: nat) {
    || Started(s.gate, first)
    || (Fresh(s.gate) && forall c :: c in s.conns && Baselined(s.gate, c) ==> Quiet(s.gate.ctxs[c], Got(s, c)))
  }

  ghost predicate GateOrder(s: Sys, plan: Plan) {
    && (forall c :: c in s.conns ==> Served(s, plan, c))
    && (forall c :: c in s.conns && Baselined(s.gate, c) ==> Greedy(s.gate.ctxs[c]))
    && Begun(s, plan.first)
  }

  ghost predicate RInv(s: Sys, plan: Plan) {
    Inv(s) && MasterOrder(s, plan) && (s.gate.faulted || GateOrder(s, plan))
  }

  // ---------------------------------------------------------------- the ring

  lemma {:induction false} RingSuffix(s: Sys, i: nat, c: nat)
    requires MasterInv(s) && c in s.conns && i <= |s.ring|
    ensures IsSuffix(RingBytes(s.ring[i..], c), s.conns[c].stream)
  {
    hide ConnOk, WireOk, WireDescs;
    if i == 0 {
      assert s.ring[0..] == s.ring;
      assert ConnInv(s, c);
    } else {
      RingSuffix(s, i - 1, c);
      var r := s.ring[i - 1..];
      assert r[1..] == s.ring[i..];
      SuffixPop(if r[0].cookie == c then r[0].payload else [], RingBytes(r[1..], c), s.conns[c].stream);
    }
  }

  /** Every published command is framed once the ring is empty. */
  lemma AllFramed(s: Sys, c: nat, k: nat)
    requires MasterInv(s) && c in s.conns && k < |s.conns[c].descs|
    ensures FramedAt(s, |s.ring|, c, k)
  {
    hide CleanRun, Run, Describes, WireOk, WireDescs;
    assert s.ring[|s.ring|..] == [];
    assert ConnInv(s, c);
    var conn := s.conns[c];
    assert ReadAt(s, |s.ring|, c) == conn.stream;
    CleanRunAgree(conn.stream, 0);
    CmdsPrefix(Master, conn.stream[..conn.parsed], conn.stream);
  }

  /** A receive does not change what earlier records complete. */
  lemma RecvFramed(s: Sys, c: nat, p: bytes, i: nat, x: nat, k: nat)
    requires MasterInv(s) && Enabled(s, Recv(c, p)) && i <= |s.ring| && x in s.conns
    ensures FramedAt(Next(s, Recv(c, p)), i, x, k) <==> FramedAt(s, i, x, k)
  {
    hide CleanRun, Run, MasterInv;
    var s1 := Next(s, Recv(c, p));
    var packet := Packet(c, s.conns[c].recvs + 1, p);
    assert s1.ring[i..] == s.ring[i..] + [packet];
    RingBytesAppend(s.ring[i..], packet, x);
    RingSuffix(s, i, x);
    SuffixAppend(RingBytes(s.ring[i..], x), s.conns[x].stream, if x == c then p else []);
    assert s.conns[x].stream + [] == s.conns[x].stream;
    assert ReadAt(s1, i, x) == ReadAt(s, i, x);
  }

  lemma RecvWrites(s: Sys, c: nat, p: bytes, x: nat, k: nat)
    requires Enabled(s, Recv(c, p))
    ensures IsWrite(Next(s, Recv(c, p)), x, k) <==> IsWrite(s, x, k)
    ensures IsOne(Next(s, Recv(c, p)), x, k) <==> IsOne(s, x, k)
    ensures |Next(s, Recv(c, p)).ring| == |s.ring| + 1
  {
    hide CleanRun;
  }

  lemma RecvRing(s: Sys, c: nat, p: bytes)
    requires MasterInv(s) && Enabled(s, Recv(c, p)) && RingOrder(s)
    requires MasterInv(Next(s, Recv(c, p)))
    ensures RingOrder(Next(s, Recv(c, p)))
  {
    hide Enabled, Next, FramedAt, MasterInv, IsWrite, IsOne;
    var s1 := Next(s, Recv(c, p));
    forall i: nat, x, k: nat, c1, k1: nat | IsWrite(s1, x, k) && FramedAt(s1, i, x, k) && IsOne(s1, c1, k1)
      ensures FramedAt(s1, i, c1, k1)
    {
      RecvWrites(s, c, p, x, k);
      RecvWrites(s, c, p, c1, k1);
      FramedBound(s1, i, x, k);
      Exists(s1, x, k);
      Exists(s, x, k);
      Exists(s1, c1, k1);
      Exists(s, c1, k1);
      if i <= |s.ring| {
        RecvFramed(s, c, p, i, x, k);
        RecvFramed(s, c, p, i, c1, k1);
      } else {
        AllFramed(s1, c1, k1);
      }
    }
  }

  lemma Exists(s: Sys, c: nat, k: nat)
    ensures IsOne(s, c, k) ==> IsWrite(s, c, k)
    ensures IsWrite(s, c, k) ==> c in s.conns && k < |s.conns[c].descs|
  {
  }

  lemma MasterPart(s: Sys)
    requires Inv(s)
    ensures MasterInv(s)
  {
    hide MasterInv, ProxyInv;
  }

  lemma FramedBound(s: Sys, i: nat, c: nat, k: nat)
    requires FramedAt(s, i, c, k)
    ensures i <= |s.ring| && c in s.conns
  {
  }

  // ---------------------------------------------------------------- publication

  /** New descriptors number their writes on from `n`, and `logged` says whether there is one. */
  ghost predicate Numbered(ds: seq<Desc>, n: nat, logged: bool) {
    && Rising(ds)
    && (forall k :: 0 <= k < |ds| && ds[k].write ==> ds[k].global > n)
    && (logged <==> FirstWrite(ds) < |ds|)
    && (logged ==> ds[FirstWrite(ds)].global == n + 1)
  }

  lemma {:induction false} PublishedNumbered(n: nat, base: nat, logged: nat, cmds: seq<bytes>, writes: seq<bool>)
    requires |cmds| == |writes|
    ensures Numbered(Published(n, base, logged, cmds, writes), base + logged, Writes(cmds, writes) != [])
    decreases |cmds|
  {
    hide Fnv, Numbered, Published;
    if cmds == [] {
      assert Published(n, base, logged, cmds, writes) == [];
      NumberedNone(base + logged);
    } else {
      var next := if writes[0] then logged + 1 else logged;
      PublishedNumbered(n + 1, base, next, cmds[1..], writes[1..]);
      PublishedCons(n, base, logged, cmds, writes);
      var ds := Published(n + 1, base, next, cmds[1..], writes[1..]);
      NumberedCons(DescOf(n, base, logged, cmds[0], writes[0]), ds, base + logged,
                         Writes(cmds[1..], writes[1..]) != []);
    }
  }

  lemma NumberedNone(n: nat)
    ensures Numbered([], n, false)
  {
  }

  lemma NumberedCons(d: Desc, ds1: seq<Desc>, n: nat, more: bool)
    requires Numbered(ds1, if d.write then n + 1 else n, more) && (d.write ==> d.global == n + 1)
    ensures Numbered([d] + ds1, n, d.write || more)
  {
    hide FirstWrite;
    var ds := [d] + ds1;
    assert ds[1..] == ds1;
    FirstWriteCons(d, ds1);
    forall j, k | 0 <= j < k < |ds| && ds[j].write && ds[k].write ensures ds[j].global < ds[k].global {
      assert ds[k] == ds1[k - 1];
      if j > 0 { assert ds[j] == ds1[j - 1]; }
    }
    forall k | 0 <= k < |ds| && ds[k].write ensures ds[k].global > n {
      if k > 0 { assert ds[k] == ds1[k - 1]; }
    }
  }

  lemma FirstWriteCons(d: Desc, ds: seq<Desc>)
    ensures FirstWrite([d] + ds) == if d.write then 0 else FirstWrite(ds) + 1
  {
    assert ([d] + ds)[1..] == ds;
  }

  /** The master publishes `ds` for everything connection c has sent. */
  ghost predicate Publishes(s: Sys, s1: Sys, c: nat, ds: seq<Desc>) {
    && c in s.conns && c in s1.conns && s1.base == s.base && s1.ring == s.ring && s1.gate == s.gate
    && s1.conns.Keys == s.conns.Keys && (forall x :: x in s.conns && x != c ==> s1.conns[x] == s.conns[x])
    && s1.conns[c].stream == s.conns[c].stream && s1.conns[c].parsed == |s.conns[c].stream|
    && s1.conns[c].descs == s.conns[c].descs + ds && s1.conns[c].recvs == s.conns[c].recvs
    && s1.channel == s.channel && Wire(s1) == Wire(s) + Batch(c, ds)
    && s.log <= s1.log && Numbered(ds, s.base + |s.log|, s1.log != s.log)
  }

  lemma ParsePublishes(s: Sys, c: nat, writes: seq<bool>) returns (ds: seq<Desc>)
    requires Enabled(s, Parse(c, writes))
    ensures Publishes(s, Next(s, Parse(c, writes)), c, ds)
  {
    hide Run, Published, Publish, Writes, Numbered, Batch, CleanRun;
    var conn := s.conns[c];
    var cmds := Cmds(Master, conn.inbuf);
    ds := Published(conn.first + |conn.sent|, s.base, |s.log|, cmds, writes);
    PublishAll(s, c, cmds, writes);
    PublishedNumbered(conn.first + |conn.sent|, s.base, |s.log|, cmds, writes);
    var s1 := Next(s, Parse(c, writes));
    assert Wire(s1) == Wire(s) + Batch(c, ds);
    assert s1.log != s.log <==> Writes(cmds, writes) != [];
  }

  /** Records that are still in the ring, other than the last, complete only published commands. */
  lemma BusyBound(s: Sys, c: nat, i: nat, k: nat)
    requires MasterInv(s) && Newest(s, c) && i < |s.ring| && FramedAt(s, i, c, k)
    ensures k < |s.conns[c].descs|
  {
    hide CleanRun, Run, Describes, WireOk, WireDescs;
    assert ConnInv(s, c);
    var conn := s.conns[c];
    var last := s.ring[|s.ring| - 1];
    assert s.ring[i..] == s.ring[i..|s.ring| - 1] + [last];
    RingBytesAppend(s.ring[i..|s.ring| - 1], last, c);
    RingSuffix(s, i, c);
    assert |ReadAt(s, i, c)| <= conn.parsed;
    assert ReadAt(s, i, c) <= conn.stream[..conn.parsed];
    CleanRunAgree(conn.stream, 0);
    PrefixCmds(conn.stream, conn.stream[..conn.parsed], ReadAt(s, i, c));
  }

  lemma PrefixCmds(stream: bytes, a: bytes, b: bytes)
    requires CleanRun(stream, 0) && b <= a <= stream
    ensures |Cmds(Proxy, b)| <= |Cmds(Master, a)|
  {
    hide Run, CleanRun, Calm;
    assert a + stream[|a|..] == stream;
    CleanRunPrefix(a, stream[|a|..], 0);
    CleanRunAgree(a, 0);
    CmdsPrefix(Proxy, b, a);
  }

  lemma WriteNumber(s: Sys, c: nat, k: nat)
    requires MasterInv(s) && IsWrite(s, c, k)
    ensures s.base < s.conns[c].descs[k].global <= s.base + |s.log|
  {
    hide CleanRun, Run, WireOk, WireDescs, RingBytes, Fnv;
    assert ConnInv(s, c);
    assert Describes(s.conns[c].descs[k], s.conns[c].first + k, s.conns[c].sent[k], s.base, s.log);
  }

  /** What publication does to the writes. */
  lemma PublishWrites(s: Sys, s1: Sys, c: nat, ds: seq<Desc>, x: nat, k: nat)
    requires Publishes(s, s1, c, ds) && IsWrite(s1, x, k)
    ensures IsWrite(s, x, k) || (x == c && k >= |s.conns[c].descs|)
    ensures IsOne(s1, x, k) ==> IsOne(s, x, k) || s.log == []
  {
    hide Batch;
    if x == c && k >= |s.conns[c].descs| {
      assert s1.conns[c].descs[k] == ds[k - |s.conns[c].descs|];
    }
  }

  lemma PublishRing(s: Sys, s1: Sys, c: nat, ds: seq<Desc>)
    requires MasterInv(s) && MasterInv(s1) && RingOrder(s) && Newest(s, c) && Publishes(s, s1, c, ds)
    ensures RingOrder(s1)
  {
    hide MasterInv, FramedAt, IsWrite, IsOne, Newest;
    forall i: nat, x, k: nat, c1, k1: nat | IsWrite(s1, x, k) && FramedAt(s1, i, x, k) && IsOne(s1, c1, k1)
      ensures FramedAt(s1, i, c1, k1)
    {
      PublishWrites(s, s1, c, ds, x, k);
      Exists(s1, c1, k1);
      PublishWrites(s, s1, c, ds, c1, k1);
      FramedBound(s1, i, x, k);
      SameFramed(s, s1, c, ds, i, x, k);
      SameFramed(s, s1, c, ds, i, c1, k1);
      if i == |s.ring| {
        AllFramed(s1, c1, k1);
      } else {
        if x == c { BusyBound(s, c, i, k); }
        if IsWrite(s, x, k) { Exists(s, x, k); WriteNumber(s, x, k); }
      }
    }
  }

  lemma SameFramed(s: Sys, s1: Sys, c: nat, ds: seq<Desc>, i: nat, x: nat, k: nat)
    requires Publishes(s, s1, c, ds)
    ensures FramedAt(s1, i, x, k) <==> FramedAt(s, i, x, k)
  {
    hide Cmds, RingBytes, Numbered, Batch;
  }

  // ---------------------------------------------------------------- descriptors on the wire

  lemma {:induction false} WireFirstAppend(a: seq<Msg>, b: seq<Msg>)
    ensures WireFirst(a + b) == if WireFirst(a).Some? then WireFirst(a) else WireFirst(b)
  {
    if a == [] {
      assert a + b == b;
    } else {
      assert (a + b)[1..] == a[1..] + b;
      WireFirstAppend(a[1..], b);
    }
  }

  lemma WireFirstInsert(a: seq<Msg>, m: Msg, b: seq<Msg>)
    requires !m.DescMsg?
    ensures WireFirst(a + [m] + b) == WireFirst(a + b)
  {
    WireFirstAppend(a + [m], b);
    WireFirstAppend(a, [m]);
    WireFirstAppend(a, b);
    assert WireFirst([m]) == None;
  }

  lemma {:induction false} BatchFirst(c: nat, ds: seq<Desc>)
    ensures WireFirst(Batch(c, ds)) == if FirstWrite(ds) < |ds| then Some(ds[FirstWrite(ds)].global) else None
  {
    if ds != [] {
      assert Batch(c, ds)[1..] == Batch(c, ds[1..]);
      BatchFirst(c, ds[1..]);
    }
  }

  /** A step after which the proxy has got the same descriptors. */
  ghost predicate SameGot(s: Sys, s1: Sys) {
    && s1.base == s.base
    && forall c :: c in s.conns ==>
         c in s1.conns && Got(s1, c) == Got(s, c) &&
         Got(s, c) <= s.conns[c].descs && s.conns[c].descs <= s1.conns[c].descs
  }

  lemma GotOneStays(s: Sys, s1: Sys)
    requires SameGot(s, s1) && GotOne(s)
    ensures GotOne(s1)
  {
    hide Got;
    var c, k: nat :| IsOne(s, c, k) && k < |Got(s, c)|;
    assert IsOne(s1, c, k);
  }

  lemma GotWritesStay(s: Sys, s1: Sys)
    requires SameGot(s, s1) && DescOrder(s)
    requires forall c :: c in s1.conns && c !in s.conns ==> Got(s1, c) == []
    ensures forall c, k: nat :: IsWrite(s1, c, k) && k < |Got(s1, c)| ==> GotOne(s1)
  {
    hide Got, Wire, GotOne;
    forall c, k: nat | IsWrite(s1, c, k) && k < |Got(s1, c)| ensures GotOne(s1) {
      assert s1.conns[c].descs[k] == s.conns[c].descs[k];
      assert IsWrite(s, c, k);
      GotOneStays(s, s1);
    }
  }

  lemma PublishDescs(s: Sys, s1: Sys, c: nat, ds: seq<Desc>)
    requires DescOrder(s) && Publishes(s, s1, c, ds) && SameGot(s, s1)
    ensures DescOrder(s1)
  {
    hide Got, Wire, GotOne, Batch, FirstWrite, WireFirst, SameGot, Rising;
    assert s1.conns.Keys == s.conns.Keys;
    GotWritesStay(s, s1);
    WireFirstAppend(Wire(s), Batch(c, ds));
    BatchFirst(c, ds);
    if GotOne(s) {
      GotOneStays(s, s1);
    }
  }

  lemma InsertDescs(s: Sys, s1: Sys, m: Msg)
    requires DescOrder(s) && SameGot(s, s1) && s1.base == s.base && s1.log == s.log && !m.DescMsg?
    requires Wire(s1) == s.channel + [m] + s.batch || Wire(s1) == Wire(s)
    requires forall c :: c in s1.conns && c !in s.conns ==> Got(s1, c) == []
    ensures DescOrder(s1)
  {
    hide Got, GotOne, WireFirst, SameGot, Rising;
    GotWritesStay(s, s1);
    WireFirstInsert(s.channel, m, s.batch);
    if GotOne(s) {
      GotOneStays(s, s1);
    }
  }

  /** A descriptor is read. */
  lemma PopDescOrder(s: Sys, s1: Sys)
    requires MasterInv(s) && DescOrder(s) && s.channel != []
    requires s1 == s.(channel := s.channel[1..], gate := s1.gate)
    ensures DescOrder(s1)
  {
    hide ConnOk, RingBytes, WireDescs, WireOk, WireFirst, GotOne, Got, Front;
    var m := s.channel[0];
    assert Wire(s1) == Wire(s)[1..] && Wire(s)[0] == m;
    WireFirstPop(Wire(s));
    forall c | c in s.conns
      ensures Got(s1, c) == Got(s, c) + (if m.DescMsg? && m.cookie == c then [m.desc] else [])
      ensures Got(s1, c) <= s.conns[c].descs
    {
      PopDescs(s, c);
      GotIs(s1, c);
    }
    if GotOne(s) {
      PopGotOne(s, s1);
    } else if m.DescMsg? && m.desc.write {
      assert MasterInv(s);
      HeadCookie(s);
      var c, k := m.cookie, |Got(s, m.cookie)|;
      assert Got(s1, c)[k] == m.desc;
      WriteNumber(s, c, k);
      assert IsOne(s1, c, k);
      OneGot(s1, c, k);
    } else {
      forall c, k: nat | c in s.conns && k < |Got(s1, c)| ensures !IsWrite(s1, c, k) {
        assert Got(s1, c)[k] == s.conns[c].descs[k];
        if k < |Got(s, c)| { assert !IsWrite(s, c, k); }
      }
    }
  }

  lemma OneGot(s: Sys, c: nat, k: nat)
    requires IsOne(s, c, k) && k < |Got(s, c)|
    ensures GotOne(s)
  {
  }

  lemma HeadCookie(s: Sys)
    requires MasterInv(s) && s.channel != [] && !s.channel[0].ResumeMsg?
    ensures s.channel[0].cookie in s.conns
  {
    assert Wire(s)[0] == s.channel[0];
  }

  lemma GotIs(s: Sys, c: nat)
    requires c in s.conns
    ensures Got(s, c) == Front(s.conns[c].descs, WireDescs(Wire(s), c))
  {
  }

  lemma PopGotOne(s: Sys, s1: Sys)
    requires GotOne(s) && s1.conns == s.conns && s1.base == s.base
    requires forall c :: c in s.conns ==> |Got(s, c)| <= |Got(s1, c)|
    ensures GotOne(s1)
  {
    hide Got;
    var c, k: nat :| IsOne(s, c, k) && k < |Got(s, c)|;
    assert IsOne(s1, c, k);
  }

  lemma WireFirstPop(wire: seq<Msg>)
    requires wire != []
    ensures WireFirst(wire) ==
      if wire[0].DescMsg? && wire[0].desc.write then Some(wire[0].desc.global) else WireFirst(wire[1..])
  {
  }

  // ---------------------------------------------------------------- master steps

  /** The gate and what it has read are as before; new connections wait for their BASELINE. */
  ghost predicate SameGate(s: Sys, plan: Plan, s1: Sys, plan1: Plan) {
    && s1.gate == s.gate && SameGot(s, s1) && plan.dropped <= plan1.dropped && plan1.first == plan.first
    && (forall c :: c in s.conns ==> (Waiting(Wire(s1), c) <==> Waiting(Wire(s), c)))
    && (forall c :: c in s.conns && c in plan.dropped ==> s1.conns[c].descs == s.conns[c].descs)
    && (forall c :: c in s1.conns && c !in s.conns ==> Waiting(Wire(s1), c) && !Baselined(s.gate, c))
  }

  lemma MasterKeeps(s: Sys, plan: Plan, s1: Sys, plan1: Plan)
    requires GateOrder(s, plan) && SameGate(s, plan, s1, plan1)
    ensures GateOrder(s1, plan1)
  {
    hide Waiting, Wire, Got, Started, Fresh;
    forall c | c in s1.conns ensures Served(s1, plan1, c) {
      if c in s.conns { assert Served(s, plan, c); }
    }
  }

  lemma GotLe(s: Sys, c: nat)
    requires MasterInv(s) && c in s.conns
    ensures Got(s, c) <= s.conns[c].descs
  {
    hide ConnOk, WireOk, WireDescs, RingBytes;
    assert ConnInv(s, c);
  }

  /** A receive in terms of what it changes. */
  ghost predicate Receives(s: Sys, s1: Sys, c: nat, p: bytes) {
    && c in s.conns && c in s1.conns && p != []
    && s1.ring == s.ring + [Packet(c, s.conns[c].recvs + 1, p)]
    && s1.base == s.base && s1.log == s.log && s1.gate == s.gate && Wire(s1) == Wire(s)
    && s1.conns.Keys == s.conns.Keys && (forall x :: x in s.conns && x != c ==> s1.conns[x] == s.conns[x])
    && s1.conns[c].stream == s.conns[c].stream + p && s1.conns[c].parsed == s.conns[c].parsed
    && s1.conns[c].descs == s.conns[c].descs
  }

  lemma RecvReceives(s: Sys, c: nat, p: bytes)
    requires Enabled(s, Recv(c, p))
    ensures Receives(s, Next(s, Recv(c, p)), c, p)
  {
    hide CleanRun;
  }

  lemma ReceivesGot(s: Sys, s1: Sys, c: nat, p: bytes)
    requires MasterInv(s) && Receives(s, s1, c, p)
    ensures SameGot(s, s1)
  {
    hide MasterInv, WireDescs;
    forall x | x in s.conns ensures Got(s1, x) == Got(s, x) && Got(s, x) <= s.conns[x].descs { GotLe(s, x); }
  }

  lemma ReceivesClosed(s: Sys, plan: Plan, s1: Sys, c: nat, p: bytes)
    requires ClosedOk(s, plan) && Receives(s, s1, c, p) && c !in plan.closed
    ensures ClosedOk(s1, plan)
  {
    hide Done, Wire;
    forall x | x in plan.dropped ensures Done(s1, x) { ReceivesDone(s, s1, c, p, x); }
  }

  lemma ReceivesDone(s: Sys, s1: Sys, c: nat, p: bytes, x: nat)
    requires Done(s, x) && Receives(s, s1, c, p) && x != c
    ensures Done(s1, x)
  {
    hide Waiting, WireDescs, Wire;
    RingBytesAppend(s.ring, Packet(c, s.conns[c].recvs + 1, p), x);
  }

  lemma ReceivesR(s: Sys, plan: Plan, s1: Sys, plan1: Plan, c: nat, p: bytes)
    requires RInv(s, plan) && Receives(s, s1, c, p) && plan.busy == None && c !in plan.closed
    requires Inv(s1) && (plan.mode != Any ==> RingOrder(s1)) && plan1 == plan.(busy := plan1.busy)
    requires plan1.busy == if plan.mode == Loop then Some(c) else None
    ensures RInv(s1, plan1)
  {
    hide Inv, MasterInv, RingOrder, DescOrder, GateOrder, ClosedOk, SameGot, Rising, Wire;
    MasterPart(s);
    ReceivesGot(s, s1, c, p);
    InsertDescs(s, s1, ResumeMsg(0));
    ReceivesClosed(s, plan, s1, c, p);
    assert ClosedOk(s1, plan1) by { SameClosed(s1, plan, plan1); }
    if plan.mode == Loop { assert s1.conns[c].stream[..s1.conns[c].parsed] == s.conns[c].stream; }
    assert ConnsOrdered(s1, plan1);
    if !s.gate.faulted { MasterKeeps(s, plan, s1, plan1); }
  }

  lemma SameClosed(s: Sys, plan: Plan, plan1: Plan)
    requires ClosedOk(s, plan) && plan1.closed == plan.closed && plan1.dropped == plan.dropped
    ensures ClosedOk(s, plan1)
  {
    hide Done, Wire;
  }

  lemma DroppedClosed(s: Sys, plan: Plan)
    requires ClosedOk(s, plan)
    ensures plan.dropped <= plan.closed
  {
    hide Done, Wire;
  }

  lemma RecvR(s: Sys, plan: Plan, c: nat, p: bytes)
    requires RInv(s, plan) && Enabled(s, Recv(c, p)) && Allowed(s, plan, Recv(c, p))
    ensures RInv(Next(s, Recv(c, p)), Onward(s, plan, Recv(c, p)))
  {
    hide Next, Enabled, Inv, MasterInv, RingOrder, Receives, Done;
    RecvReceives(s, c, p);
    RecvInv(s, c, p);
    MasterPart(s);
    MasterPart(Next(s, Recv(c, p)));
    if plan.mode != Any { RecvRing(s, c, p); }
    ReceivesR(s, plan, Next(s, Recv(c, p)), Onward(s, plan, Recv(c, p)), c, p);
  }

  lemma PublishesGot(s: Sys, s1: Sys, c: nat, ds: seq<Desc>)
    requires MasterInv(s) && MasterInv(s1) && Publishes(s, s1, c, ds)
    ensures SameGot(s, s1)
    ensures forall x :: Waiting(Wire(s1), x) <==> Waiting(Wire(s), x)
  {
    hide ConnOk, RingBytes, WireOk, Wire, WireDescs, Batch, Numbered;
    WireOkPart(s);
    AppendBatch(s.conns, Wire(s), c, ds);
    forall x | x in s.conns ensures Got(s1, x) == Got(s, x) && Got(s, x) <= s.conns[x].descs {
      GotLe(s, x);
      assert ConnInv(s, x);
      WireDescsAppend(Wire(s), Batch(c, ds), x);
      BatchDescs(c, ds, x);
      SuffixAppend(WireDescs(Wire(s), x), s.conns[x].descs, if x == c then ds else []);
      assert s.conns[x].descs + [] == s.conns[x].descs;
    }
  }

  lemma WireOkPart(s: Sys)
    requires MasterInv(s)
    ensures WireOk(s.conns, Wire(s))
  {
    hide ConnOk, WireOk;
  }

  lemma PublishesClosed(s: Sys, plan: Plan, s1: Sys, c: nat, ds: seq<Desc>)
    requires ClosedOk(s, plan) && Publishes(s, s1, c, ds) && c !in plan.closed
    requires forall x :: Waiting(Wire(s1), x) <==> Waiting(Wire(s), x)
    ensures ClosedOk(s1, plan)
  {
    hide Waiting, WireDescs, Wire, Numbered, RingBytes;
    forall x | x in plan.dropped ensures Done(s1, x) {
      assert Done(s, x);
      WireDescsAppend(Wire(s), Batch(c, ds), x);
      BatchDescs(c, ds, x);
    }
    forall m | m in Wire(s1) && Dropping(m) ensures m.cookie in plan.closed {
      assert m in Wire(s) || m in Batch(c, ds);
    }
  }

  lemma PublishesRising(s: Sys, s1: Sys, c: nat, ds: seq<Desc>)
    requires MasterInv(s) && Publishes(s, s1, c, ds) && Rising(s.conns[c].descs)
    ensures Rising(s1.conns[c].descs)
  {
    hide MasterInv, Wire, Batch, FirstWrite;
    var old', new' := s.conns[c].descs, s1.conns[c].descs;
    forall j, k | 0 <= j < k < |new'| && new'[j].write && new'[k].write ensures new'[j].global < new'[k].global {
      if j < |old'| && k >= |old'| {
        assert IsWrite(s, c, j);
        WriteNumber(s, c, j);
        assert new'[k] == ds[k - |old'|];
      } else if j >= |old'| {
        assert new'[j] == ds[j - |old'|] && new'[k] == ds[k - |old'|];
      }
    }
  }

  lemma PublishesR(s: Sys, plan: Plan, s1: Sys, c: nat, ds: seq<Desc>)
    requires RInv(s, plan) && Publishes(s, s1, c, ds) && Inv(s1) && c !in plan.closed && plan.mode != Halted
    requires plan.mode == Loop ==> plan.busy == Some(c)
    ensures RInv(s1, plan.(busy := None))
  {
    hide Inv, MasterInv, RingOrder, DescOrder, GateOrder, ClosedOk, SameGot;
    hide Rising, Wire, Numbered, Batch, Waiting, Newest;
    MasterPart(s);
    MasterPart(s1);
    PublishesGot(s, s1, c, ds);
    if plan.mode == Loop { PublishRing(s, s1, c, ds); }
    PublishDescs(s, s1, c, ds);
    PublishesRising(s, s1, c, ds);
    PublishesClosed(s, plan, s1, c, ds);
    SameClosed(s1, plan, plan.(busy := None));
    DroppedClosed(s, plan);
    if !s.gate.faulted { MasterKeeps(s, plan, s1, plan.(busy := None)); }
  }

  lemma ParseR(s: Sys, plan: Plan, c: nat, writes: seq<bool>)
    requires RInv(s, plan) && Enabled(s, Parse(c, writes)) && Allowed(s, plan, Parse(c, writes))
    ensures RInv(Next(s, Parse(c, writes)), Onward(s, plan, Parse(c, writes)))
  {
    hide Next, Enabled, Inv, MasterInv, Publishes;
    var ds := ParsePublishes(s, c, writes);
    ParseInv(s, c, writes);
    PublishesR(s, plan, Next(s, Parse(c, writes)), c, ds);
  }

  /** A message other than a descriptor is sent, or the batch is flushed. */
  ghost predicate Sends(s: Sys, s1: Sys, m: Msg) {
    && s1.base == s.base && s1.ring == s.ring && s1.gate == s.gate && s1.log == s.log && !m.DescMsg?
    && (Wire(s1) == s.channel + [m] + s.batch || Wire(s1) == Wire(s))
    && (forall c :: c in s.conns ==> c in s1.conns && s1.conns[c] == s.conns[c])
    && (forall c :: c in s1.conns && c !in s.conns ==>
          Wire(s1) != Wire(s) && m == BaselineMsg(c, s1.conns[c].first) &&
          s1.conns[c] == Conn(s1.conns[c].first, [], 0, [], 0, [], []))
    && (m.BaselineMsg? ==> m.cookie !in s.conns)
  }

  lemma SendsGot(s: Sys, s1: Sys, m: Msg)
    requires MasterInv(s) && Sends(s, s1, m)
    ensures SameGot(s, s1)
    ensures forall c :: c in s.conns ==> (Waiting(Wire(s1), c) <==> Waiting(Wire(s), c))
    ensures forall c :: WireDescs(Wire(s1), c) == WireDescs(Wire(s), c)
    ensures forall c :: c in s1.conns && c !in s.conns ==> Got(s1, c) == [] && Waiting(Wire(s1), c)
  {
    hide MasterInv, WireDescs, Waiting;
    forall c ensures WireDescs(Wire(s1), c) == WireDescs(Wire(s), c) {
      WireDescsInsert(s.channel, m, s.batch, c);
    }
    forall c | c in s.conns ensures Waiting(Wire(s1), c) <==> Waiting(Wire(s), c) {
      WaitingInsert(s.channel, m, s.batch, c);
    }
    forall c | c in s.conns ensures Got(s, c) <= s.conns[c].descs { GotLe(s, c); }
    forall c | c in s1.conns && c !in s.conns ensures Waiting(Wire(s1), c) {
      WaitingInsert(s.channel, m, s.batch, c);
    }
  }

  lemma SendsRing(s: Sys, s1: Sys, m: Msg)
    requires RingOrder(s) && Sends(s, s1, m)
    ensures RingOrder(s1)
  {
    hide Wire, Cmds, RingBytes;
    forall i: nat, x, k: nat, c1, k1: nat | IsWrite(s1, x, k) && FramedAt(s1, i, x, k) && IsOne(s1, c1, k1)
      ensures FramedAt(s1, i, c1, k1)
    {
      assert IsWrite(s, x, k) && FramedAt(s, i, x, k) && IsOne(s, c1, k1);
    }
  }

  lemma SendsClosed(s: Sys, plan: Plan, s1: Sys, m: Msg, closed1: set<nat>)
    requires ClosedOk(s, plan) && Sends(s, s1, m)
    requires forall c :: c in s.conns ==> (Waiting(Wire(s1), c) <==> Waiting(Wire(s), c))
    requires forall c :: WireDescs(Wire(s1), c) == WireDescs(Wire(s), c)
    requires plan.closed <= closed1
    requires forall c :: c in closed1 - plan.closed ==> c in s.conns && s.conns[c].parsed == |s.conns[c].stream|
    requires Dropping(m) ==> m.cookie in closed1
    ensures ClosedOk(s1, plan.(closed := closed1))
  {
    hide Waiting, WireDescs, RingBytes;
    forall c | c in plan.dropped ensures Done(s1, c) {
      assert Done(s, c);
    }
  }

  lemma SendsR(s: Sys, plan: Plan, s1: Sys, m: Msg, closed1: set<nat>)
    requires RInv(s, plan) && Sends(s, s1, m) && plan.busy == None && Inv(s1)
    requires plan.closed <= closed1 && (forall c :: c in closed1 - plan.closed ==> c in s.conns && plan.mode == Loop)
    requires Dropping(m) ==> m.cookie in closed1
    ensures RInv(s1, plan.(closed := closed1))
  {
    hide Inv, MasterInv, RingOrder, DescOrder, GateOrder, ClosedOk, SameGot, Wire, Waiting, Done, Got;
    MasterPart(s);
    SendsGot(s, s1, m);
    if plan.mode != Any { SendsRing(s, s1, m); }
    InsertDescs(s, s1, m);
    SendsClosed(s, plan, s1, m, closed1);
    if !s.gate.faulted {
      KnownCtxs(s);
      MasterKeeps(s, plan, s1, plan.(closed := closed1));
    }
  }

  lemma KnownCtxs(s: Sys)
    requires Inv(s) && !s.gate.faulted
    ensures s.gate.ctxs.Keys <= s.conns.Keys
  {
    hide MasterInv, CtxOk, Committed, CommitOrder.GateInv;
  }

  lemma SendR(s: Sys, plan: Plan, e: Event)
    requires RInv(s, plan) && Enabled(s, e) && Allowed(s, plan, e)
    requires e.Open? || e.Flush? || e.SendResume? || e.Close? || e.ToReplica?
    ensures RInv(Next(s, e), Onward(s, plan, e))
  {
    hide RInv, Next, Inv, Sends, Done, MasterInv, ProxyInv, CleanRun;
    var m := Sent(e);
    SendSends(s, e);
    assert Inv(s) && plan.busy == None by { RInvParts(s, plan); }
    NextInv(s, e);
    var closed := Onward(s, plan, e).closed;
    assert Onward(s, plan, e) == plan.(closed := closed);
    SendsR(s, plan, Next(s, e), m, closed);
  }

  lemma RInvParts(s: Sys, plan: Plan)
    requires RInv(s, plan)
    ensures Inv(s)
  {
    hide Inv, MasterOrder, RingOrder, DescOrder, GateOrder;
  }

  /** The message a master step puts on the channel. */
  function Sent(e: Event): Msg {
    match e
    case Open(c, first) => BaselineMsg(c, first)
    case Close(c) => ForgetMsg(c)
    case ToReplica(c) => IgnoreMsg(c)
    case SendResume(n) => ResumeMsg(n)
    case _ => ResumeMsg(0)
  }

  lemma SendSends(s: Sys, e: Event)
    requires Enabled(s, e) && (e.Open? || e.Flush? || e.SendResume? || e.Close? || e.ToReplica?)
    ensures Sends(s, Next(s, e), Sent(e))
  {
    hide CleanRun;
    var s1, m := Next(s, e), Sent(e);
    if e.Flush? {
      assert Wire(s1) == Wire(s);
    } else {
      assert Wire(s1) == s.channel + [m] + s.batch;
      assert |Wire(s1)| == |Wire(s)| + 1;
    }
  }
}
