/** Master, capture ring, control channel and proxy as one system: every interleaving of receives,
    parses, publications and proxy reads. */
module CommitSystem {
  import opened Bytes
  import opened Framer
  import opened FramerAgreement
  import opened CommitGate
  import CommitOrder
  import opened CommitMatch

  /** A client connection since it joined the session.  `stream` (all bytes received), `parsed` (how
      many of them the last parse had seen), `sent` (commands dispatched) and `descs` (descriptors
      published) are history; `first` is the number its BASELINE announced. */
  datatype Conn = Conn(first: nat, stream: bytes, parsed: nat, inbuf: bytes, recvs: nat,
                       sent: seq<bytes>, descs: seq<Desc>)

  datatype Packet = Packet(cookie: nat, recvSeq: nat, payload: bytes)

  datatype Msg =
    | BaselineMsg(cookie: nat, next: nat)
    | DescMsg(cookie: nat, desc: Desc)
    | IgnoreMsg(cookie: nat)
    | ForgetMsg(cookie: nat)
    | ResumeMsg(marker: nat)

  /** `log` is the session's committed-write log; its i-th entry has `global_seq` base + 1 + i. */
  datatype Sys = Sys(conns: map<nat, Conn>, base: nat, log: seq<bytes>,
                     batch: seq<Msg>, channel: seq<Msg>, ring: seq<Packet>, gate: Gate)

  datatype Event =
    | Open(cookie: nat, first: nat)
    | Recv(cookie: nat, payload: bytes)
    | Parse(cookie: nat, writes: seq<bool>)
    | Flush
    | Close(cookie: nat)
    | ToReplica(cookie: nat)
    | SendResume(marker: nat)
    | TakeRecord(ok: Deliver)
    | TakeMsg(ok: Deliver)
    | PollEdge(buffering: bool)
    | Trouble

  // ---------------------------------------------------------------- steps

  /** A dispatched command gets its number and exactly one descriptor. */
  function PublishOne(s: Sys, c: nat, data: bytes, write: bool): (r: Sys)
    requires c in s.conns
    ensures r.conns.Keys == s.conns.Keys
  {
    var conn := s.conns[c];
    var d := Desc(conn.first + |conn.sent|, if write then s.base + |s.log| + 1 else 0,
                  Fnv(data), |data|, write);
    s.(conns := s.conns[c := conn.(sent := conn.sent + [data], descs := conn.descs + [d])],
       log := if write then s.log + [data] else s.log,
       batch := s.batch + [DescMsg(c, d)])
  }

  function Publish(s: Sys, c: nat, cmds: seq<bytes>, writes: seq<bool>): (r: Sys)
    requires c in s.conns && |cmds| == |writes|
    ensures r.conns.Keys == s.conns.Keys
    decreases |cmds|
  {
    if cmds == [] then s
    else Publish(PublishOne(s, c, cmds[0], writes[0]), c, cmds[1..], writes[1..])
  }

  /** `parse_resp_stream`: every complete command of the buffer is dispatched and published. */
  ghost function ParseStep(s: Sys, c: nat, writes: seq<bool>): Sys
    requires c in s.conns && |writes| == |Cmds(Master, s.conns[c].inbuf)|
  {
    var inbuf := s.conns[c].inbuf;
    var s1 := Publish(s, c, Cmds(Master, inbuf), writes);
    var conn := s1.conns[c];
    s1.(conns := s1.conns[c := conn.(parsed := |conn.stream|, inbuf := Tail(Master, inbuf))])
  }

  ghost function TakeMsgStep(ok: Deliver, s: Sys): Sys
    requires s.channel != []
  {
    var s1 := s.(channel := s.channel[1..]);
    match s.channel[0]
    case BaselineMsg(c, n) => s1.(gate := OnBaseline(ok, s.gate, c, n))
    case DescMsg(c, d) => s1.(gate := OnDesc(ok, s.gate, c, d))
    case IgnoreMsg(c) => s1.(gate := OnIgnore(s.gate, c))
    case ForgetMsg(c) => s1.(gate := OnForget(s.gate, c))
    case ResumeMsg(m) => s1.(gate := OnResume(ok, s.gate, m))
  }

  /** What may happen next.  A cookie is never used twice; a receive keeps the stream one that both
      framers read alike. */
  ghost predicate Enabled(s: Sys, e: Event) {
    match e
    case Open(c, first) => c !in s.conns && first > 0
    case Recv(c, p) => c in s.conns && p != [] && CleanRun(s.conns[c].stream + p, 0)
    case Parse(c, writes) => c in s.conns && |writes| == |Cmds(Master, s.conns[c].inbuf)|
    case Flush => true
    case Close(c) => c in s.conns
    case ToReplica(c) => c in s.conns
    case SendResume(_) => true
    case TakeRecord(_) => s.ring != []
    case TakeMsg(_) => s.channel != []
    case PollEdge(_) => true
    case Trouble => true
  }

  ghost function Next(s: Sys, e: Event): Sys
    requires Enabled(s, e)
  {
    match e
    case Open(c, first) =>
      s.(conns := s.conns[c := Conn(first, [], 0, [], 0, [], [])],
         channel := s.channel + [BaselineMsg(c, first)])
    case Recv(c, p) =>
      var conn := s.conns[c];
      s.(conns := s.conns[c := conn.(stream := conn.stream + p, inbuf := conn.inbuf + p, recvs := conn.recvs + 1)],
         ring := s.ring + [Packet(c, conn.recvs + 1, p)])
    case Parse(c, writes) => ParseStep(s, c, writes)
    case Flush => s.(channel := s.channel + s.batch, batch := [])
    case Close(c) => s.(channel := s.channel + [ForgetMsg(c)])
    case ToReplica(c) => s.(channel := s.channel + [IgnoreMsg(c)])
    case SendResume(m) => s.(channel := s.channel + [ResumeMsg(m)])
    case TakeRecord(ok) =>
      var p := s.ring[0];
      s.(ring := s.ring[1..], gate := OnRecord(ok, s.gate, p.cookie, p.recvSeq, p.payload))
    case TakeMsg(ok) => TakeMsgStep(ok, s)
    case PollEdge(b) => s.(gate := OnPoll(s.gate, b))
    case Trouble => s.(gate := Fault(s.gate))
  }

  ghost predicate IsRun(s: Sys, events: seq<Event>)
    decreases |events|
  {
    events == [] || (Enabled(s, events[0]) && IsRun(Next(s, events[0]), events[1..]))
  }

  ghost function After(s: Sys, events: seq<Event>): Sys
    requires IsRun(s, events)
    decreases |events|
  {
    if events == [] then s else After(Next(s, events[0]), events[1..])
  }

  /** A session that has just begun: nothing captured, nothing published, an empty gate. */
  function Start(base: nat, buffering: bool): Sys {
    Sys(map[], base, [], [], [], [], EmptyGate(buffering))
  }

  // ---------------------------------------------------------------- what is still on its way

  function RingBytes(ring: seq<Packet>, c: nat): bytes {
    if ring == [] then []
    else (if ring[0].cookie == c then ring[0].payload else []) + RingBytes(ring[1..], c)
  }

  function WireDescs(wire: seq<Msg>, c: nat): seq<Desc> {
    if wire == [] then []
    else (if wire[0].DescMsg? && wire[0].cookie == c then [wire[0].desc] else []) + WireDescs(wire[1..], c)
  }

  function Wire(s: Sys): seq<Msg> {
    s.channel + s.batch
  }

  predicate About(m: Msg, c: nat) {
    !m.ResumeMsg? && m.cookie == c
  }

  ghost predicate Waiting(wire: seq<Msg>, c: nat) {
    exists i :: 0 <= i < |wire| && wire[i].BaselineMsg? && wire[i].cookie == c
  }

  predicate IsSuffix<T(==)>(a: seq<T>, b: seq<T>) {
    |a| <= |b| && b[|b| - |a|..] == a
  }

  /** `b` without its suffix `a`. */
  function Front<T>(b: seq<T>, a: seq<T>): seq<T> {
    if |a| <= |b| then b[..|b| - |a|] else b
  }

  /** The part of a connection's stream the proxy has read. */
  function Consumed(s: Sys, c: nat): bytes
    requires c in s.conns
  {
    Front(s.conns[c].stream, RingBytes(s.ring, c))
  }

  /** The descriptors of a connection the proxy has read. */
  function Got(s: Sys, c: nat): seq<Desc>
    requires c in s.conns
  {
    Front(s.conns[c].descs, WireDescs(Wire(s), c))
  }

  // ---------------------------------------------------------------- the invariant

  ghost predicate ConnOk(conn: Conn, base: nat, log: seq<bytes>) {
    && conn.first > 0
    && CleanRun(conn.stream, 0)
    && conn.parsed <= |conn.stream|
    && conn.sent == Cmds(Master, conn.stream[..conn.parsed])
    && conn.inbuf == Tail(Master, conn.stream[..conn.parsed]) + conn.stream[conn.parsed..]
    && |conn.descs| == |conn.sent|
    && forall i :: 0 <= i < |conn.sent| ==> Describes(conn.descs[i], conn.first + i, conn.sent[i], base, log)
  }

  /** A BASELINE is the first message about its connection. */
  ghost predicate BaselineFirst(wire: seq<Msg>) {
    forall i, j :: 0 <= i < j < |wire| && wire[j].BaselineMsg? ==> !About(wire[i], wire[j].cookie)
  }

  /** Messages on their way are about open connections, and BASELINE comes first. */
  ghost predicate WireOk(conns: map<nat, Conn>, wire: seq<Msg>) {
    && (forall m :: m in wire && !m.ResumeMsg? ==> m.cookie in conns)
    && (forall m :: m in wire && m.BaselineMsg? ==> m.next == conns[m.cookie].first)
    && BaselineFirst(wire)
  }

  ghost predicate Batched(batch: seq<Msg>) {
    forall i :: 0 <= i < |batch| ==> batch[i].DescMsg?
  }

  ghost predicate ConnInv(s: Sys, c: nat)
    requires c in s.conns
  {
    && ConnOk(s.conns[c], s.base, s.log)
    && IsSuffix(RingBytes(s.ring, c), s.conns[c].stream)
    && IsSuffix(WireDescs(Wire(s), c), s.conns[c].descs)
  }

  ghost predicate MasterInv(s: Sys) {
    && (forall i :: 0 <= i < |s.ring| ==> s.ring[i].cookie in s.conns)
    && WireOk(s.conns, Wire(s)) && Batched(s.batch)
    && (forall c :: c in s.conns ==> ConnInv(s, c))
  }

  /** A connection whose BASELINE has not been read: its bytes are kept, nothing else happened. */
  predicate Untouched(ctx: Ctx, consumed: bytes) {
    !ctx.baseline && !ctx.ignored && ctx.cmds == [] && ctx.descs == [] && ctx.buf == consumed
  }

  ghost predicate CtxOk(ctxs: map<nat, Ctx>, c: nat, first: nat, consumed: bytes, got: seq<Desc>, waiting: bool) {
    && (waiting ==> got == [] && if c in ctxs then Untouched(ctxs[c], consumed) else consumed == [])
    && (c in ctxs ==>
          var ctx := ctxs[c];
          if ctx.baseline then
            !waiting && !ctx.ignored && ctx.buf == Tail(Proxy, consumed) &&
            Aligned(ctx, first, Cmds(Proxy, consumed), got)
          else ctx.cmds == [])
  }

  ghost predicate ProxyInv(s: Sys) {
    && s.gate.ctxs.Keys <= s.conns.Keys
    && (forall c :: c in s.conns ==>
          CtxOk(s.gate.ctxs, c, s.conns[c].first, Consumed(s, c), Got(s, c), Waiting(Wire(s), c)))
    && Committed(s.gate, s.base, s.log)
    && CommitOrder.GateInv(s.gate)
  }

  ghost predicate Inv(s: Sys) {
    MasterInv(s) && (s.gate.faulted || ProxyInv(s))
  }
}
