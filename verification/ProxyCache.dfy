/** The proxy's cache of writes held back by a barrier: a FIFO of session-tagged nodes with counters. */
module ProxyCache {
  import opened Bytes

  const MAX_BYTES := 256 * 1024 * 1024
  const HIGH_BYTES := 192 * 1024 * 1024
  const LOW_BYTES := 128 * 1024 * 1024

  datatype Node = Node(session: nat, data: bytes)

  datatype Outcome = Ok | Full | Fail

  /** `accepted` and `sent` are history: bytes taken in and bytes sent in full nodes. */
  datatype Cache = Cache(
    nodes: seq<Node>, total: nat, count: nat, dropped: nat, dropBytes: nat, maxBytes: nat,
    overHigh: bool, invalid: bool, hardHit: nat, accepted: nat, sent: nat)

  function Size(nodes: seq<Node>): nat {
    if nodes == [] then 0 else |nodes[0].data| + Size(nodes[1..])
  }

  lemma {:induction false} SizeSnoc(nodes: seq<Node>, n: Node)
    ensures Size(nodes + [n]) == Size(nodes) + |n.data|
  {
    if nodes == [] {
      assert nodes + [n] == [n] && [n][1..] == [];
    } else {
      assert (nodes + [n])[1..] == nodes[1..] + [n];
      SizeSnoc(nodes[1..], n);
    }
  }

  // ---------------------------------------------------------------- operations

  function Clear(c: Cache): Cache {
    c.(nodes := [], total := 0, count := 0, dropped := c.dropped + |c.nodes|,
       dropBytes := c.dropBytes + Size(c.nodes), overHigh := false)
  }

  function Reset(c: Cache): Cache {
    Clear(c).(invalid := false)
  }

  function Water(over: bool, total: nat): bool {
    if !over && total >= HIGH_BYTES then true else if over && total <= LOW_BYTES then false else over
  }

  function Append(c: Cache, data: bytes, session: nat, memory: bool): (Cache, Outcome) {
    if data == [] then (c, Fail)
    else if c.invalid then (c, Full)
    else if c.total + |data| > MAX_BYTES then (Clear(c).(invalid := true, hardHit := c.hardHit + 1), Full)
    else if !memory then (c, Fail)
    else
      var total := c.total + |data|;
      (c.(nodes := c.nodes + [Node(session, data)], total := total, count := c.count + 1,
          maxBytes := if total > c.maxBytes then total else c.maxBytes, overHigh := Water(c.overHigh, total),
          accepted := c.accepted + |data|), Ok)
  }

  /** What a flush sends, drops and leaves; `sends` says which node goes out whole, in turn. */
  datatype Flushed = Flushed(sent: seq<bytes>, dropped: seq<Node>, rest: seq<Node>)

  function FlushNodes(nodes: seq<Node>, session: nat, sends: seq<bool>): Flushed {
    if nodes == [] then Flushed([], [], [])
    else if nodes[0].session != session then
      var f := FlushNodes(nodes[1..], session, sends);
      f.(dropped := [nodes[0]] + f.dropped)
    else if sends != [] && !sends[0] then Flushed([], [], nodes)
    else
      var f := FlushNodes(nodes[1..], session, if sends == [] then [] else sends[1..]);
      f.(sent := [nodes[0].data] + f.sent)
  }

  function TotalLen(parts: seq<bytes>): nat {
    if parts == [] then 0 else |parts[0]| + TotalLen(parts[1..])
  }

  function Flush(c: Cache, session: nat, sends: seq<bool>): Cache {
    var f := FlushNodes(c.nodes, session, sends);
    var total := Size(f.rest);
    c.(nodes := f.rest, total := total, count := |f.rest|, dropped := c.dropped + |f.dropped|,
       dropBytes := c.dropBytes + Size(f.dropped), overHigh := c.overHigh && f.rest != [] && total > LOW_BYTES,
       sent := c.sent + TotalLen(f.sent))
  }

  // ---------------------------------------------------------------- what a flush is

  /** The data of one session's nodes, in order. */
  function Of(nodes: seq<Node>, session: nat): seq<bytes> {
    if nodes == [] then []
    else if nodes[0].session == session then [nodes[0].data] + Of(nodes[1..], session)
    else Of(nodes[1..], session)
  }

  function NotOf(nodes: seq<Node>, session: nat): seq<Node> {
    if nodes == [] then []
    else if nodes[0].session == session then NotOf(nodes[1..], session)
    else [nodes[0]] + NotOf(nodes[1..], session)
  }

  predicate AllSent(sends: seq<bool>) {
    forall i :: 0 <= i < |sends| ==> sends[i]
  }

  /** When every send succeeds a flush sends just the session's data, in the order it came, drops the rest
      and leaves nothing. */
  lemma {:induction false} FlushAll(nodes: seq<Node>, session: nat, sends: seq<bool>)
    requires AllSent(sends)
    ensures FlushNodes(nodes, session, sends) == Flushed(Of(nodes, session), NotOf(nodes, session), [])
  {
    if nodes != [] {
      FlushAll(nodes[1..], session, if nodes[0].session != session || sends == [] then sends else sends[1..]);
    }
  }

  /** Whatever fails: what was sent, together with what is left, is the session's data in order; a node
      that failed is the first one left; nothing of another session is sent. */
  lemma FlushSome(nodes: seq<Node>, session: nat, sends: seq<bool>)
    ensures var f := FlushNodes(nodes, session, sends);
      && f.sent + Of(f.rest, session) == Of(nodes, session)
      && |f.rest| <= |nodes| && f.rest == nodes[|nodes| - |f.rest|..]
      && (f.rest != [] ==> f.rest[0].session == session)
      && f.dropped == NotOf(nodes[..|nodes| - |f.rest|], session)
  {
    hide FlushNodes, Of, NotOf;
    FlushOrder(nodes, session, sends);
    FlushCut(nodes, session, sends);
  }

  /** The flush of what follows the head. */
  function Rest(nodes: seq<Node>, session: nat, sends: seq<bool>): Flushed
    requires nodes != []
  {
    FlushNodes(nodes[1..], session, if nodes[0].session != session || sends == [] then sends else sends[1..])
  }

  /** A send fails at the head. */
  predicate Fails(nodes: seq<Node>, session: nat, sends: seq<bool>) {
    nodes != [] && nodes[0].session == session && sends != [] && !sends[0]
  }

  lemma {:induction false} FlushOrder(nodes: seq<Node>, session: nat, sends: seq<bool>)
    ensures var f := FlushNodes(nodes, session, sends);
      f.sent + Of(f.rest, session) == Of(nodes, session) && (f.rest != [] ==> f.rest[0].session == session)
  {
    if nodes != [] && !Fails(nodes, session, sends) {
      FlushOrder(nodes[1..], session, if nodes[0].session != session || sends == [] then sends else sends[1..]);
      var g := Rest(nodes, session, sends);
      var d, o := nodes[0].data, Of(g.rest, session);
      assert [d] + g.sent + o == [d] + (g.sent + o);
    }
  }

  lemma {:induction false} FlushCut(nodes: seq<Node>, session: nat, sends: seq<bool>)
    ensures var f := FlushNodes(nodes, session, sends);
      && |f.rest| <= |nodes| && f.rest == nodes[|nodes| - |f.rest|..]
      && f.dropped == NotOf(nodes[..|nodes| - |f.rest|], session)
  {
    if nodes == [] || Fails(nodes, session, sends) {
      assert nodes[..0] == [] && nodes[0..] == nodes;
    } else {
      FlushCut(nodes[1..], session, if nodes[0].session != session || sends == [] then sends else sends[1..]);
      var rest, g := nodes[1..], Rest(nodes, session, sends);
      var k := |rest| - |g.rest|;
      assert nodes[k + 1..] == rest[k..];
      assert nodes[..k + 1][1..] == rest[..k] && nodes[..k + 1][0] == nodes[0];
    }
  }

  lemma {:induction false} FlushBytes(nodes: seq<Node>, session: nat, sends: seq<bool>)
    ensures var f := FlushNodes(nodes, session, sends); TotalLen(f.sent) + Size(f.dropped) + Size(f.rest) == Size(nodes)
  {
    if nodes != [] && (nodes[0].session != session || sends == [] || sends[0]) {
      FlushBytes(nodes[1..], session, if nodes[0].session != session || sends == [] then sends else sends[1..]);
    }
  }

  // ---------------------------------------------------------------- runs

  datatype Step = Add(data: bytes, session: nat, memory: bool)
      | Send(session: nat, sends: seq<bool>) | Drop | NewSession

  function Next(c: Cache, step: Step): Cache {
    match step
    case Add(data, session, memory) => Append(c, data, session, memory).0
    case Send(session, sends) => Flush(c, session, sends)
    case Drop => Clear(c)
    case NewSession => Reset(c)
  }

  function Run(c: Cache, steps: seq<Step>): Cache
    decreases |steps|
  {
    if steps == [] then c else Run(Next(c, steps[0]), steps[1..])
  }

  const EMPTY := Cache([], 0, 0, 0, 0, 0, false, false, 0, 0, 0)

  ghost predicate Inv(c: Cache) {
    && c.total == Size(c.nodes) && c.count == |c.nodes| && c.total <= MAX_BYTES && c.total <= c.maxBytes <= MAX_BYTES
    && c.accepted == c.sent + c.dropBytes + c.total
    && (c.overHigh ==> c.total > LOW_BYTES) && (!c.overHigh ==> c.total < HIGH_BYTES)
    && (c.invalid ==> c.nodes == [])
  }

  lemma StepInv(c: Cache, step: Step)
    requires Inv(c)
    ensures Inv(Next(c, step))
    ensures c.invalid && !step.NewSession? ==>
      var d := Next(c, step); d.invalid && d.accepted == c.accepted && d.sent == c.sent
  {
    match step {
      case Add(data, session, memory) => SizeSnoc(c.nodes, Node(session, data));
      case Send(session, sends) => FlushBytes(c.nodes, session, sends);
      case Drop =>
      case NewSession =>
    }
  }

  predicate NoNewSession(steps: seq<Step>) {
    steps == [] || (!steps[0].NewSession? && NoNewSession(steps[1..]))
  }

  /** EVERY RUN.  Bytes taken in are bytes sent, dropped or still there; at most 256 MiB are there; the
      high flag means more than 128 MiB, its absence less than 192 MiB; and a cache that is invalid stays
      so, empty, taking in and sending nothing, until a new session. */
  lemma {:induction false} EveryRun(c: Cache, steps: seq<Step>)
    requires Inv(c)
    ensures Inv(Run(c, steps))
    ensures c.invalid && NoNewSession(steps) ==>
      var d := Run(c, steps); d.invalid && d.nodes == [] && d.accepted == c.accepted && d.sent == c.sent
    decreases |steps|
  {
    if steps != [] {
      StepInv(c, steps[0]);
      hide Next;
      EveryRun(Next(c, steps[0]), steps[1..]);
    }
  }

  /** OVERFLOW.  An append overflows exactly when the bytes do not fit.  Everything held is dropped then, and
      in every run that follows nothing is taken in or sent before a new session begins. */
  lemma Overflow(c: Cache, data: bytes, session: nat, memory: bool, steps: seq<Step>)
    requires Inv(c) && data != [] && !c.invalid
    ensures var (d, r) := Append(c, data, session, memory);
      && (r == Full <==> c.total + |data| > MAX_BYTES)
      && (r == Full && NoNewSession(steps) ==>
            var e := Run(d, steps);
            e.invalid && e.nodes == [] && e.accepted == c.accepted && e.sent == c.sent)
      && (r == Full ==> d.dropBytes == c.dropBytes + c.total)
  {
    StepInv(c, Add(data, session, memory));
    hide Run, Inv, NoNewSession;
    EveryRun(Append(c, data, session, memory).0, steps);
  }

  // ---------------------------------------------------------------- in place

  class CacheCtx {
    var nodes: seq<Node>
    var total: nat
    var count: nat
    var dropped: nat
    var dropBytes: nat
    var maxBytes: nat
    var overHigh: bool
    var invalid: bool
    var hardHit: nat
    ghost var accepted: nat
    ghost var sentBytes: nat

    ghost function State(): Cache
      reads this
    {
      Cache(nodes, total, count, dropped, dropBytes, maxBytes, overHigh, invalid, hardHit, accepted, sentBytes)
    }

    /** Counters are exact and within bounds; what was taken in is sent, dropped or there. */
    ghost predicate Valid()
      reads this
    {
      Inv(State())
    }

    constructor ()
      ensures State() == EMPTY && Valid()
    {
      nodes, total, count, dropped, dropBytes, maxBytes := [], 0, 0, 0, 0, 0;
      overHigh, invalid, hardHit, accepted, sentBytes := false, false, 0, 0, 0;
    }

    /** The head leaves the list. */
    method Unlink()
      requires nodes != [] && total == Size(nodes) && count == |nodes|
      modifies this`nodes, this`total, this`count
      ensures nodes == old(nodes)[1..] && total == Size(nodes) && count == |nodes|
    {
      total := total - |nodes[0].data|;
      nodes := nodes[1..];
      count := count - 1;
    }

    /** `cache_clear`: drops node after node from the head. */
    method ClearAll()
      requires Valid()
      modifies this
      ensures Valid() && State() == Clear(old(State()))
    {
      while nodes != []
        invariant total == Size(nodes) && count == |nodes|
        invariant dropped + |nodes| == old(dropped) + |old(nodes)|
        invariant dropBytes + Size(nodes) == old(dropBytes) + Size(old(nodes))
        invariant unchanged(`maxBytes, `overHigh, `invalid, `hardHit, `accepted, `sentBytes)
        decreases |nodes|
      {
        var n := nodes[0];
        Unlink();
        dropped := dropped + 1;
        dropBytes := dropBytes + |n.data|;
      }
      total, count, overHigh := 0, 0, false;
    }

    /** `cache_append`: the data is the last node, or is refused: for good when it does not fit. */
    method AppendData(data: bytes, session: nat, memory: bool) returns (r: Outcome)
      requires Valid()
      modifies this
      ensures Valid() && (State(), r) == Append(old(State()), data, session, memory)
      ensures r == Ok ==> nodes == old(nodes) + [Node(session, data)] && accepted == old(accepted) + |data|
      ensures r != Ok ==> accepted == old(accepted) && (nodes == old(nodes) || (invalid && nodes == []))
      ensures data != [] ==> (r == Full <==> old(invalid) || old(total) + |data| > MAX_BYTES)
      ensures r == Ok <==> data != [] && !old(invalid) && old(total) + |data| <= MAX_BYTES && memory
    {
      hide Inv, Size;
      StepInv(State(), Add(data, session, memory));
      if |data| == 0 { return Fail; }
      if invalid { return Full; }
      if total + |data| > MAX_BYTES {
        ClearAll();
        invalid := true;
        hardHit := hardHit + 1;
        return Full;
      }
      if !memory { return Fail; }
      nodes := nodes + [Node(session, data)];
      total := total + |data|;
      count := count + 1;
      if total > maxBytes { maxBytes := total; }
      if !overHigh && total >= HIGH_BYTES {
        overHigh := true;
      } else if overHigh && total <= LOW_BYTES {
        overHigh := false;
      }
      accepted := accepted + |data|;
      r := Ok;
    }

    /** `cache_reset_for_new_session`: the cache accepts again, holds nothing, and what it held counts as
        dropped. */
    method ResetForNewSession()
      requires Valid()
      modifies this
      ensures Valid() && State() == Reset(old(State()))
      ensures !invalid && nodes == [] && dropBytes == old(dropBytes) + old(total) && accepted == old(accepted)
    {
      ClearAll();
      invalid := false;
    }

    /** `cache_flush`: node by node from the head; stops at a send that fails. */
    method FlushTo(session: nat, sends: seq<bool>) returns (sent: nat, wire: seq<bytes>)
      requires Valid()
      modifies this
      ensures Valid() && State() == Flush(old(State()), session, sends)
      ensures wire == FlushNodes(old(nodes), session, sends).sent && sent == |wire|
    {
      hide Size, TotalLen, FlushNodes, After, Inv;
      StepInv(State(), Send(session, sends));
      Counted(State());
      ghost var all := FlushNodes(nodes, session, sends);
      ghost var gone: seq<Node> := [];
      var script := sends;
      wire, sent := [], 0;
      NoBytes();
      AfterNothing(all);
      while nodes != []
        invariant total == Size(nodes) && count == |nodes| && sent == |wire|
        invariant dropped == old(dropped) + |gone| && dropBytes == old(dropBytes) + Size(gone)
        invariant sentBytes == old(sentBytes) + TotalLen(wire)
        invariant unchanged(`maxBytes, `overHigh, `invalid, `hardHit, `accepted)
        invariant all == After(wire, gone, FlushNodes(nodes, session, script))
        invariant all == FlushNodes(old(nodes), session, sends)
        decreases |nodes|
      {
        var n := nodes[0];
        HeadBytes(nodes);
        if n.session != session {
          DropOne(wire, gone, nodes, session, script);
          SizeSnoc(gone, n);
          gone := gone + [n];
          Unlink();
          dropped := dropped + 1;
          dropBytes := dropBytes + |n.data|;
        } else {
          if script != [] && !script[0] { break; }
          SendOne(wire, gone, nodes, session, script);
          TotalSnoc(wire, n.data);
          wire := wire + [n.data];
          sent := sent + 1;
          script := if script == [] then [] else script[1..];
          Unlink();
          sentBytes := sentBytes + |n.data|;
        }
      }
      FlushEnds(wire, gone, nodes, session, script);
      assert all == Flushed(wire, gone, nodes);
      if nodes == [] {
        total, count, overHigh := 0, 0, false;
      } else if total <= LOW_BYTES {
        overHigh := false;
      }
    }
  }

  /** A flush with a part of its outcome already there. */
  function After(wire: seq<bytes>, gone: seq<Node>, f: Flushed): Flushed {
    Flushed(wire + f.sent, gone + f.dropped, f.rest)
  }

  lemma DropOne(wire: seq<bytes>, gone: seq<Node>, nodes: seq<Node>, session: nat, script: seq<bool>)
    requires nodes != [] && nodes[0].session != session
    ensures After(wire, gone, FlushNodes(nodes, session, script))
      == After(wire, gone + [nodes[0]], FlushNodes(nodes[1..], session, script))
  {
    var f := FlushNodes(nodes[1..], session, script);
    assert gone + ([nodes[0]] + f.dropped) == gone + [nodes[0]] + f.dropped;
  }

  lemma SendOne(wire: seq<bytes>, gone: seq<Node>, nodes: seq<Node>, session: nat, script: seq<bool>)
    requires nodes != [] && nodes[0].session == session && (script == [] || script[0])
    ensures After(wire, gone, FlushNodes(nodes, session, script))
      == After(wire + [nodes[0].data], gone, FlushNodes(nodes[1..], session, if script == [] then [] else script[1..]))
  {
    var f := FlushNodes(nodes[1..], session, if script == [] then [] else script[1..]);
    assert wire + ([nodes[0].data] + f.sent) == wire + [nodes[0].data] + f.sent;
  }

  lemma FlushEnds(wire: seq<bytes>, gone: seq<Node>, nodes: seq<Node>, session: nat, script: seq<bool>)
    requires nodes == [] || (nodes[0].session == session && script != [] && !script[0])
    ensures After(wire, gone, FlushNodes(nodes, session, script)) == Flushed(wire, gone, nodes)
    ensures nodes == [] ==> Size(nodes) == 0
  {
  }

  lemma AfterNothing(f: Flushed)
    ensures After([], [], f) == f
  {
  }

  lemma Counted(c: Cache)
    requires Inv(c)
    ensures c.total == Size(c.nodes) && c.count == |c.nodes|
  {
  }

  lemma NoBytes()
    ensures Size([]) == 0 && TotalLen([]) == 0
  {
  }

  lemma HeadBytes(nodes: seq<Node>)
    requires nodes != []
    ensures Size(nodes) == |nodes[0].data| + Size(nodes[1..])
  {
  }

  lemma {:induction false} TotalSnoc(parts: seq<bytes>, p: bytes)
    ensures TotalLen(parts + [p]) == TotalLen(parts) + |p|
  {
    if parts == [] {
      assert parts + [p] == [p] && [p][1..] == [];
    } else {
      assert (parts + [p])[1..] == parts[1..] + [p];
      TotalSnoc(parts[1..], p);
    }
  }
}
