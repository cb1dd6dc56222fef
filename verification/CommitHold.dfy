/** What the gate holds back and what it lets through: while it buffers, waits for RESUME or has anything kept,
    every write it accepts is kept; otherwise every write it accepts is delivered. */
module CommitHold {
  import opened Bytes
  import opened Framer
  import opened CommitGate
  import opened CommitOrder
  import opened CommitSystem
  import CommitFaults

  predicate HoldsBack(g: Gate) {
    g.buffering || g.waitResume || g.recBytes > 0
  }

  ghost predicate OnlyEmitted(settled: seq<Settled>) {
    forall i :: 0 <= i < |settled| ==> settled[i].Emitted?
  }

  /** What matching may do: a gate that holds back settles nothing and keeps at the end; one that does not
      keeps nothing and settles by delivery, at the end. */
  ghost predicate Moves(g: Gate, r: Gate) {
    && r.buffering == g.buffering && r.waitResume == g.waitResume
    && if HoldsBack(g) then r.settled == g.settled && g.rec <= r.rec && g.recBytes <= r.recBytes
       else
         && r.rec == g.rec && r.recBytes == g.recBytes
         && g.settled <= r.settled && OnlyEmitted(r.settled[|g.settled|..])
  }

  lemma MovesTwice(a: Gate, b: Gate, c: Gate)
    requires Moves(a, b) && Moves(b, c)
    ensures Moves(a, c)
  {
    if !HoldsBack(a) {
      forall i | 0 <= i < |c.settled| - |a.settled| ensures c.settled[|a.settled|..][i].Emitted? {
        if i < |b.settled| - |a.settled| {
          assert c.settled[|a.settled| + i] == b.settled[|a.settled|..][i];
        } else {
          assert c.settled[|a.settled| + i] == c.settled[|b.settled|..][i - (|b.settled| - |a.settled|)];
        }
      }
    }
  }

  /** Nothing that matters here has changed. */
  lemma SameMoves(g: Gate, r: Gate)
    requires r.buffering == g.buffering && r.waitResume == g.waitResume
    requires r.settled == g.settled && r.rec == g.rec && r.recBytes == g.recBytes
    ensures Moves(g, r)
  {
  }

  // ---------------------------------------------------------------- one write

  /** ONE WRITE.  `pc_emit_cmd`: held back it is kept, last in the queue, and nothing is delivered; otherwise it
      is delivered, last of all, or the gate faults and nothing has changed. */
  lemma EmitExactly(ok: Deliver, g: Gate, cmd: Cmd)
    ensures var r, w := Emit(ok, g, cmd).0, Rec(cmd.global, cmd.data);
      && Moves(g, r)
      && (HoldsBack(g) ==> r.rec == g.rec + [w] && r.settled == g.settled)
      && (!HoldsBack(g) && ok(cmd.global) ==> r.settled == g.settled + [Emitted(w)] && r.rec == g.rec)
      && (!HoldsBack(g) && !ok(cmd.global) ==> r == Fault(g))
  {
    var r := Emit(ok, g, cmd).0;
    if !HoldsBack(g) && ok(cmd.global) {
      assert r.settled[|g.settled|..] == [Emitted(Rec(cmd.global, cmd.data))];
    }
  }

  /** The head of the ready list goes out or is kept. */
  lemma HeadMoves(ok: Deliver, g: Gate)
    requires g.ready != []
    ensures var g1 := Emit(ok, g.(ready := g.ready[1..]), g.ready[0]).0;
      var g2 := Release(g1, |g.ready[0].data|);
      Moves(g, g2) && Moves(g, g2.(nextGlobal := g2.nextGlobal + 1)) && g1.ready == g.ready[1..]
  {
    hide Moves, Emit;
    var g' := g.(ready := g.ready[1..]);
    var g1 := Emit(ok, g', g.ready[0]).0;
    EmitFacts(ok, g', g.ready[0]);
    EmitExactly(ok, g', g.ready[0]);
    SameMoves(g, g');
    MovesTwice(g, g', g1);
    var g2 := Release(g1, |g.ready[0].data|);
    SameMoves(g1, g2);
    SameMoves(g1, g2.(nextGlobal := g2.nextGlobal + 1));
    MovesTwice(g, g1, g2);
    MovesTwice(g, g1, g2.(nextGlobal := g2.nextGlobal + 1));
  }

  lemma {:induction false} DrainMoves(ok: Deliver, g: Gate)
    ensures Moves(g, Drain(ok, g))
    decreases |g.ready|
  {
    hide Moves, Emit, Release;
    if g.ready == [] {
      SameMoves(g, g);
    } else {
      var cmd := g.ready[0];
      var g0 := if g.nextGlobal == 0 then g.(nextGlobal := cmd.global) else g;
      SameMoves(g, g0);
      if cmd.global < g0.nextGlobal {
        SameMoves(g, Fault(g0));
      } else if cmd.global == g0.nextGlobal {
        HeadMoves(ok, g0);
        var (g1, sent) := Emit(ok, g0.(ready := g0.ready[1..]), cmd);
        var g2 := Release(g1, |cmd.data|);
        if sent {
          var g3 := g2.(nextGlobal := g2.nextGlobal + 1);
          ReleaseReady(g1, |cmd.data|);
          DrainMoves(ok, g3);
          MovesTwice(g, g0, g3);
          MovesTwice(g, g3, Drain(ok, g3));
        } else {
          MovesTwice(g, g0, g2);
        }
      }
    }
  }

  lemma ReleaseReady(g: Gate, n: nat)
    ensures Release(g, n).ready == g.ready
  {
  }

  // ---------------------------------------------------------------- one input

  lemma PairMoves(ok: Deliver, g: Gate, c: nat)
    requires c in g.ctxs && g.ctxs[c].cmds != [] && g.ctxs[c].descs != []
    ensures Moves(g, TakePair(ok, g, c))
  {
    hide Moves, Drain, Insert;
    var ctx := g.ctxs[c];
    var g1 := g.(ctxs := g.ctxs[c := ctx.(cmds := ctx.cmds[1..], descs := ctx.descs[1..])]);
    var g2 := g1.(ready := Insert(g1.ready, ctx.cmds[0].(global := ctx.descs[0].global)));
    SameMoves(g, g2);
    DrainMoves(ok, g2);
    MovesTwice(g, g2, Drain(ok, g2));
    SameMoves(g, Release(g1, |ctx.cmds[0].data|));
  }

  lemma {:induction false} MatchMoves(ok: Deliver, g: Gate, c: nat)
    requires c in g.ctxs
    ensures Moves(g, TryMatch(ok, g, c))
    decreases |g.ctxs[c].cmds|
  {
    hide Moves, TakePair, Matches;
    SameMoves(g, g);
    SameMoves(g, Fault(g));
    var ctx := g.ctxs[c];
    if ctx.cmds != [] && ctx.descs != [] && Matches(ctx.cmds[0], ctx.descs[0]) {
      PairMoves(ok, g, c);
      MatchMoves(ok, TakePair(ok, g, c), c);
      MovesTwice(g, TakePair(ok, g, c), TryMatch(ok, g, c));
    }
  }

  lemma {:induction false} FrameMoves(ok: Deliver, g: Gate, c: nat, cmds: seq<bytes>)
    requires c in g.ctxs
    ensures Moves(g, FrameAll(ok, g, c, cmds))
    decreases |cmds|
  {
    hide Moves, TryMatch;
    SameMoves(g, g);
    if cmds != [] {
      var g1 := Queue(g, c, cmds[0]);
      SameMoves(g, g1);
      SameMoves(g, Fault(g1));
      MatchMoves(ok, g1, c);
      MovesTwice(g, g1, TryMatch(ok, g1, c));
      var r := FrameOne(ok, g, c, cmds[0]);
      FrameMoves(ok, r, c, cmds[1..]);
      MovesTwice(g, r, FrameAll(ok, g, c, cmds));
    }
  }

  lemma FrameCtxMoves(ok: Deliver, g: Gate, c: nat)
    requires c in g.ctxs
    ensures Moves(g, FrameCtx(ok, g, c))
  {
    hide Moves, FrameAll, Cmds, Tail;
    SameMoves(g, g);
    var g1 := FrameAll(ok, g, c, Cmds(Proxy, g.ctxs[c].buf));
    FrameMoves(ok, g, c, Cmds(Proxy, g.ctxs[c].buf));
    if g.ctxs[c].baseline {
      SameMoves(g1, FrameCtx(ok, g, c));
      MovesTwice(g, g1, FrameCtx(ok, g, c));
    }
  }

  lemma RecordMoves(ok: Deliver, g: Gate, c: nat, n: nat, p: bytes)
    ensures Moves(g, OnRecord(ok, g, c, n, p))
  {
    hide Moves, TryMatch, FrameCtx;
    var g1 := WithCtx(g, c);
    var ctx := g1.ctxs[c];
    var seen := ctx.(lastRecv := n, recvValid := true);
    var g2 := g1.(ctxs := g1.ctxs[c := seen]);
    var g3 := g1.(ctxs := g1.ctxs[c := seen.(buf := ctx.buf + p)]);
    SameMoves(g, g);
    SameMoves(g, Fault(g));
    SameMoves(g, g1);
    SameMoves(g, Fault(g1));
    SameMoves(g, Fault(g2));
    SameMoves(g, g3);
    MatchMoves(ok, g3, c);
    FrameCtxMoves(ok, g3, c);
    MovesTwice(g, g3, TryMatch(ok, g3, c));
    MovesTwice(g, g3, FrameCtx(ok, g3, c));
  }

  lemma DescMoves(ok: Deliver, g: Gate, c: nat, d: Desc)
    ensures Moves(g, OnDesc(ok, g, c, d))
  {
    hide Moves, TryMatch;
    var g1 := WithCtx(g, c);
    var ctx := g1.ctxs[c];
    var g2 := g1.(ctxs := g1.ctxs[c := ctx.(descs := ctx.descs + [d])]);
    SameMoves(g, g);
    SameMoves(g, Fault(g));
    SameMoves(g, g1);
    SameMoves(g, g2);
    MatchMoves(ok, g2, c);
    MovesTwice(g, g2, TryMatch(ok, g2, c));
  }

  lemma BaselineMoves(ok: Deliver, g: Gate, c: nat, n: nat)
    ensures Moves(g, OnBaseline(ok, g, c, n))
  {
    hide Moves, TryMatch, FrameCtx, ReleaseAll;
    SameMoves(g, Fault(g));
    if !NoRoom(g, c) {
      var g1 := WithCtx(g, c);
      var ctx := g1.ctxs[c];
      var reset := Ctx(if ctx.baseline then [] else ctx.buf, true, false, if n == 0 then 1 else n, 0, false, [], []);
      var g2 := ReleaseAll(g1, ctx.cmds);
      var g3 := g2.(ctxs := g2.ctxs[c := reset]);
      SameMoves(g, g3);
      FrameCtxMoves(ok, g3, c);
      MatchMoves(ok, FrameCtx(ok, g3, c), c);
      MovesTwice(g, g3, FrameCtx(ok, g3, c));
      MovesTwice(g, FrameCtx(ok, g3, c), OnBaseline(ok, g, c, n));
    }
  }

  predicate Matching(i: Input) {
    !i.Resume? && !i.Poll? && !i.PurgeAll?
  }

  lemma ApplyMoves(ok: Deliver, g: Gate, i: Input)
    requires Matching(i)
    ensures Moves(g, Apply(ok, g, i))
  {
    hide Moves, OnRecord, OnDesc, OnBaseline, ReleaseAll;
    match i
    case Record(c, n, p) => RecordMoves(ok, g, c, n, p);
    case Descriptor(c, d) => DescMoves(ok, g, c, d);
    case Baseline(c, n) => BaselineMoves(ok, g, c, n);
    case _ => SameMoves(g, Apply(ok, g, i));
  }

  // ---------------------------------------------------------------- every run of the gate

  /** What ends the holding back is not among the inputs: no purge, no RESUME, and unless RESUME is awaited or
      something is kept, no end of BUFFERING. */
  predicate NoRelease(g: Gate, turns: seq<Turn>) {
    && (forall i :: 0 <= i < |turns| ==> !turns[i].input.Resume? && !turns[i].input.PurgeAll?)
    && (g.waitResume || g.recBytes > 0 || forall i :: 0 <= i < |turns| ==> turns[i].input != Poll(false))
  }

  /** HELD BACK.  A gate that buffers, waits for RESUME or has anything kept delivers nothing and drops nothing,
      whatever records, descriptors and messages come: what it accepts is added to what it keeps.  Only RESUME
      or a purge ends that, or the end of BUFFERING with nothing kept. */
  lemma {:induction false} HeldBack(g: Gate, turns: seq<Turn>)
    requires HoldsBack(g) && NoRelease(g, turns)
    ensures var r := Play(g, turns); r.settled == g.settled && g.rec <= r.rec && HoldsBack(r)
    decreases |turns|
  {
    hide Apply;
    if turns != [] {
      HeldTurn(turns[0].ok, g, turns[0].input);
      HeldBack(Apply(turns[0].ok, g, turns[0].input), turns[1..]);
    }
  }

  lemma HeldTurn(ok: Deliver, g: Gate, i: Input)
    requires HoldsBack(g) && !i.Resume? && !i.PurgeAll? && (g.waitResume || g.recBytes > 0 || i != Poll(false))
    ensures var r := Apply(ok, g, i);
      && r.settled == g.settled && g.rec <= r.rec && HoldsBack(r)
      && (g.waitResume ==> r.waitResume) && g.recBytes <= r.recBytes
      && (r.waitResume || r.recBytes > 0 || (g.buffering && r.buffering))
  {
    hide OnRecord, OnDesc, OnBaseline, OnIgnore, OnForget, OnResume;
    if Matching(i) { ApplyMoves(ok, g, i); }
  }

  /** LET THROUGH.  A gate that neither buffers nor waits for RESUME and has nothing kept keeps nothing, whatever
      comes short of a purge and BUFFERING, RESUME included: every write it accepts has been delivered, in the
      order of acceptance, and none is dropped. */
  lemma {:induction false} LetThrough(g: Gate, turns: seq<Turn>)
    requires !HoldsBack(g) && g.rec == []
    requires forall i :: 0 <= i < |turns| ==> !turns[i].input.PurgeAll? && turns[i].input != Poll(true)
    ensures var r := Play(g, turns);
      r.rec == [] && !HoldsBack(r) && g.settled <= r.settled && OnlyEmitted(r.settled[|g.settled|..])
    decreases |turns|
  {
    hide Apply, Moves;
    SameMoves(g, g);
    if turns != [] {
      var g1 := Apply(turns[0].ok, g, turns[0].input);
      ThroughTurn(turns[0].ok, g, turns[0].input);
      LetThrough(g1, turns[1..]);
      ThroughTwice(g, g1, Play(g1, turns[1..]));
    } else {
      assert g.settled[|g.settled|..] == [];
    }
  }

  lemma ThroughTurn(ok: Deliver, g: Gate, i: Input)
    requires !HoldsBack(g) && g.rec == [] && !i.PurgeAll? && i != Poll(true)
    ensures var r := Apply(ok, g, i);
      r.rec == [] && !HoldsBack(r) && g.settled <= r.settled && OnlyEmitted(r.settled[|g.settled|..])
  {
    hide OnRecord, OnDesc, OnBaseline, OnIgnore, OnForget;
    if Matching(i) { ApplyMoves(ok, g, i); }
  }

  lemma ThroughTwice(a: Gate, b: Gate, c: Gate)
    requires a.settled <= b.settled <= c.settled
    requires OnlyEmitted(b.settled[|a.settled|..]) && OnlyEmitted(c.settled[|b.settled|..])
    ensures a.settled <= c.settled && OnlyEmitted(c.settled[|a.settled|..])
  {
    forall i | 0 <= i < |c.settled| - |a.settled| ensures c.settled[|a.settled|..][i].Emitted? {
      if i < |b.settled| - |a.settled| {
        assert c.settled[|a.settled| + i] == b.settled[|a.settled|..][i];
      } else {
        assert c.settled[|a.settled| + i] == c.settled[|b.settled|..][i - (|b.settled| - |a.settled|)];
      }
    }
  }

  /** WHERE IT BEGINS AND ENDS.  The gate holds back from the moment BUFFERING is seen; when that ends it goes on
      exactly when something is kept or RESUME was awaited before; and a RESUME that does not fault leaves
      nothing kept and ends it, unless the gate is still buffering. */
  lemma EdgesExactly(ok: Deliver, g: Gate, b: bool, marker: nat)
    ensures var r := OnPoll(g, b);
      && (HoldsBack(r) <==> b || g.waitResume || g.recBytes > 0)
      && r.buffering == b && r.rec == g.rec && r.settled == g.settled
    ensures var r := OnResume(ok, g, marker);
      r.rec == [] && !r.waitResume && (HoldsBack(r) <==> g.buffering)
  {
    hide Replay;
  }

  // ---------------------------------------------------------------- every run of the system

  /** What a step of the system is to the gate. */
  function GateInput(s: Sys, e: Event): Option<Input>
    requires (e.TakeRecord? ==> s.ring != []) && (e.TakeMsg? ==> s.channel != [])
  {
    match e
    case TakeRecord(_) => Some(Record(s.ring[0].cookie, s.ring[0].recvSeq, s.ring[0].payload))
    case TakeMsg(_) => Some(CommitFaults.AsInput(s.channel[0]))
    case PollEdge(b) => Some(Poll(b))
    case Trouble => Some(OutsideFault)
    case _ => None
  }

  function Answers(e: Event): Deliver {
    match e
    case TakeRecord(ok) => ok
    case TakeMsg(ok) => ok
    case _ => (_ => true)
  }

  /** The gate's inputs in a run of the system. */
  ghost function Turns(s: Sys, events: seq<Event>): seq<Turn>
    requires IsRun(s, events)
    decreases |events|
  {
    if events == [] then []
    else
      (match GateInput(s, events[0])
       case Some(i) => [Turn(Answers(events[0]), i)]
       case None => [])
      + Turns(Next(s, events[0]), events[1..])
  }

  lemma GateStep(s: Sys, e: Event)
    requires Enabled(s, e)
    ensures Next(s, e).gate ==
      match GateInput(s, e)
      case Some(i) => Apply(Answers(e), s.gate, i)
      case None => s.gate
  {
    hide OnRecord, OnDesc, OnBaseline, OnIgnore, OnForget, OnResume, OnPoll, Cmds, Tail, Publish;
    if e.Parse? { PublishGate(s, e.cookie, Cmds(Master, s.conns[e.cookie].inbuf), e.writes); }
  }

  lemma {:induction false} PublishGate(s: Sys, c: nat, cmds: seq<bytes>, writes: seq<bool>)
    requires c in s.conns && |cmds| == |writes|
    ensures Publish(s, c, cmds, writes).gate == s.gate
    decreases |cmds|
  {
    if cmds != [] { PublishGate(PublishOne(s, c, cmds[0], writes[0]), c, cmds[1..], writes[1..]); }
  }

  /** A run of the system is a run of its gate. */
  lemma {:induction false} GateRun(s: Sys, events: seq<Event>)
    requires IsRun(s, events)
    ensures After(s, events).gate == Play(s.gate, Turns(s, events))
    decreases |events|
  {
    hide Next, Apply, Enabled;
    if events != [] {
      EnabledReads(s, events[0]);
      GateStep(s, events[0]);
      GateRun(Next(s, events[0]), events[1..]);
      var rest := Turns(Next(s, events[0]), events[1..]);
      match GateInput(s, events[0])
      case Some(i) =>
        assert Turns(s, events) == [Turn(Answers(events[0]), i)] + rest;
        assert Turns(s, events)[1..] == rest;
      case None =>
        assert Turns(s, events) == rest;
    }
  }

  lemma EnabledReads(s: Sys, e: Event)
    requires Enabled(s, e)
    ensures (e.TakeRecord? ==> s.ring != []) && (e.TakeMsg? ==> s.channel != [])
  {
  }

  /** HELD BACK, END TO END.  In every run of master and proxy that starts behind a raised barrier, nothing
      reaches the replica before the proxy reads RESUME, or sees the barrier go down with nothing kept. */
  lemma HeldBackRun(s: Sys, events: seq<Event>)
    requires IsRun(s, events) && HoldsBack(s.gate) && NoRelease(s.gate, Turns(s, events))
    ensures var g := After(s, events).gate; g.settled == s.gate.settled && s.gate.rec <= g.rec
  {
    GateRun(s, events);
    HeldBack(s.gate, Turns(s, events));
  }

  /** LET THROUGH, END TO END.  And after that, until the barrier is raised again, nothing is kept. */
  lemma LetThroughRun(s: Sys, events: seq<Event>)
    requires IsRun(s, events) && !HoldsBack(s.gate) && s.gate.rec == []
    requires forall i :: 0 <= i < |events| ==> events[i] != PollEdge(true)
    ensures var g := After(s, events).gate;
      g.rec == [] && s.gate.settled <= g.settled && OnlyEmitted(g.settled[|s.gate.settled|..])
  {
    GateRun(s, events);
    NoneRaised(s, events);
    LetThrough(s.gate, Turns(s, events));
  }

  lemma {:induction false} NoneRaised(s: Sys, events: seq<Event>)
    requires IsRun(s, events) && forall i :: 0 <= i < |events| ==> events[i] != PollEdge(true)
    ensures forall i :: 0 <= i < |Turns(s, events)| ==>
      !Turns(s, events)[i].input.PurgeAll? && Turns(s, events)[i].input != Poll(true)
    decreases |events|
  {
    hide Next, Enabled;
    if events != [] {
      EnabledReads(s, events[0]);
      NoneRaised(Next(s, events[0]), events[1..]);
    }
  }
}
