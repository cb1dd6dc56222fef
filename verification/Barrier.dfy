/** The barrier between master and proxy: two shared registers, the master's calls broken down to single
    register accesses, the proxy's control block as one step, and the proxy's sender thread. */
module Barrier {
  import opened Bytes

  /** Where the master is inside `repl_barrier_begin` and `repl_barrier_release`. */
  datatype Phase = Idle | ClearAck | ReadRequest | DropRequest | WaitDown |
      ClearAckAgain | RaiseRequest | WaitUp | Rollback | Lower

  /** `request` and `ack` are registers 3 and 12.  `held` is history: a begin has succeeded and register 3
      has not been written 0 since.  `resumes` are the markers sent. */
  datatype Sys = Sys(
    request: bool, ack: bool,
    seen: bool, buffering: bool, flushPending: bool, flushes: nat,
    phase: Phase, active: bool, gated: bool, end: nat, marker: Option<nat>, deadline: Option<int>,
    offset: nat, global: nat, valid: bool, resumes: seq<nat>, held: bool)

  /** What `repl_commit_resume` did: sent the marker, could not send it, or had nobody to send it to (no
      commit session, or the gate is not in active mode) and answered 0 all the same. */
  datatype Resume = Delivered | Refused | Unneeded

  datatype Step =
    | Begin
    | Access(timeout: bool)
    | Release(answer: Resume)
    | GateOnAck(now: int, hold: int)
    | NoteApplied(applied: nat, answer: Resume)
    | Tick(now: int)
    | EndSession
    | StartSession
    | Commit(len: nat)
    | Poll(flushable: bool)
    | Fault
    | Reconnect
    | Sender(flushable: bool, connected: bool)

  // ---------------------------------------------------------------- the master

  /** One register access of `repl_barrier_begin`, or the last one of a release. */
  function AccessStep(s: Sys, timeout: bool): Sys {
    match s.phase
    case Idle => s
    case ClearAck => s.(ack := false, phase := ReadRequest)
    case ReadRequest => s.(phase := if s.request then DropRequest else ClearAckAgain)
    case DropRequest => s.(request := false, held := false, phase := WaitDown)
    case WaitDown =>
      if !s.ack then s.(phase := ClearAckAgain) else if timeout then s.(marker := None, phase := Idle) else s
    case ClearAckAgain => s.(ack := false, phase := RaiseRequest)
    case RaiseRequest => s.(request := true, marker := Some(s.global), phase := WaitUp)
    case WaitUp =>
      if s.ack then s.(active := true, gated := false, end := s.offset, deadline := None, held := true, phase := Idle)
      else if timeout then s.(phase := Rollback)
      else s
    case Rollback => s.(request := false, held := false, marker := None, phase := Idle)
    case Lower => s.(request := false, held := false, marker := None, phase := Idle)
  }

  /** `repl_barrier_release`, up to the register write. */
  function ReleaseStep(s: Sys, answer: Resume): Sys {
    if !s.active then s
    else
      var s1 := s.(active := false, gated := false, deadline := None);
      if s.marker.Some? && answer == Refused then s1.(valid := false, marker := None)
      else s1.(phase := Lower,
               resumes := s.resumes + if s.marker.Some? && answer == Delivered then [s.marker.value] else [])
  }

  /** `repl_barrier_cancel`. */
  function CancelStep(s: Sys): Sys {
    if !s.active && s.marker.None? then s else s.(active := false, gated := false, deadline := None, marker := None)
  }

  function NoteAppliedStep(s: Sys, applied: nat, answer: Resume): Sys {
    if s.active && s.gated && applied >= s.end then ReleaseStep(s, answer) else s
  }

  function TickStep(s: Sys, now: int): Sys {
    if !s.active || !s.gated || s.deadline.None? || now < s.deadline.value then s
    else CancelStep(s).(valid := false)
  }

  // ---------------------------------------------------------------- the proxy

  /** The block of the main loop that looks at register 3: edges, not levels. */
  function PollStep(s: Sys, flushable: bool): Sys {
    if s.request && !s.seen then s.(seen := true, buffering := true, ack := true)
    else if !s.request && s.seen then
      s.(seen := false, buffering := false, ack := false, flushPending := s.flushPending || flushable)
    else s
  }

  /** The sender thread: a pending flush goes out only while forwarding. */
  function SenderStep(s: Sys, flushable: bool, connected: bool): Sys {
    if !s.flushPending then s
    else s.(flushPending := false, flushes := s.flushes + if flushable && !s.buffering && connected then 1 else 0)
  }

  // ---------------------------------------------------------------- runs

  /** The master's own calls are made one at a time by its owner thread. */
  function Next(s: Sys, step: Step): Sys {
    match step
    case Begin => if s.phase == Idle && !s.active then s.(phase := ClearAck) else s
    case Access(timeout) => AccessStep(s, timeout)
    case Release(answer) => if s.phase == Idle then ReleaseStep(s, answer) else s
    case GateOnAck(now, hold) =>
      if s.phase == Idle && s.active then s.(gated := true, deadline := Some(now + hold)) else s
    case NoteApplied(applied, answer) => if s.phase == Idle then NoteAppliedStep(s, applied, answer) else s
    case Tick(now) => if s.phase == Idle then TickStep(s, now) else s
    case EndSession => if s.phase == Idle then CancelStep(s).(valid := false) else s
    case StartSession => if s.phase == Idle then s.(valid := true) else s
    case Commit(len) => if s.phase == Idle then s.(offset := s.offset + len, global := s.global + 1) else s
    case Poll(flushable) => PollStep(s, flushable)
    case Fault => s.(buffering := true)
    case Reconnect => s.(flushPending := true)
    case Sender(flushable, connected) => SenderStep(s, flushable, connected)
  }

  function Run(s: Sys, steps: seq<Step>): Sys
    decreases |steps|
  {
    if steps == [] then s else Run(Next(s, steps[0]), steps[1..])
  }

  predicate Start(s: Sys) {
    && !s.request && !s.ack && !s.seen && !s.buffering && !s.flushPending && s.flushes == 0
    && s.phase == Idle && !s.active && !s.gated && s.marker.None? && s.deadline.None? && s.resumes == [] && !s.held
  }

  // ---------------------------------------------------------------- what every step keeps

  predicate Inv(s: Sys) {
    && (s.ack ==> s.seen && s.buffering)
    && (s.seen ==> s.buffering)
    && (s.held ==> s.request && s.seen)
    && (s.active ==> s.held && s.phase == Idle && s.marker.Some? && s.end <= s.offset && s.marker.value <= s.global)
    && (s.phase == WaitUp ==> s.request && s.marker == Some(s.global))
    && (s.gated ==> s.active)
    && (s.request && !s.held ==> s.phase == WaitUp || s.phase == Rollback)
  }

  lemma AccessInv(s: Sys, timeout: bool)
    requires Inv(s)
    ensures Inv(AccessStep(s, timeout))
  {
    match s.phase {
      case Idle | ClearAck | ReadRequest | ClearAckAgain =>
      case DropRequest | Rollback | Lower =>
      case WaitDown | RaiseRequest | WaitUp =>
    }
  }

  /** The master's other calls. */
  lemma CallInv(s: Sys, answer: Resume, applied: nat, now: int)
    requires Inv(s) && s.phase == Idle
    ensures Inv(ReleaseStep(s, answer)) && Inv(CancelStep(s))
    ensures Inv(NoteAppliedStep(s, applied, answer)) && Inv(TickStep(s, now))
  {
  }

  lemma ProxyInv(s: Sys, flushable: bool, connected: bool)
    requires Inv(s)
    ensures Inv(PollStep(s, flushable)) && Inv(SenderStep(s, flushable, connected)) && Inv(s.(buffering := true))
  {
  }

  lemma StepInv(s: Sys, step: Step)
    requires Inv(s)
    ensures Inv(Next(s, step))
  {
    match step {
      case Access(timeout) => hide AccessStep; AccessInv(s, timeout);
      case Release(answer) => hide ReleaseStep; if s.phase == Idle { CallInv(s, answer, 0, 0); }
      case NoteApplied(applied, answer) => hide NoteAppliedStep; if s.phase == Idle { CallInv(s, answer, applied, 0); }
      case Tick(now) => hide TickStep; if s.phase == Idle { CallInv(s, Delivered, 0, now); }
      case EndSession => hide CancelStep; if s.phase == Idle { CallInv(s, Delivered, 0, 0); }
      case Poll(f) => hide PollStep; ProxyInv(s, f, true);
      case Sender(f, c) => hide SenderStep; ProxyInv(s, f, c);
      case _ =>
    }
  }

  lemma {:induction false} RunInv(s: Sys, steps: seq<Step>)
    requires Inv(s)
    ensures Inv(Run(s, steps))
    decreases |steps|
  {
    if steps != [] {
      hide Inv, Next;
      StepInv(s, steps[0]);
      RunInv(Next(s, steps[0]), steps[1..]);
    }
  }

  /** The step in which a begin succeeds. */
  predicate Succeeds(s: Sys, step: Step) {
    step.Access? && s.phase == WaitUp && s.ack
  }

  /** THE HANDSHAKE.  In every run, when a begin succeeds the proxy is buffering with the request up, and
      stays so, flushing nothing, until the master writes 0 to register 3.  The marker is the number of the
      last committed write and the end the master's offset. */
  lemma BarrierHolds(s0: Sys, before: seq<Step>, step: Step, after: seq<Step>)
    requires Start(s0) && Succeeds(Run(s0, before), step)
    ensures var s := Next(Run(s0, before), step);
      && s.active && s.held && s.request && s.buffering && s.marker == Some(s.global) && s.end == s.offset
      && (Quiet(s, after) ==> Run(s, after).request && Run(s, after).buffering && Run(s, after).flushes == s.flushes)
  {
    RunInv(s0, before);
    var s := Next(Run(s0, before), step);
    StepInv(Run(s0, before), step);
    if Quiet(s, after) { HeldRun(s, after); }
  }

  /** No step of the run writes 0 to register 3. */
  predicate Quiet(s: Sys, steps: seq<Step>)
    decreases |steps|
  {
    steps == [] || (!Clears(s, steps[0]) && Quiet(Next(s, steps[0]), steps[1..]))
  }

  predicate Clears(s: Sys, step: Step) {
    step.Access? && (s.phase == DropRequest || s.phase == Rollback || s.phase == Lower)
  }

  lemma {:induction false} HeldRun(s: Sys, steps: seq<Step>)
    requires Inv(s) && s.held && Quiet(s, steps)
    ensures var t := Run(s, steps); t.held && t.request && t.buffering && t.flushes == s.flushes
    decreases |steps|
  {
    if steps != [] {
      StepInv(s, steps[0]);
      HeldStep(s, steps[0]);
      hide Inv, Next, Clears;
      HeldRun(Next(s, steps[0]), steps[1..]);
    }
  }

  lemma HeldStep(s: Sys, step: Step)
    requires Inv(s) && s.held && !Clears(s, step)
    ensures var t := Next(s, step); t.held && t.flushes == s.flushes
  {
    match step {
      case Access(_) =>
      case Release(_) =>
      case NoteApplied(_, _) =>
      case Poll(_) =>
      case Sender(_, _) =>
      case _ =>
    }
  }

  // ---------------------------------------------------------------- release

  /** Not a begin, not a forced release and not an acknowledgement that reached the end. */
  predicate Waits(step: Step, end: nat) {
    && !step.Begin? && !step.Release?
    && (step.NoteApplied? ==> step.applied < end)
  }

  predicate AllWait(steps: seq<Step>, end: nat) {
    steps == [] || (Waits(steps[0], end) && AllWait(steps[1..], end))
  }

  /** NO EARLY RELEASE.  While every REPLACK is short of the catch-up end, whatever else happens - the
      hold timeout and the end of the session included - no RESUME is sent, register 3 stays up and the
      proxy buffers and flushes nothing. */
  lemma {:induction false} NoEarlyRelease(s: Sys, steps: seq<Step>, end: nat)
    requires Inv(s) && s.held && s.phase == Idle && (s.active ==> s.gated && s.end == end) && AllWait(steps, end)
    ensures var t := Run(s, steps);
      t.request && t.buffering && t.flushes == s.flushes && t.resumes == s.resumes && t.phase == Idle
    decreases |steps|
  {
    if steps != [] {
      StepInv(s, steps[0]);
      WaitingStep(s, steps[0], end);
      hide Inv, Next, Waits;
      NoEarlyRelease(Next(s, steps[0]), steps[1..], end);
    } else {
      assert s.request && s.buffering;
    }
  }

  lemma WaitingStep(s: Sys, step: Step, end: nat)
    requires Inv(s) && s.held && s.phase == Idle && (s.active ==> s.gated && s.end == end) && Waits(step, end)
    ensures var t := Next(s, step);
      && t.held && t.phase == Idle && t.flushes == s.flushes && t.resumes == s.resumes
      && (t.active ==> t.gated && t.end == end)
  {
    match step {
      case Access(_) =>
      case NoteApplied(_, _) =>
      case Tick(_) =>
      case EndSession =>
      case Poll(_) =>
      case Sender(_, _) =>
      case _ =>
    }
  }

  predicate NoBegin(steps: seq<Step>) {
    steps == [] || (!steps[0].Begin? && NoBegin(steps[1..]))
  }

  /** A barrier that was given up: until the next begin, whatever acknowledgements, releases and looks come,
      the proxy goes on buffering and gets no RESUME. */
  lemma {:induction false} GivenUp(s: Sys, steps: seq<Step>)
    requires Inv(s) && s.held && s.phase == Idle && !s.active && NoBegin(steps)
    ensures var t := Run(s, steps);
      t.request && t.buffering && t.flushes == s.flushes && t.resumes == s.resumes && !t.active
    decreases |steps|
  {
    if steps != [] {
      StepInv(s, steps[0]);
      GivenUpStep(s, steps[0]);
      hide Inv, Next;
      GivenUp(Next(s, steps[0]), steps[1..]);
    }
  }

  lemma GivenUpStep(s: Sys, step: Step)
    requires Inv(s) && s.held && s.phase == Idle && !s.active && !step.Begin?
    ensures var t := Next(s, step);
      t.held && t.phase == Idle && !t.active && t.flushes == s.flushes && t.resumes == s.resumes
  {
    match step {
      case Access(_) =>
      case Release(_) =>
      case NoteApplied(_, _) =>
      case Tick(_) =>
      case EndSession =>
      case Poll(_) =>
      case Sender(_, _) =>
      case _ =>
    }
  }

  /** FAIL CLOSED.  The hold timeout gives the session up and nothing is released by it: in every run that
      follows, until the next begin, register 3 stays up, the proxy buffers and no RESUME is sent. */
  lemma TimeoutFailsClosed(s: Sys, now: int, steps: seq<Step>)
    requires Inv(s) && s.gated && s.deadline.Some? && now >= s.deadline.value && NoBegin(steps)
    ensures var t := Run(Next(s, Tick(now)), steps);
      && !Next(s, Tick(now)).valid && !t.active
      && t.request && t.buffering && t.flushes == s.flushes && t.resumes == s.resumes
  {
    var t := Next(s, Tick(now));
    StepInv(s, Tick(now));
    assert t.held && t.phase == Idle && !t.active && !t.valid && t.flushes == s.flushes && t.resumes == s.resumes;
    hide Next, Inv, Run;
    GivenUp(t, steps);
  }

  /** An acknowledgement lowers a gated barrier exactly when it reaches the offset of the begin that raised
      it and RESUME was not refused: that begin's marker is sent if there is a session to send it to, then
      register 3 goes down. */
  lemma AckReleases(s: Sys, applied: nat, answer: Resume)
    requires Inv(s) && s.active && s.gated
    ensures var t := Next(s, NoteApplied(applied, answer));
      && (t.phase == Lower <==> applied >= s.end && answer != Refused)
      && (t.phase == Lower ==>
            && t.resumes == s.resumes + (if answer == Delivered then [s.marker.value] else [])
            && !Next(t, Access(false)).request)
      && (applied < s.end ==> t == s)
  {
  }

  /** When RESUME cannot be sent the session is given up and the proxy goes on buffering, until the next
      begin, in every run. */
  lemma LostResume(s: Sys, applied: nat, steps: seq<Step>)
    requires Inv(s) && s.active && s.gated && applied >= s.end && NoBegin(steps)
    ensures var t := Run(Next(s, NoteApplied(applied, Refused)), steps);
      && !Next(s, NoteApplied(applied, Refused)).valid && !t.active
      && t.request && t.buffering && t.flushes == s.flushes && t.resumes == s.resumes
  {
    var t := Next(s, NoteApplied(applied, Refused));
    StepInv(s, NoteApplied(applied, Refused));
    assert t.held && t.phase == Idle && !t.active && !t.valid && t.flushes == s.flushes && t.resumes == s.resumes;
    hide Next, Inv, Run;
    GivenUp(t, steps);
  }

  /** Waiting for an answer that cannot come: the proxy has seen no falling edge of the request. */
  predicate Stuck(s: Sys) {
    && !s.active
    && ((s.phase == WaitUp && s.seen && !s.ack && s.request) || s.phase == Rollback || s.phase == Idle)
  }

  lemma StuckStep(s: Sys, step: Step)
    requires Stuck(s) && !step.Begin?
    ensures Stuck(Next(s, step))
  {
    match step {
      case Access(_) =>
      case Poll(_) =>
      case _ =>
    }
  }

  /** A MISSED EDGE.  The wait for the old request to go down is over at once, because the master has
      cleared the answer itself.  When the proxy did not look in between, it gives no new answer: the begin
      does not succeed, however long it waits.  It fails closed. */
  lemma {:induction false} MissedEdge(s: Sys, steps: seq<Step>)
    requires Stuck(s) && NoBegin(steps)
    ensures !Run(s, steps).active
    decreases |steps|
  {
    if steps != [] {
      StuckStep(s, steps[0]);
      hide Stuck, Next;
      MissedEdge(Next(s, steps[0]), steps[1..]);
    }
  }

  /** That is where a begin over a barrier left up ends when the proxy does not look. */
  lemma StaleBarrier(s: Sys)
    requires Inv(s) && s.phase == Idle && !s.active && s.request && s.seen
    ensures var down := Next(Next(Next(Next(s, Begin), Access(false)), Access(false)), Access(false));
      var t := Next(Next(Next(down, Access(false)), Access(false)), Access(false));
      t.phase == WaitUp && Stuck(t)
  {
    var a := Next(Next(Next(s, Begin), Access(false)), Access(false));
    assert a.phase == DropRequest && a.seen && !a.ack && !a.active;
    var b := Next(Next(a, Access(false)), Access(false));
    assert b.phase == ClearAckAgain && b.seen && !b.ack && !b.active;
  }

  /** A second replica while the barrier is up gets the present offset as its catch-up end, the barrier
      keeps the first one; an acknowledgement short of the second end lowers it exactly when something was
      committed in between. */
  lemma SecondReplica(s: Sys)
    requires Inv(s) && s.active
    ensures Next(s, Begin) == s
    ensures var g := Next(s, GateOnAck(0, 15000));
      (exists a: nat :: a < s.offset && Next(g, NoteApplied(a, Delivered)).phase == Lower) <==> s.end < s.offset
  {
    var g := Next(s, GateOnAck(0, 15000));
    if s.end < s.offset { assert Next(g, NoteApplied(s.end, Delivered)).phase == Lower; }
  }

  /** Such a run exists: barrier up at offset 0, a commit, and the acknowledgement of offset 0 releases. */
  lemma SecondReplicaEarly(s0: Sys)
    requires Start(s0) && s0.offset == 0
    ensures var up := [Begin, Access(false), Access(false), Access(false), Access(false), Poll(true), Access(false)];
      var t := Run(Run(s0, up), [Commit(5), Begin, GateOnAck(0, 15000), NoteApplied(0, Delivered)]);
      t.phase == Lower && t.offset == 5
  {
    var up := [Begin, Access(false), Access(false), Access(false), Access(false), Poll(true), Access(false)];
    var s1 := Next(Next(Next(Next(s0, Begin), Access(false)), Access(false)), Access(false));
    var s2 := Next(Next(Next(s1, Access(false)), Poll(true)), Access(false));
    assert Run(s0, up) == s2 by { hide Next; Upward(s0, up); }
    Raised(s0);
    Four(s2, Commit(5), Begin, GateOnAck(0, 15000), NoteApplied(0, Delivered));
    hide Run;
    Lowered(s2);
  }

  /** A first begin, answered at once. */
  lemma Raised(s0: Sys)
    requires Start(s0)
    ensures var s1 := Next(Next(Next(Next(s0, Begin), Access(false)), Access(false)), Access(false));
      var s2 := Next(Next(Next(s1, Access(false)), Poll(true)), Access(false));
      && s2.active && s2.phase == Idle && s2.request && s2.seen && s2.marker.Some?
      && s2.end == s2.offset == s0.offset
  {
    var s1 := Next(Next(Next(Next(s0, Begin), Access(false)), Access(false)), Access(false));
    assert s1 == s0.(ack := false, phase := RaiseRequest);
    var s2 := Next(Next(s1, Access(false)), Poll(true));
    assert s2.phase == WaitUp && s2.ack && s2.request && s2.seen && s2.marker.Some? && s2.offset == s0.offset;
  }

  lemma Lowered(s: Sys)
    requires s.active && s.end == 0 && s.offset == 0 && s.phase == Idle && s.marker.Some?
    ensures var t := Next(Next(Next(Next(s, Commit(5)), Begin), GateOnAck(0, 15000)), NoteApplied(0, Delivered));
      t.phase == Lower && t.offset == 5
  {
    var a := Next(Next(s, Commit(5)), Begin);
    assert a.active && a.end == 0 && a.offset == 5 && a.phase == Idle && a.marker.Some?;
    var b := Next(a, GateOnAck(0, 15000));
    assert b.active && b.gated && b.end == 0 && b.offset == 5 && b.phase == Idle && b.marker.Some?;
  }

  lemma Upward(s: Sys, up: seq<Step>)
    requires |up| == 7
    ensures Run(s, up) == Next(Next(Next(Next(Next(Next(Next(s, up[0]), up[1]), up[2]), up[3]), up[4]), up[5]), up[6])
  {
    hide Next;
    var a, b := up[..4], up[4..];
    assert up == a + b && a == [up[0], up[1], up[2], up[3]] && b == [up[4], up[5], up[6]];
    RunSplit(s, a, b);
    Four(s, up[0], up[1], up[2], up[3]);
    Three(Run(s, a), up[4], up[5], up[6]);
  }

  lemma {:induction false} RunSplit(s: Sys, a: seq<Step>, b: seq<Step>)
    ensures Run(s, a + b) == Run(Run(s, a), b)
    decreases |a|
  {
    if a == [] {
      assert a + b == b;
    } else {
      assert (a + b)[1..] == a[1..] + b;
      RunSplit(Next(s, a[0]), a[1..], b);
    }
  }

  lemma One(s: Sys, a: Step)
    ensures Run(s, [a]) == Next(s, a)
  {
    hide Next;
    assert [a][1..] == [];
  }

  lemma Two(s: Sys, a: Step, b: Step)
    ensures Run(s, [a, b]) == Next(Next(s, a), b)
  {
    hide Next;
    One(s, a);
    One(Next(s, a), b);
    RunSplit(s, [a], [b]);
    assert [a] + [b] == [a, b];
  }

  lemma Three(s: Sys, a: Step, b: Step, c: Step)
    ensures Run(s, [a, b, c]) == Next(Next(Next(s, a), b), c)
  {
    hide Next, Run;
    Two(s, a, b);
    One(Next(Next(s, a), b), c);
    RunSplit(s, [a, b], [c]);
    assert [a, b] + [c] == [a, b, c];
  }

  lemma Four(s: Sys, a: Step, b: Step, c: Step, d: Step)
    ensures Run(s, [a, b, c, d]) == Next(Next(Next(Next(s, a), b), c), d)
  {
    hide Next, Run;
    Two(s, a, b);
    Two(Next(Next(s, a), b), c, d);
    RunSplit(s, [a, b], [c, d]);
    assert [a, b] + [c, d] == [a, b, c, d];
  }

  // ---------------------------------------------------------------- in place

  /** The master's side as the object whose fields its calls change. */
  class Master {
    var request: bool
    var active: bool
    var gated: bool
    var end: nat
    var marker: Option<nat>
    var deadline: Option<int>
    var valid: bool
    ghost var resumes: seq<nat>
    ghost var rest: Sys

    /** The system around this object; the master is between calls. */
    ghost function State(): Sys
      reads this
    {
      rest.(request := request, active := active, gated := gated, end := end, marker := marker, deadline := deadline,
            valid := valid, resumes := resumes, phase := Idle, held := rest.held && request)
    }

    /** `repl_barrier_release`, run to its end. */
    method ReleaseBarrier(answer: Resume)
      requires Inv(State())
      modifies this
      ensures var t := ReleaseStep(old(State()), answer);
        State() == if t.phase == Lower then AccessStep(t, false) else t
      ensures request == (old(request) && (!old(active) || (old(marker).Some? && answer == Refused)))
    {
      if !active { return; }
      active, gated, deadline := false, false, None;
      if marker.Some? && answer == Refused {
        valid := false;
      } else {
        resumes := resumes + if marker.Some? && answer == Delivered then [marker.value] else [];
        request := false;
      }
      marker := None;
    }

    /** `repl_barrier_cancel`. */
    method CancelBarrier()
      modifies this
      ensures State() == CancelStep(old(State())) && request == old(request)
    {
      if !active && marker.None? { return; }
      active, gated, deadline, marker := false, false, None, None;
    }

    /** `repl_barrier_note_applied`: the barrier is lowered only by an acknowledgement that reached its end. */
    method NoteAppliedAck(applied: nat, answer: Resume)
      requires Inv(State())
      modifies this
      ensures var t := NoteAppliedStep(old(State()), applied, answer);
        State() == if t.phase == Lower then AccessStep(t, false) else t
      ensures old(request) && !request ==> old(active) && old(gated) && applied >= old(end)
    {
      if !active || !gated { return; }
      if applied >= end { ReleaseBarrier(answer); }
    }

    /** `repl_barrier_tick`. */
    method TickBarrier(now: int)
      modifies this
      ensures State() == TickStep(old(State()), now) && request == old(request) && resumes == old(resumes)
    {
      if !active || !gated || deadline.None? { return; }
      if now < deadline.value { return; }
      CancelBarrier();
      valid := false;
    }
  }
}
