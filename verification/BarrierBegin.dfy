/** Exactly when `repl_barrier_begin` succeeds, whatever the proxy does between the master's accesses; how long a
    barrier is held, and what its release brings about. */
module BarrierBegin {
  import opened Bytes
  import opened Barrier

  predicate OfProxy(step: Step) {
    step.Poll? || step.Fault? || step.Reconnect? || step.Sender?
  }

  predicate ProxyOnly(steps: seq<Step>) {
    steps == [] || (OfProxy(steps[0]) && ProxyOnly(steps[1..]))
  }

  /** The proxy's main loop looks at register 3. */
  predicate Looks(steps: seq<Step>) {
    steps != [] && (steps[0].Poll? || Looks(steps[1..]))
  }

  predicate LooksIn(gaps: seq<seq<Step>>) {
    gaps != [] && (Looks(gaps[0]) || LooksIn(gaps[1..]))
  }

  predicate ProxyGaps(gaps: seq<seq<Step>>) {
    gaps == [] || (ProxyOnly(gaps[0]) && ProxyGaps(gaps[1..]))
  }

  /** The master's accesses, each after what the proxy does meanwhile. */
  function Interleaved(gaps: seq<seq<Step>>): seq<Step> {
    if gaps == [] then [] else gaps[0] + [Access(false)] + Interleaved(gaps[1..])
  }

  /** The proxy's steps leave the master's fields alone; a look takes over the request and answers edges. */
  lemma {:induction false} ProxyRun(s: Sys, steps: seq<Step>)
    requires ProxyOnly(steps)
    ensures var t := Run(s, steps);
      && t.phase == s.phase && t.active == s.active && t.request == s.request
      && t.seen == (if Looks(steps) then s.request else s.seen)
      && t.ack == (if Looks(steps) && s.request != s.seen then s.request else s.ack)
    decreases |steps|
  {
    if steps != [] {
      ProxyStep(s, steps[0]);
      hide Next, OfProxy;
      ProxyRun(Next(s, steps[0]), steps[1..]);
    }
  }

  lemma ProxyStep(s: Sys, step: Step)
    requires OfProxy(step)
    ensures var t := Next(s, step);
      && t.phase == s.phase && t.active == s.active && t.request == s.request
      && t.seen == (if step.Poll? then s.request else s.seen)
      && t.ack == (if step.Poll? && s.request != s.seen then s.request else s.ack)
  {
    hide AccessStep, ReleaseStep, CancelStep, NoteAppliedStep, TickStep;
    match step {
      case Poll(_) =>
      case Fault =>
      case Reconnect =>
      case Sender(_, _) =>
    }
  }

  /** The state after a gap and the access that ends it. */
  function After(s: Sys, gap: seq<Step>): Sys {
    AccessStep(Run(s, gap), false)
  }

  lemma FirstGap(s: Sys, gaps: seq<seq<Step>>)
    requires gaps != []
    ensures Run(s, Interleaved(gaps)) == Run(After(s, gaps[0]), Interleaved(gaps[1..]))
  {
    hide AccessStep;
    RunSplit(s, gaps[0] + [Access(false)], Interleaved(gaps[1..]));
    RunSplit(s, gaps[0], [Access(false)]);
    One(Run(s, gaps[0]), Access(false));
  }

  /** Once up, the barrier stays up while the master makes no other call. */
  lemma {:induction false} StaysUp(s: Sys, gaps: seq<seq<Step>>)
    requires s.phase == Idle && s.active && ProxyGaps(gaps)
    ensures Run(s, Interleaved(gaps)).active
    decreases |gaps|
  {
    if gaps != [] {
      ProxyRun(s, gaps[0]);
      FirstGap(s, gaps);
      hide Run;
      StaysUp(After(s, gaps[0]), gaps[1..]);
    }
  }

  /** The wait for the answer, however many times the master reads register 12. */
  lemma {:induction false} WaitExactly(s: Sys, gaps: seq<seq<Step>>)
    requires s.phase == WaitUp && s.request && !s.ack && !s.active && ProxyGaps(gaps)
    ensures Run(s, Interleaved(gaps)).active <==> !s.seen && LooksIn(gaps)
    decreases |gaps|
  {
    if gaps != [] {
      ProxyRun(s, gaps[0]);
      FirstGap(s, gaps);
      var t := After(s, gaps[0]);
      hide Run;
      if !s.seen && Looks(gaps[0]) {
        StaysUp(t, gaps[1..]);
      } else {
        WaitExactly(t, gaps[1..]);
      }
    }
  }

  /** From the second clearing of the answer on, register 3 being 0. */
  lemma RaiseExactly(s: Sys, gaps: seq<seq<Step>>)
    requires s.phase == ClearAckAgain && !s.request && !s.active && |gaps| >= 2 && ProxyGaps(gaps)
    ensures Run(s, Interleaved(gaps)).active <==>
      (!s.seen || Looks(gaps[0]) || Looks(gaps[1])) && LooksIn(gaps[2..])
  {
    hide Run, Interleaved, OfProxy;
    var a := After(s, gaps[0]);
    var b := After(a, gaps[1]);
    ProxyRun(s, gaps[0]);
    ProxyRun(a, gaps[1]);
    FirstGap(s, gaps);
    FirstGap(a, gaps[1..]);
    assert gaps[1..][1..] == gaps[2..];
    assert b.phase == WaitUp && b.request && !b.ack && !b.active;
    WaitExactly(b, gaps[2..]);
  }

  /** A begin with register 3 down. */
  lemma FromDown(s: Sys, gaps: seq<seq<Step>>)
    requires s.phase == ClearAck && !s.request && !s.active && |gaps| >= 4 && ProxyGaps(gaps)
    ensures Run(s, Interleaved(gaps)).active <==>
      (!s.seen || Looks(gaps[0]) || Looks(gaps[1]) || Looks(gaps[2]) || Looks(gaps[3])) && LooksIn(gaps[4..])
  {
    hide Run, Interleaved, OfProxy;
    var a := After(s, gaps[0]);
    var b := After(a, gaps[1]);
    ProxyRun(s, gaps[0]);
    ProxyRun(a, gaps[1]);
    FirstGap(s, gaps);
    FirstGap(a, gaps[1..]);
    assert gaps[1..][1..] == gaps[2..] && gaps[2..][2..] == gaps[4..];
    RaiseExactly(b, gaps[2..]);
  }

  /** Register 3 is cleared and found answered. */
  lemma DropTwo(s: Sys, gap: seq<Step>, next: seq<Step>)
    requires s.phase == DropRequest && s.seen && !s.ack && s.request && !s.active && ProxyOnly(gap) && ProxyOnly(next)
    ensures var b := After(After(s, gap), next);
      b.phase == ClearAckAgain && !b.request && !b.active && (b.seen <==> !Looks(next))
  {
    hide Run, OfProxy;
    ProxyRun(s, gap);
    var a := After(s, gap);
    assert a.phase == WaitDown && !a.request && a.seen && !a.ack && !a.active;
    ProxyRun(a, next);
  }

  /** From the clearing of register 3 on. */
  lemma DropExactly(s: Sys, gaps: seq<seq<Step>>)
    requires s.phase == DropRequest && s.seen && !s.ack && s.request && !s.active && |gaps| >= 4 && ProxyGaps(gaps)
    ensures Run(s, Interleaved(gaps)).active <==>
      (Looks(gaps[1]) || Looks(gaps[2]) || Looks(gaps[3])) && LooksIn(gaps[4..])
  {
    hide Run, Interleaved, OfProxy, After, Looks;
    var a := After(s, gaps[0]);
    DropTwo(s, gaps[0], gaps[1]);
    FirstGap(s, gaps);
    FirstGap(a, gaps[1..]);
    assert gaps[1..][1..] == gaps[2..] && gaps[2..][2..] == gaps[4..];
    RaiseExactly(After(a, gaps[1]), gaps[2..]);
  }

  /** A begin over a register 3 left up: until the master has cleared it, looks change nothing. */
  lemma FromUp(s: Sys, gaps: seq<seq<Step>>)
    requires s.phase == ClearAck && s.request && s.seen && !s.active && |gaps| >= 6 && ProxyGaps(gaps)
    ensures Run(s, Interleaved(gaps)).active <==>
      (Looks(gaps[3]) || Looks(gaps[4]) || Looks(gaps[5])) && LooksIn(gaps[6..])
  {
    hide Run, Interleaved, OfProxy;
    var a := After(s, gaps[0]);
    var b := After(a, gaps[1]);
    ProxyRun(s, gaps[0]);
    ProxyRun(a, gaps[1]);
    FirstGap(s, gaps);
    FirstGap(a, gaps[1..]);
    assert gaps[1..][1..] == gaps[2..] && gaps[2..][4..] == gaps[6..];
    assert a.phase == ReadRequest && a.request && a.seen && !a.ack;
    DropExactly(b, gaps[2..]);
  }

  /** The proxy has noticed that register 3 is down before the master raises it. */
  predicate NoticedDown(s: Sys, gaps: seq<seq<Step>>)
    requires |gaps| >= 7
  {
    if s.request then Looks(gaps[3]) || Looks(gaps[4]) || Looks(gaps[5])
    else !s.seen || Looks(gaps[0]) || Looks(gaps[1]) || Looks(gaps[2]) || Looks(gaps[3])
  }

  /** WHEN A BEGIN SUCCEEDS.  From every state in which one may be made, whatever the proxy does between the
      accesses: the begin ends with the barrier up if and only if the proxy looks at register 3 while it is
      down - unless it has noticed that before - and looks again after it is raised. */
  lemma BeginExactly(s: Sys, gaps: seq<seq<Step>>)
    requires Inv(s) && s.phase == Idle && !s.active && |gaps| >= 7 && ProxyGaps(gaps)
    ensures Run(s, [Begin] + Interleaved(gaps)).active <==>
      NoticedDown(s, gaps) && LooksIn(if s.request then gaps[6..] else gaps[4..])
  {
    var t := Next(s, Begin);
    RunSplit(s, [Begin], Interleaved(gaps));
    One(s, Begin);
    hide Run;
    if s.request { FromUp(t, gaps); } else { FromDown(t, gaps); }
  }

  /** A begin whose wait times out takes its request back, whatever the proxy does meanwhile, and the proxy
      is told at its next look. */
  lemma BeginFails(s: Sys, gap: seq<Step>, later: seq<Step>)
    requires Inv(s) && s.phase == WaitUp && !s.ack && ProxyOnly(gap) && ProxyOnly(later)
    ensures var t := After(Next(s, Access(true)), gap);
      && Inv(t) && t.phase == Idle && !t.active && !t.request && t.marker.None?
      && (Looks(later) ==> !Run(t, later).seen && !Run(t, later).ack)
  {
    var r := Next(s, Access(true));
    StepInv(s, Access(true));
    assert r.phase == Rollback && !r.active;
    RunInv(r, gap);
    ProxyRun(r, gap);
    AccessInv(Run(r, gap), false);
    var t := After(r, gap);
    assert t.phase == Idle && !t.request && t.marker.None? && (t.ack ==> t.seen);
    hide Run, AccessStep;
    ProxyRun(t, later);
  }

  /** A barrier left up is reached: begin, success, hold timeout.  */
  lemma LeftUp(s0: Sys)
    requires Start(s0)
    ensures var up := [Begin, Access(false), Access(false), Access(false), Access(false), Poll(true), Access(false)];
      var s := Run(Run(s0, up), [GateOnAck(0, 15000), Tick(15000)]);
      Inv(s) && s.phase == Idle && !s.active && s.request && s.seen && !s.valid
  {
    var up := [Begin, Access(false), Access(false), Access(false), Access(false), Poll(true), Access(false)];
    var more := [GateOnAck(0, 15000), Tick(15000)];
    Upward(s0, up);
    Raised(s0);
    var s := Run(s0, up);
    RunInv(s0, up);
    RunInv(s, more);
    Two(s, more[0], more[1]);
    hide Run, Inv;
    assert Next(s, more[0]) == s.(gated := true, deadline := Some(15000));
  }

  /** From there a begin fails however often the proxy looks once register 3 is up again, if it did not look
      while it was down. */
  lemma LeftUpFails(s: Sys, waits: seq<seq<Step>>)
    requires Inv(s) && s.phase == Idle && !s.active && s.request && waits != [] && ProxyGaps(waits)
    ensures !Run(s, [Begin] + Interleaved([[], [], [], [], [], []] + waits)).active
  {
    var none: seq<seq<Step>> := [[], [], [], [], [], []];
    GapsJoin(none, waits);
    assert ProxyGaps(none[3..]);
    BeginExactly(s, none + waits);
  }

  lemma {:induction false} GapsJoin(a: seq<seq<Step>>, b: seq<seq<Step>>)
    requires ProxyGaps(a) && ProxyGaps(b)
    ensures ProxyGaps(a + b)
  {
    if a == [] {
      assert a + b == b;
    } else {
      GapsJoin(a[1..], b);
      assert (a + b)[1..] == a[1..] + b;
    }
  }

  // ---------------------------------------------------------------- what a release brings about

  /** While the proxy has not seen register 3 go down it buffers, whatever else it does, and flushes nothing. */
  lemma {:induction false} StillBuffers(s: Sys, gap: seq<Step>)
    requires s.seen && s.buffering && ProxyOnly(gap) && !Looks(gap)
    ensures var t := Run(s, gap);
      t.seen && t.buffering && t.request == s.request && t.phase == s.phase && t.flushes == s.flushes
    decreases |gap|
  {
    if gap != [] {
      StillBuffersStep(s, gap[0]);
      hide Next;
      StillBuffers(Next(s, gap[0]), gap[1..]);
    }
  }

  lemma StillBuffersStep(s: Sys, step: Step)
    requires s.seen && s.buffering && OfProxy(step) && !step.Poll?
    ensures var t := Next(s, step);
      t.seen && t.buffering && t.request == s.request && t.phase == s.phase && t.flushes == s.flushes
  {
    match step {
      case Fault =>
      case Reconnect =>
      case Sender(_, _) =>
    }
  }

  predicate OnlySends(steps: seq<Step>) {
    steps == [] || (steps[0].Sender? && OnlySends(steps[1..]))
  }

  lemma {:induction false} NothingToFlush(s: Sys, steps: seq<Step>)
    requires !s.flushPending && OnlySends(steps)
    ensures Run(s, steps) == s
    decreases |steps|
  {
    if steps != [] {
      assert Next(s, steps[0]) == s;
      NothingToFlush(s, steps[1..]);
    }
  }

  /** A RELEASE TAKES EFFECT.  The barrier goes down: whatever the proxy does until it looks at register 3, that
      look ends BUFFERING and the answer; with something to flush, the next turn of the sender that has a
      connection flushes once, and no later one does again. */
  lemma ReleaseTakesEffect(s: Sys, gap: seq<Step>, sends: seq<Step>)
    requires Inv(s) && s.phase == Lower && s.held && ProxyOnly(gap) && !Looks(gap) && OnlySends(sends)
    ensures var looked := Next(Run(Next(s, Access(false)), gap), Poll(true));
      && !looked.request && !looked.buffering && !looked.ack && looked.flushPending && looked.flushes == s.flushes
      && Run(Next(looked, Sender(true, true)), sends).flushes == s.flushes + 1
  {
    var down := Next(s, Access(false));
    assert down.seen && down.buffering && !down.request && down.flushes == s.flushes && down.phase == Idle;
    StillBuffers(down, gap);
    var t := Run(down, gap);
    hide Run;
    var looked := Next(t, Poll(true));
    NothingToFlush(Next(looked, Sender(true, true)), sends);
  }

  /** And it is an acknowledgement at the barrier's end that brings it about. */
  lemma AckTakesEffect(s: Sys, applied: nat, gap: seq<Step>, sends: seq<Step>)
    requires Inv(s) && s.active && s.gated && applied >= s.end && ProxyOnly(gap) && !Looks(gap) && OnlySends(sends)
    ensures var down := Next(Next(s, NoteApplied(applied, Delivered)), Access(false));
      var looked := Next(Run(down, gap), Poll(true));
      && !looked.buffering && looked.resumes == s.resumes + [s.marker.value]
      && Run(Next(looked, Sender(true, true)), sends).flushes == s.flushes + 1
  {
    var t := Next(s, NoteApplied(applied, Delivered));
    AckReleases(s, applied, Delivered);
    StepInv(s, NoteApplied(applied, Delivered));
    assert t.held && t.flushes == s.flushes;
    ReleaseTakesEffect(t, gap, sends);
    ProxySilent(Next(t, Access(false)), gap);
    hide Run;
  }

  lemma {:induction false} ProxySilent(s: Sys, gap: seq<Step>)
    requires ProxyOnly(gap)
    ensures Run(s, gap).resumes == s.resumes
    decreases |gap|
  {
    if gap != [] {
      SilentStep(s, gap[0]);
      hide Next;
      ProxySilent(Next(s, gap[0]), gap[1..]);
    }
  }

  lemma SilentStep(s: Sys, step: Step)
    requires OfProxy(step)
    ensures Next(s, step).resumes == s.resumes
  {
    match step {
      case Poll(_) =>
      case Fault =>
      case Reconnect =>
      case Sender(_, _) =>
    }
  }

  // ---------------------------------------------------------------- how long it is held

  /** Acknowledgements short of the end, ticks before the deadline, commits and whatever the proxy does. */
  predicate Patient(step: Step, end: nat, deadline: int) {
    match step
    case NoteApplied(applied, _) => applied < end
    case Tick(now) => now < deadline
    case Begin => true
    case Access(_) => true
    case Commit(_) => true
    case Poll(_) => true
    case Fault => true
    case Reconnect => true
    case Sender(_, _) => true
    case _ => false
  }

  predicate AllPatient(steps: seq<Step>, end: nat, deadline: int) {
    steps == [] || (Patient(steps[0], end, deadline) && AllPatient(steps[1..], end, deadline))
  }

  lemma PatientStep(s: Sys, step: Step, deadline: int)
    requires s.phase == Idle && s.active && s.gated && s.deadline == Some(deadline) && Patient(step, s.end, deadline)
    ensures var t := Next(s, step);
      && t.phase == Idle && t.active && t.gated && t.deadline == Some(deadline) && t.end == s.end && t.valid == s.valid
      && t.resumes == s.resumes && t.marker == s.marker
  {
    match step {
      case NoteApplied(_, _) =>
      case Tick(_) =>
      case Access(_) =>
      case Poll(_) =>
      case Sender(_, _) =>
      case _ =>
    }
  }

  lemma {:induction false} StaysHeld(s: Sys, steps: seq<Step>, deadline: int)
    requires s.phase == Idle && s.active && s.gated && s.deadline == Some(deadline)
    requires AllPatient(steps, s.end, deadline)
    ensures var t := Run(s, steps);
      && t.phase == Idle && t.active && t.gated && t.deadline == Some(deadline) && t.end == s.end && t.valid == s.valid
      && t.resumes == s.resumes && t.marker == s.marker
    decreases |steps|
  {
    if steps != [] {
      PatientStep(s, steps[0], deadline);
      hide Next, Patient;
      StaysHeld(Next(s, steps[0]), steps[1..], deadline);
    }
  }

  /** HELD EXACTLY SO LONG.  From the moment the hold time is set, the barrier and the session last through
      acknowledgements short of the end and ticks before the deadline; a tick gives both up if and only if the
      hold time is over, and an acknowledgement releases if and only if it reaches the end. */
  lemma HeldExactly(s: Sys, now: int, hold: int, steps: seq<Step>, later: int, applied: nat)
    requires s.phase == Idle && s.active && AllPatient(steps, s.end, now + hold)
    ensures var t := Run(Next(s, GateOnAck(now, hold)), steps);
      && t.active && t.valid == s.valid && t.resumes == s.resumes && t.marker == s.marker
      && (Next(t, Tick(later)).active <==> later < now + hold)
      && (later >= now + hold ==> !Next(t, Tick(later)).valid)
      && (later < now + hold ==> Next(t, Tick(later)) == t)
      && (Next(t, NoteApplied(applied, Delivered)).active <==> applied < s.end)
  {
    var g := Next(s, GateOnAck(now, hold));
    assert g == s.(gated := true, deadline := Some(now + hold));
    hide Next, Run;
    StaysHeld(g, steps, now + hold);
    TickEnds(Run(g, steps), later, now + hold);
    AckEnds(Run(g, steps), applied);
  }

  lemma TickEnds(t: Sys, later: int, deadline: int)
    requires t.phase == Idle && t.active && t.gated && t.deadline == Some(deadline)
    ensures Next(t, Tick(later)).active <==> later < deadline
    ensures later >= deadline ==> !Next(t, Tick(later)).valid
    ensures later < deadline ==> Next(t, Tick(later)) == t
  {
    hide AccessStep, ReleaseStep, NoteAppliedStep, PollStep, SenderStep;
    assert Next(t, Tick(later)) == TickStep(t, later);
  }

  lemma AckEnds(t: Sys, applied: nat)
    requires t.phase == Idle && t.active && t.gated
    ensures Next(t, NoteApplied(applied, Delivered)).active <==> applied < t.end
  {
    hide AccessStep, CancelStep, TickStep, PollStep, SenderStep;
    assert Next(t, NoteApplied(applied, Delivered)) == NoteAppliedStep(t, applied, Delivered);
  }
}
