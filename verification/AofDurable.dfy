/** Exactly when the fatal flag is up, and what is on disk for good: the kernel's answers, kept beside every run
    of the pipeline. */
module AofDurable {
  import opened Bytes
  import opened AofPipeline
  import opened AofSafety

  /** `negative` are the slots in flight whose write was answered with an error; `hurt` says that a slot has had
      both answers with an error among them, or could not be submitted; `synced` are the offsets of slots whose
      fsync was answered without an error. */
  datatype Answered = Answered(negative: set<nat>, hurt: bool, synced: seq<(nat, nat)>)

  const NONE_YET := Answered({}, false, [])

  function Span(s: Slot): (nat, nat) {
    (s.base, s.base + |s.data|)
  }

  ghost predicate OnDisk(a: Answered, x: nat) {
    exists i :: 0 <= i < |a.synced| && a.synced[i].0 <= x < a.synced[i].1
  }

  /** The kernel's answers, noted before the pipeline sees them. */
  function Note(p: Pipe, a: Answered, e: Event): Answered {
    match e
    case Abort => a.(hurt := true)
    case Complete(i, res) =>
      if i >= |p.flying| || p.flying[i] >= |p.slots| then a
      else
        var id := p.flying[i];
        if p.slots[id].seen == 0 then
          a.(negative := if res < 0 then a.negative + {id} else a.negative - {id})
        else
          a.(hurt := a.hurt || res < 0 || id in a.negative,
             negative := a.negative - {id},
             synced := if res >= 0 then a.synced + [Span(p.slots[id])] else a.synced)
    case _ => a
  }

  ghost function Noted(p: Pipe, a: Answered, events: seq<Event>): Answered
    requires IsRun(p, events)
    decreases |events|
  {
    if events == [] then a else Noted(Next(p, events[0]), Note(p, a, events[0]), events[1..])
  }

  // ---------------------------------------------------------------- what every step keeps

  /** The slots in flight remember whether their write failed. */
  ghost predicate Remembers(p: Pipe, a: Answered) {
    && p.fatal == a.hurt
    && forall i :: 0 <= i < |p.flying| && p.flying[i] < |p.slots| && p.slots[p.flying[i]].seen == 1 ==>
         (p.slots[p.flying[i]].bad <==> p.flying[i] in a.negative)
  }

  ghost predicate Pending(p: Pipe, id: nat, x: nat) {
    id in p.ready + p.flying && id < |p.slots| && p.slots[id].base <= x < p.slots[id].base + |p.slots[id].data|
  }

  /** Until the flag is up every offset handed off is on disk or in a slot on its way. */
  ghost predicate Secured(p: Pipe, a: Answered) {
    p.fatal || forall x: nat :: x < Handed(p) && !OnDisk(a, x) ==> exists id :: Pending(p, id, x)
  }

  /** A step leaves the slots that are ready or in flight alone, but for the one it completes or gives up. */
  ghost predicate Spares(p: Pipe, q: Pipe, but: Option<nat>) {
    && |q.slots| == |p.slots|
    && forall id :: id in p.ready + p.flying && Some(id) != but ==> id < |p.slots| && q.slots[id] == p.slots[id]
  }

  lemma NotTouched(p: Pipe, id: nat)
    requires OneStage(p) && id in p.ready + p.flying
    ensures id < |p.slots| && id !in p.free && id !in p.done && p.cur != Some(id)
  {
    InOne(p, id);
  }

  lemma AppendSpares(p: Pipe, data: bytes, alloc: bool)
    requires OneStage(p) && Bounded(p) && Enabled(p, Append(data, alloc))
    ensures var q := Next(p, Append(data, alloc));
      Spares(p, q, None) && q.ready == p.ready && q.flying == p.flying && q.fatal == p.fatal && q.handed == p.handed
  {
    hide OneStage, Room;
    assert p.cur == None ==> p.free[0] in p.free + p.ready + p.flying + p.done;
    forall id | id in p.ready + p.flying
      ensures id < |p.slots| && Next(p, Append(data, alloc)).slots[id] == p.slots[id]
    {
      NotTouched(p, id);
    }
  }

  lemma RecycleSpares(p: Pipe)
    requires OneStage(p)
    ensures Spares(p, RecycleStep(p), None)
  {
    hide OneStage;
    forall id | id in p.ready + p.flying ensures id < |p.slots| && RecycleStep(p).slots[id] == p.slots[id] {
      NotTouched(p, id);
    }
  }

  lemma PlainSpares(p: Pipe, q: Pipe)
    requires OneStage(p) && q.slots == p.slots
    ensures Spares(p, q, None)
  {
    hide OneStage;
    forall id | id in p.ready + p.flying ensures id < |p.slots| { NotTouched(p, id); }
  }

  // ---------------------------------------------------------------- the flag

  /** Slots in flight before and after the step, one of them possibly gone. */
  lemma StillRemembers(p: Pipe, q: Pipe, a: Answered, b: Answered, but: Option<nat>)
    requires Remembers(p, a) && Spares(p, q, but) && q.fatal == b.hurt
    requires forall id :: id in q.flying && Some(id) != but ==>
      id in p.flying || (id in p.ready && p.slots[id].seen == 0)
    requires forall id :: Some(id) != but ==> (id in b.negative <==> id in a.negative)
    requires but.Some? && but.value in q.flying && but.value < |q.slots| && q.slots[but.value].seen == 1 ==>
      (q.slots[but.value].bad <==> but.value in b.negative)
    ensures Remembers(q, b)
  {
    forall i | 0 <= i < |q.flying| && q.flying[i] < |q.slots| && q.slots[q.flying[i]].seen == 1
      ensures q.slots[q.flying[i]].bad <==> q.flying[i] in b.negative
    {
      var id := q.flying[i];
      assert id in q.flying;
      if Some(id) != but {
        assert id in p.ready + p.flying && q.slots[id] == p.slots[id];
        if id in p.flying { var j :| 0 <= j < |p.flying| && p.flying[j] == id; }
      }
    }
  }

  /** Offsets that were pending still are, or are on disk now. */
  lemma StillSecured(p: Pipe, q: Pipe, a: Answered, b: Answered)
    requires Secured(p, a) && (p.fatal ==> q.fatal) && Handed(q) == Handed(p) && a.synced <= b.synced
    requires !q.fatal ==> forall id, x: nat :: Pending(p, id, x) ==> Pending(q, id, x) || OnDisk(b, x)
    ensures Secured(q, b)
  {
    forall x: nat | !q.fatal && x < Handed(q) && !OnDisk(b, x) ensures exists id :: Pending(q, id, x) {
      assert !OnDisk(a, x);
      var id :| Pending(p, id, x);
      assert Pending(q, id, x);
    }
  }

  // ---------------------------------------------------------------- each step

  ghost predicate Kept(p: Pipe, a: Answered) {
    Remembers(p, a) && Secured(p, a)
  }

  /** Steps that change no list of slots that are ready or in flight. */
  lemma SparedKeeps(p: Pipe, q: Pipe, a: Answered)
    requires Kept(p, a) && Spares(p, q, None)
    requires q.ready == p.ready && q.flying == p.flying && q.fatal == p.fatal && q.handed == p.handed
    ensures Kept(q, a)
  {
    hide Remembers, Secured;
    assert q.fatal == a.hurt by { FlagIs(p, a); }
    StillRemembers(p, q, a, a, None);
    StillSecured(p, q, a, a);
  }

  lemma FlagIs(p: Pipe, a: Answered)
    requires Remembers(p, a)
    ensures p.fatal == a.hurt
  {
  }

  lemma HandoffKeeps(p: Pipe, a: Answered)
    requires PipeInv(p) && Kept(p, a)
    ensures Kept(HandoffStep(p), a)
  {
    var q := HandoffStep(p);
    PlainSpares(p, q);
    FillingCur(p);
    hide PipeInv;
    assert q.fatal == a.hurt;
    assert p.ready <= q.ready && q.flying == p.flying;
    StillRemembers(p, q, a, a, None);
    forall x: nat | !q.fatal && x < Handed(q) && !OnDisk(a, x) ensures exists id :: Pending(q, id, x) {
      if x < Handed(p) {
        var id :| Pending(p, id, x);
        assert Pending(q, id, x);
      } else {
        assert Pending(q, p.cur.value, x);
      }
    }
  }

  lemma FillingCur(p: Pipe)
    requires PipeInv(p)
    ensures p.cur.Some? ==> p.cur.value < |p.slots| && p.slots[p.cur.value].base == Handed(p)
  {
  }

  lemma SubmitKeeps(p: Pipe, a: Answered)
    requires PipeInv(p) && Kept(p, a) && p.ready != []
    ensures Kept(SubmitStep(p), a)
  {
    var q := SubmitStep(p);
    PlainSpares(p, q);
    assert p.slots[p.ready[0]].seen == 0;
    hide PipeInv;
    assert p.ready == [p.ready[0]] + q.ready;
    StillRemembers(p, q, a, a, None);
    StillSecured(p, q, a, a);
  }

  lemma AbortKeeps(p: Pipe, a: Answered)
    requires PipeInv(p) && Kept(p, a) && p.ready != [] && p.ready[0] < |p.slots|
    ensures Kept(AbortStep(p), Note(p, a, Abort))
  {
    var q := AbortStep(p);
    PlainSpares(p, p);
    InList(p.ready, 0);
    NotFlying(p, p.ready[0]);
    hide PipeInv;
    StillRemembers(p, q, a, Note(p, a, Abort), Some(p.ready[0]));
  }

  lemma NotFlying(p: Pipe, id: nat)
    requires PipeInv(p) && id in p.ready
    ensures id !in p.flying
  {
    InOne(p, id);
  }

  lemma FlyingAlone(p: Pipe, i: nat)
    requires PipeInv(p) && i < |p.flying|
    ensures p.flying[i] < |p.slots| && p.flying[i] !in p.flying[..i] && p.flying[i] !in p.flying[i + 1..]
    ensures p.flying[i] !in p.ready
  {
    FliesOnce(p, i);
  }

  lemma WriteKeeps(p: Pipe, a: Answered, i: nat, res: int)
    requires PipeInv(p) && Kept(p, a) && Enabled(p, Complete(i, res)) && p.slots[p.flying[i]].seen == 0
    ensures Kept(CompleteStep(p, i, res), Note(p, a, Complete(i, res)))
  {
    hide Put;
    var q, b, id := CompleteStep(p, i, res), Note(p, a, Complete(i, res)), p.flying[i];
    PlainSpares(p, p);
    FlyingAlone(p, i);
    hide PipeInv;
    StillRemembers(p, q, a, b, Some(id));
    StillSecured(p, q, a, b);
  }

  lemma SyncKeeps(p: Pipe, a: Answered, i: nat, res: int)
    requires PipeInv(p) && Kept(p, a) && Enabled(p, Complete(i, res)) && p.slots[p.flying[i]].seen != 0
    ensures Kept(CompleteStep(p, i, res), Note(p, a, Complete(i, res)))
  {
    var q, b, id := CompleteStep(p, i, res), Note(p, a, Complete(i, res)), p.flying[i];
    PlainSpares(p, p);
    FlyingAlone(p, i);
    SeenOnce(p, i);
    hide PipeInv;
    assert p.flying == p.flying[..i] + [id] + p.flying[i + 1..];
    InList(p.flying, i);
    assert p.slots[id].bad <==> id in a.negative;
    StillRemembers(p, q, a, b, Some(id));
    if !q.fatal {
      assert b.synced == a.synced + [Span(p.slots[id])];
      forall k, x: nat | Pending(p, k, x) ensures Pending(q, k, x) || OnDisk(b, x) {
        if k == id { assert b.synced[|a.synced|].0 <= x < b.synced[|a.synced|].1; }
      }
    }
    StillSecured(p, q, a, b);
  }

  lemma SeenOnce(p: Pipe, i: nat)
    requires PipeInv(p) && i < |p.flying|
    ensures p.flying[i] < |p.slots| && p.slots[p.flying[i]].seen <= 1
  {
  }

  lemma StepKeeps(p: Pipe, a: Answered, e: Event)
    requires PipeInv(p) && Bounded(p) && Kept(p, a) && Enabled(p, e)
    ensures Kept(Next(p, e), Note(p, a, e))
  {
    assert OneStage(p);
    hide PipeInv, OneStage, Kept, WriteDone, SyncDone, AppendStep;
    match e {
      case Append(data, alloc) =>
        AppendSpares(p, data, alloc);
        SparedKeeps(p, Next(p, e), a);
      case Handoff => HandoffKeeps(p, a);
      case Submit => SubmitKeeps(p, a);
      case Abort =>
        assert p.ready[0] in p.free + p.ready + p.flying + p.done;
        AbortKeeps(p, a);
      case Complete(i, res) =>
        if p.slots[p.flying[i]].seen == 0 { WriteKeeps(p, a, i, res); } else { SyncKeeps(p, a, i, res); }
      case Recycle =>
        RecycleSpares(p);
        SparedKeeps(p, Next(p, e), a);
    }
  }

  lemma {:induction false} RunKeeps(p: Pipe, a: Answered, events: seq<Event>)
    requires PipeInv(p) && IsRun(p, events) && Kept(p, a)
    ensures Kept(After(p, events), Noted(p, a, events))
    decreases |events|
  {
    hide PipeInv, Kept, Next, Enabled, Note;
    if events != [] {
      NextInv(p, events[0]);
      StepKeeps(p, a, events[0]);
      RunKeeps(Next(p, events[0]), Note(p, a, events[0]), events[1..]);
    }
  }

  lemma StartKept(n: nat)
    ensures Kept(NewPipe(n), NONE_YET)
  {
  }

  /** THE FATAL FLAG, EXACTLY.  In every run the flag is up if and only if a slot could not be submitted, or one
      has had both of its completions and the write or the fsync was answered with an error. */
  lemma FatalExactly(n: nat, events: seq<Event>)
    requires IsRun(NewPipe(n), events)
    ensures After(NewPipe(n), events).fatal <==> Noted(NewPipe(n), NONE_YET, events).hurt
  {
    hide PipeInv;
    StartInv(n);
    StartKept(n);
    RunKeeps(NewPipe(n), NONE_YET, events);
  }

  /** ON DISK FOR GOOD.  After a drain without the flag every byte ever submitted belongs to a slot whose fsync
      was answered without an error. */
  lemma Durable(n: nat, events: seq<Event>)
    requires IsRun(NewPipe(n), events)
    ensures var p := After(NewPipe(n), events);
      Drained(p) && !p.fatal ==> forall x: nat :: x < p.submitted ==> OnDisk(Noted(NewPipe(n), NONE_YET, events), x)
  {
    StartInv(n);
    StartKept(n);
    RunInv(NewPipe(n), events);
    RunKeeps(NewPipe(n), NONE_YET, events);
    var p, a := After(NewPipe(n), events), Noted(NewPipe(n), NONE_YET, events);
    if Drained(p) && !p.fatal {
      DrainedHanded(p);
      hide PipeInv, IsRun, After, Noted;
      forall x: nat | x < p.submitted ensures OnDisk(a, x) {
        forall id ensures !Pending(p, id, x) {}
      }
    }
  }

  lemma DrainedHanded(p: Pipe)
    requires PipeInv(p) && Drained(p)
    ensures Handed(p) == p.submitted
  {
  }
}
