/** The two threads' procedures on the shared slot lists, each proved against its step. */
module AofThreads {
  import opened Bytes
  import opened AofPipeline
  import opened AofSafety

  /** `c` is `cap` doubled some number of times. */
  predicate Doubled(cap: nat, c: nat) {
    c == cap || (cap < c && c % 2 == 0 && Doubled(cap, c / 2))
  }

  /** The capacity loop of an append: the least doubling that holds `need` bytes. */
  method GrowCap(cap: nat, need: nat) returns (c: nat)
    requires cap > 0
    ensures c == Grown(cap, need)
    ensures Doubled(cap, c) && need <= c && (cap < c ==> c / 2 < need)
  {
    c := cap;
    while c < need
      invariant c > 0 && Grown(cap, need) == Grown(c, need)
      invariant Doubled(cap, c) && cap <= c && (cap < c ==> c / 2 < need)
      decreases need - c
    {
      c := c * 2;
    }
  }

  /** The first n ready slots submitted, in order. */
  function Submitted(p: Pipe, n: nat): Pipe
    requires n <= |p.ready|
  {
    p.(ready := p.ready[n..], flying := p.flying + p.ready[..n])
  }

  /** As many submit steps, and then perhaps one slot that does not fit any more. */
  function Submits(n: nat, abort: bool): seq<Event> {
    if n == 0 then (if abort then [Abort] else []) else [Submit] + Submits(n - 1, abort)
  }

  /** What `aof_thread_submit_all_ready` does is a run of submit steps. */
  lemma {:induction false} SubmitSteps(p: Pipe, n: nat, abort: bool)
    requires PipeInv(p) && n <= |p.ready| && (abort ==> n < |p.ready|)
    ensures Bounded(p) && (abort ==> p.ready[n] < |p.slots|)
    ensures IsRun(p, Submits(n, abort))
    ensures After(p, Submits(n, abort)) == if abort then AbortStep(Submitted(p, n)) else Submitted(p, n)
    decreases n
  {
    hide PipeInv, Next, AbortStep, Bounded;
    InvPlaces(p);
    if n > 0 {
      NextInv(p, Submit);
      var q := Next(p, Submit);
      NextSubmit(p);
      SubmitSteps(q, n - 1, abort);
      assert Submits(n, abort)[1..] == Submits(n - 1, abort);
      SubmittedMore(p, n);
    } else {
      assert p.flying + p.ready[..0] == p.flying && p.ready[0..] == p.ready;
      assert Submitted(p, 0) == p;
      if abort { AbortNow(p); }
    }
  }

  lemma SubmittedMore(p: Pipe, n: nat)
    requires 0 < n <= |p.ready|
    ensures Submitted(SubmitStep(p), n - 1) == Submitted(p, n)
  {
    var q := SubmitStep(p);
    assert q.ready[n - 1..] == p.ready[n..];
    assert p.ready[..n] == [p.ready[0]] + q.ready[..n - 1];
    assert p.flying + ([p.ready[0]] + q.ready[..n - 1]) == p.flying + [p.ready[0]] + q.ready[..n - 1];
  }

  lemma AbortNow(p: Pipe)
    requires PipeInv(p) && p.ready != []
    ensures p.ready[0] < |p.slots| && IsRun(p, [Abort]) && After(p, [Abort]) == AbortStep(p)
  {
    hide PipeInv;
    InvPlaces(p);
    assert p.ready[0] in p.free + p.ready + p.flying + p.done;
    NextInv(p, Abort);
    assert [Abort][1..] == [];
  }

  lemma NextSubmit(p: Pipe)
    requires Bounded(p) && p.ready != []
    ensures Next(p, Submit) == SubmitStep(p)
  {
  }

  /** The pipeline's lists and counters.  `Valid` is what holds between any two procedures of the two
      threads: each slot in one stage, at most sixteen batches outstanding, the slots tiling the submitted
      bytes, and every byte handed off written once, lost or still waiting. */
  class Persist {
    var slots: seq<Slot>
    var cur: Option<nat>
    var free: seq<nat>
    var ready: seq<nat>
    var flying: seq<nat>
    var done: seq<nat>
    var outstanding: int
    var submitted: nat
    var offset: nat
    var fatal: bool
    ghost var log: bytes
    ghost var handed: seq<(nat, nat)>
    ghost var file: map<nat, byte>
    ghost var lost: nat
    ghost var missed: nat

    ghost function State(): Pipe
      reads this
    {
      Pipe(slots, cur, free, ready, flying, done, outstanding, submitted, offset, fatal,
           log, handed, file, lost, missed)
    }

    ghost predicate Valid()
      reads this
    {
      PipeInv(State()) && Fits(State())
    }

    constructor (n: nat)
      ensures State() == NewPipe(n) && Valid()
    {
      slots, free := seq(n, i => Slot([], 0, 0, 0, false, false)), seq(n, i => i);
      cur, ready, flying, done, outstanding, submitted, offset, fatal := None, [], [], [], 0, 0, 0, false;
      log, handed, file, lost, missed := [], [], map[], 0, 0;
      new;
      StartInv(n);
      NewFits(n);
    }

    /** `slot_pop_free`: the slot is empty and begins where the submitted bytes end. */
    method PopFree()
      requires Valid() && cur == None && free != []
      modifies this
      ensures Valid() && State() == WithCur(old(State()))
      ensures cur.Some? && cur.value < |slots| && slots[cur.value].data == [] && slots[cur.value].base == submitted
      ensures submitted == old(submitted) && log == old(log) && fatal == old(fatal)
    {
      hide PipeInv, Fits;
      WithCurValid(State());
      var id := free[0];
      free := free[1..];
      slots := slots[id := slots[id].(data := [], base := submitted)];
      cur := Some(id);
    }

    /** Main thread: `persist_append_prepare`, once a slot can be had.  The whole command is appended or
        nothing; with memory to be had and nothing fatal, it is refused exactly when the slot would exceed
        four megabytes. */
    method AppendPrepare(data: bytes, alloc: bool) returns (ok: bool)
      requires Valid() && (cur.Some? || free != [])
      modifies this
      ensures Valid()
      ensures log == if ok then old(log) + data else old(log)
      ensures submitted == |log|
      ensures alloc ==> (ok <==> !fatal && InCur(old(State())) + |data| <= SLOT_MAX)
      ensures !alloc ==> (ok <==> !fatal && InCur(old(State())) + |data| <= CurCap(old(State())))
      ensures fatal == old(fatal) && (fatal ==> State() == old(State()))
      ensures (State(), ok) == AppendRun(old(State()), data, alloc)
    {
      hide PipeInv, Fits, AppendRun, Grown;
      ghost var p := State();
      AppendValid(p, data, alloc);
      AppendRunIs(p, data, alloc);
      if fatal { return false; }
      if cur == None { PopFree(); }
      var id := cur.value;
      var s := slots[id];
      var cap := s.cap;
      if |s.data| + |data| > cap {
        cap := GrowCap(if cap > 0 then cap else SLOT_INIT, |s.data| + |data|);
        if cap > SLOT_MAX { return false; }
        if !alloc { return false; }
      }
      slots := slots[id := s.(data := s.data + data, cap := cap)];
      submitted := submitted + |data|;
      log := log + data;
      return true;
    }

    /** Main thread: `handoff_current_slot`, once fewer than sixteen batches are outstanding.  Afterwards all
        that was submitted has been handed off. */
    method HandoffCurrent()
      requires Valid() && outstanding < MAX_OUTSTANDING
      modifies this
      ensures Valid() && State() == HandoffStep(old(State()))
      ensures Handed(State()) == submitted == old(submitted)
    {
      hide PipeInv, Fits;
      HandoffValid(State());
      if cur == None || |slots[cur.value].data| == 0 { return; }
      var s := slots[cur.value];
      ready := ready + [cur.value];
      outstanding := outstanding + 1;
      cur := None;
      handed := handed + [(s.base, s.base + |s.data|)];
    }

    /** Writer thread: `aof_thread_submit_all_ready`, when the submission queue has room for `space` slots.
        All are submitted, in order; or the one too many is given up and the pipeline with it. */
    method SubmitAllReady(space: nat)
      requires Valid()
      modifies this
      ensures Valid()
      ensures State() == if old(fatal) then old(State())
        else if old(|ready|) <= space then Submitted(old(State()), old(|ready|))
        else AbortRun(old(State()), space)
      ensures !old(fatal) ==> (fatal <==> old(|ready|) > space)
      ensures !old(fatal) && old(|ready|) <= space ==> flying == old(flying) + old(ready)
      ensures !old(fatal) && old(|ready|) > space ==> flying == old(flying) + old(ready)[..space]
    {
      hide PipeInv, Fits, AbortStep;
      SubmitValid(State(), if |ready| <= space then |ready| else space, |ready| > space);
      if fatal { return; }
      SubmitUpTo(space);
      if |ready| > 0 { GiveUp(); }
    }

    method SubmitUpTo(space: nat)
      modifies this`ready, this`flying
      ensures State() == Submitted(old(State()), if old(|ready|) <= space then old(|ready|) else space)
    {
      var n := 0;
      assert ready[0..] == ready && flying + ready[..0] == flying;
      while n < space && |ready| > 0
        invariant n <= space && n <= old(|ready|) && ready == old(ready)[n..]
        invariant flying == old(flying) + old(ready)[..n]
        decreases |ready|
      {
        var s := ready[0];
        assert old(ready)[..n + 1] == old(ready)[..n] + [s];
        ready := ready[1..];
        flying := flying + [s];
        n := n + 1;
      }
    }

    /** `slot_abort_inflight`. */
    method GiveUp()
      requires ready != [] && ready[0] < |slots|
      modifies this`ready, this`missed, this`slots, this`done, this`outstanding, this`fatal
      ensures State() == AbortStep(old(State())) && fatal
    {
      var id := ready[0];
      missed, slots := missed + |slots[id].data|, slots[id := slots[id].(seen := 2)];
      ready, done, outstanding, fatal := ready[1..], done + [id], outstanding - 1, true;
    }

    /** Writer thread: one completion in `reap_completions_inline`.  A batch counts as outstanding until its
        second one. */
    method Reap(i: nat, res: int)
      requires Valid() && i < |flying| && flying[i] < |slots|
      requires Answers(slots[flying[i]], res)
      modifies this
      ensures Valid() && State() == CompleteStep(old(State()), i, res)
      ensures offset == |file| && offset + lost + missed <= Handed(State()) == Handed(old(State()))
      ensures |done| == |old(done)| + old(outstanding) - outstanding
      ensures flying == [] && lost + missed > 0 ==> fatal
      ensures var s := old(slots[flying[i]]); fatal <==> old(fatal) || (s.seen != 0 && (s.bad || res < 0))
    {
      hide PipeInv, Fits, WriteDone, SyncDone;
      CompleteValid(State(), i, res);
      if slots[flying[i]].seen == 0 { NoteWrite(flying[i], res); } else { NoteSync(i, res); }
    }

    method NoteWrite(id: nat, res: int)
      requires id < |slots| && res <= |slots[id].data|
      modifies this`offset, this`slots, this`file, this`missed, this`lost
      ensures State() == WriteDone(old(State()), id, res)
    {
      hide Put;
      var s := slots[id];
      if res > 0 { offset := offset + res; }
      slots := slots[id := s.(seen := 1, bad := res < 0, cut := res < |s.data|)];
      file := Put(file, s.base, s.data[..Taken(res)]);
      if res < 0 { missed := missed + |s.data|; } else { lost := lost + |s.data| - res; }
    }

    method NoteSync(i: nat, res: int)
      requires i < |flying| && flying[i] < |slots|
      modifies this`fatal, this`slots, this`flying, this`done, this`outstanding
      ensures State() == SyncDone(old(State()), i, res)
      ensures fatal <==> old(fatal) || old(slots[flying[i]]).bad || res < 0
    {
      var id := flying[i];
      if slots[id].bad || res < 0 { fatal := true; }
      slots := slots[id := slots[id].(seen := 2)];
      flying, done, outstanding := flying[..i] + flying[i + 1..], done + [id], outstanding - 1;
    }

    /** The finished slots go back, one by one, each in front of the others. */
    method PutBack(list: seq<nat>)
      requires forall x :: x in list ==> x < |slots|
      modifies this`slots, this`free
      ensures slots == Cleared(old(slots), list) && free == Reversed(list) + old(free)
    {
      hide Cleared, Reversed;
      var i := 0;
      NoneCleared(slots, free);
      assert list[..0] == [];
      while i < |list|
        invariant i <= |list|
        invariant slots == Cleared(old(slots), list[..i])
        invariant free == Reversed(list[..i]) + old(free)
      {
        var s := list[i];
        assert s in list;
        assert list[..i + 1] == list[..i] + [s];
        ClearedMore(old(slots), list[..i], s);
        ReversedSnoc(list[..i], s);
        slots := slots[s := Slot([], slots[s].cap, 0, 0, false, false)];
        assert [s] + (Reversed(list[..i]) + old(free)) == [s] + Reversed(list[..i]) + old(free);
        free := [s] + free;
        i := i + 1;
      }
      assert list[..i] == list;
    }

    /** Main thread: `drain_completed` empties the finished list. */
    method DrainCompleted()
      requires Valid()
      modifies this
      ensures Valid() && State() == RecycleStep(old(State()))
    {
      hide Cleared, Reversed, PipeInv, Fits;
      RecycleValid(State());
      var list := done;
      done := [];
      PutBack(list);
    }
  }

  // ---------------------------------------------------------------- each step keeps it all

  lemma StepValid(p: Pipe, e: Event)
    requires PipeInv(p) && Fits(p) && Bounded(p) && Enabled(p, e)
    ensures PipeInv(Next(p, e)) && Fits(Next(p, e))
  {
    hide PipeInv, Fits, Next, Enabled;
    NextInv(p, e);
    FitsNext(p, e);
  }

  lemma NewFits(n: nat)
    ensures Fits(NewPipe(n))
  {
  }

  lemma WithCurValid(p: Pipe)
    requires PipeInv(p) && Fits(p) && p.cur == None && p.free != []
    ensures Bounded(p) && p.free[0] < |p.slots| && PipeInv(WithCur(p)) && Fits(WithCur(p))
  {
    hide PipeInv, CapOk;
    WithCurInv(p);
  }

  /** The bytes in the slot being filled. */
  function InCur(p: Pipe): nat {
    if p.cur.Some? && p.cur.value < |p.slots| then |p.slots[p.cur.value].data| else 0
  }

  /** The buffer of the slot being filled, or of the one that will be. */
  function CurCap(p: Pipe): nat {
    if p.cur.Some? && p.cur.value < |p.slots| then p.slots[p.cur.value].cap
    else if p.cur == None && p.free != [] && p.free[0] < |p.slots| then p.slots[p.free[0]].cap
    else 0
  }

  /** `AppendStep` of a pipeline that satisfies its invariant. */
  ghost function AppendRun(p: Pipe, data: bytes, alloc: bool): (Pipe, bool)
    requires PipeInv(p) && (p.cur.Some? || p.free != [])
  {
    InvPlaces(p);
    assert p.cur == None ==> p.free[0] in p.free + p.ready + p.flying + p.done;
    AppendStep(p, data, alloc)
  }

  lemma AppendValid(p: Pipe, data: bytes, alloc: bool)
    requires PipeInv(p) && Fits(p) && (p.cur.Some? || p.free != [])
    ensures Bounded(p) && PipeInv(AppendRun(p, data, alloc).0) && Fits(AppendRun(p, data, alloc).0)
    ensures var (q, ok) := AppendRun(p, data, alloc);
      && q.submitted == |q.log| && q.log == (if ok then p.log + data else p.log)
      && (alloc ==> (ok <==> !p.fatal && InCur(p) + |data| <= SLOT_MAX))
      && (!alloc ==> (ok <==> !p.fatal && InCur(p) + |data| <= CurCap(p)))
  {
    hide PipeInv, CapOk, Room;
    InvPlaces(p);
    StepValid(p, Append(data, alloc));
    AppendSubmitted(AppendRun(p, data, alloc).0);
    assert p.cur == None ==> p.free[0] in p.free + p.ready + p.flying + p.done;
    var q := WithCur(p);
    RoomExact(q.slots[q.cur.value], |data|);
    RoomKept(q.slots[q.cur.value], |data|);
  }

  lemma RoomKept(s: Slot, n: nat)
    ensures Room(s, n, false).Some? <==> |s.data| + n <= s.cap
  {
  }

  lemma AppendSubmitted(p: Pipe)
    requires PipeInv(p)
    ensures p.submitted == |p.log|
  {
    hide OneStage, Stages, Accounted, FileOk, Once, Clean, Tiled;
  }

  /** An append, seen after a slot has been taken. */
  lemma AppendRunIs(p: Pipe, data: bytes, alloc: bool)
    requires PipeInv(p) && (p.cur.Some? || p.free != [])
    ensures Bounded(p) && (p.cur == None ==> p.free[0] < |p.slots|)
    ensures var q := WithCur(p);
      && q.cur.value < |q.slots|
      && AppendRun(p, data, alloc) == if p.fatal then (p, false) else
        match Room(q.slots[q.cur.value], |data|, alloc)
        case None => (q, false)
        case Some(c) =>
          (q.(slots := q.slots[q.cur.value :=
              q.slots[q.cur.value].(data := q.slots[q.cur.value].data + data, cap := c)],
              submitted := q.submitted + |data|, log := q.log + data), true)
  {
    InvPlaces(p);
    hide PipeInv, Room;
    assert p.cur == None ==> p.free[0] in p.free + p.ready + p.flying + p.done;
  }

  lemma HandoffValid(p: Pipe)
    requires PipeInv(p) && Fits(p) && p.outstanding < MAX_OUTSTANDING
    ensures (p.cur.Some? ==> p.cur.value < |p.slots|)
    ensures PipeInv(HandoffStep(p)) && Fits(HandoffStep(p)) && Handed(HandoffStep(p)) == p.submitted
  {
    InvPlaces(p);
    StepValid(p, Handoff);
    hide OneStage, Stages, Accounted, FileOk, Once, Clean, Tiled, Fits;
  }

  /** The slot after the first n cannot be submitted. */
  ghost function AbortRun(p: Pipe, n: nat): Pipe
    requires PipeInv(p) && n < |p.ready|
  {
    SubmitSteps(p, n, true);
    AbortStep(Submitted(p, n))
  }

  lemma SubmitValid(p: Pipe, n: nat, abort: bool)
    requires PipeInv(p) && Fits(p) && n <= |p.ready| && (abort ==> n < |p.ready|)
    ensures abort ==> p.ready[n] < |p.slots|
    ensures var q := if abort then AbortRun(p, n) else Submitted(p, n); PipeInv(q) && Fits(q)
  {
    hide PipeInv, Fits;
    SubmitSteps(p, n, abort);
    RunInv(p, Submits(n, abort));
    FitsRun(p, Submits(n, abort));
  }

  lemma CompleteValid(p: Pipe, i: nat, n: int)
    requires PipeInv(p) && Fits(p) && Enabled(p, Complete(i, n))
    ensures PipeInv(CompleteStep(p, i, n)) && Fits(CompleteStep(p, i, n))
    ensures var q := CompleteStep(p, i, n);
      && |q.done| == |p.done| + p.outstanding - q.outstanding
      && q.offset == |q.file| && q.offset + q.lost + q.missed <= Handed(q) == Handed(p)
      && (q.flying == [] && q.lost + q.missed > 0 ==> q.fatal)
  {
    hide PipeInv, Fits, Put;
    InvPlaces(p);
    StepValid(p, Complete(i, n));
    FileCounted(CompleteStep(p, i, n));
  }

  lemma FileCounted(p: Pipe)
    requires PipeInv(p)
    ensures p.offset == |p.file| && p.offset + p.lost + p.missed <= Handed(p)
    ensures p.flying == [] && p.lost + p.missed > 0 ==> p.fatal
  {
    hide OneStage, Stages, FileOk, Clean, Tiled, Filling;
  }

  lemma RecycleValid(p: Pipe)
    requires PipeInv(p) && Fits(p)
    ensures PipeInv(RecycleStep(p)) && Fits(RecycleStep(p)) && forall x :: x in p.done ==> x < |p.slots|
  {
    hide PipeInv, Fits;
    InvPlaces(p);
    StepValid(p, Recycle);
    forall x | x in p.done ensures x < |p.slots| { assert x in p.free + p.ready + p.flying + p.done; }
  }

  lemma {:induction false} ReversedSnoc(a: seq<nat>, x: nat)
    ensures Reversed(a + [x]) == [x] + Reversed(a)
  {
    if a == [] {
      assert a + [x] == [x] && [x][1..] == [];
    } else {
      var t := a[1..];
      assert (a + [x])[1..] == t + [x] && (a + [x])[0] == a[0];
      ReversedSnoc(t, x);
      assert [x] + Reversed(t) + [a[0]] == [x] + (Reversed(t) + [a[0]]);
    }
  }

  lemma ClearedMore(slots: seq<Slot>, ids: seq<nat>, x: nat)
    requires x < |slots|
    ensures |Cleared(slots, ids)| == |slots| && Cleared(slots, ids)[x].cap == slots[x].cap
    ensures Cleared(slots, ids + [x]) == Cleared(slots, ids)[x := Slot([], slots[x].cap, 0, 0, false, false)]
  {
  }

  lemma NoneCleared(slots: seq<Slot>, free: seq<nat>)
    ensures Cleared(slots, []) == slots && Reversed([]) + free == free
  {
  }
}
