/** What every interleaving of the append-only file's two threads keeps. */
module AofSafety {
  import opened Bytes
  import opened AofPipeline

  // ---------------------------------------------------------------- one stage each

  function Is(cur: Option<nat>, x: nat): nat {
    if cur == Some(x) then 1 else 0
  }

  /** In how many places a slot is. */
  function Places(p: Pipe, x: nat): nat {
    Is(p.cur, x) + multiset(p.free)[x] + multiset(p.ready)[x] + multiset(p.flying)[x] + multiset(p.done)[x]
  }

  /** Every slot is in exactly one stage. */
  ghost predicate OneStage(p: Pipe) {
    forall x: nat :: Places(p, x) == if x < |p.slots| then 1 else 0
  }

  // ---------------------------------------------------------------- tiling

  /** The handed ranges follow each other from 0 on, and end at `end`. */
  predicate Tiled(handed: seq<(nat, nat)>, end: nat)
    decreases |handed|
  {
    if handed == [] then end == 0
    else
      var r := handed[|handed| - 1];
      r.0 < r.1 && r.1 == end && Tiled(handed[..|handed| - 1], r.0)
  }

  /** Where the next slot begins. */
  function Handed(p: Pipe): nat {
    if p.handed == [] then 0 else p.handed[|p.handed| - 1].1
  }

  /** A slot that was handed off holds its part of the log. */
  predicate Holds(p: Pipe, s: Slot) {
    s.data != [] && s.base + |s.data| <= Handed(p) <= |p.log| && p.log[s.base..s.base + |s.data|] == s.data
  }

  ghost predicate Stage(p: Pipe, ids: seq<nat>, lo: nat, hi: nat) {
    forall i :: 0 <= i < |ids| ==>
      ids[i] < |p.slots| && Holds(p, p.slots[ids[i]]) && lo <= p.slots[ids[i]].seen <= hi
  }

  ghost predicate Filling(p: Pipe) {
    && p.submitted == |p.log|
    && Tiled(p.handed, Handed(p))
    && match p.cur
       case None => Handed(p) == p.submitted
       case Some(id) =>
         && id < |p.slots| && p.slots[id].seen == 0 && p.slots[id].base == Handed(p)
         && Handed(p) <= |p.log| && p.slots[id].data == p.log[Handed(p)..]
  }

  // ---------------------------------------------------------------- bytes written

  function Size(slots: seq<Slot>, x: nat): nat {
    if x < |slots| && slots[x].seen == 0 then |slots[x].data| else 0
  }

  /** Bytes of slots whose write has not completed. */
  function Unwritten(slots: seq<Slot>, ids: seq<nat>): nat {
    if ids == [] then 0 else Size(slots, ids[0]) + Unwritten(slots, ids[1..])
  }

  /** An offset belongs to a slot that is not yet written. */
  predicate Covers(slots: seq<Slot>, id: nat, x: nat) {
    id < |slots| && slots[id].seen == 0 && slots[id].base <= x < slots[id].base + |slots[id].data|
  }

  ghost predicate Awaited(p: Pipe, x: nat) {
    exists id :: id in p.ready + p.flying && Covers(p.slots, id, x)
  }

  ghost predicate FileOk(p: Pipe) {
    && (forall x :: x in p.file ==> x < |p.log| && p.file[x] == p.log[x])
    && (p.lost + p.missed == 0 ==> forall x: nat :: x < Handed(p) ==> x in p.file || Awaited(p, x))
  }

  ghost predicate Waits(p: Pipe, id: nat, x: nat) {
    id in p.ready + p.flying && Covers(p.slots, id, x)
  }

  /** Every offset is written at most once: no two slots wait for it, none waits for one that is written,
      and as many are written as the offset counter says. */
  ghost predicate Once(p: Pipe) {
    && (forall a, b, x :: Waits(p, a, x) && Waits(p, b, x) ==> a == b)
    && (forall a, x :: Waits(p, a, x) ==> x !in p.file)
    && (forall x :: x in p.file ==> x < Handed(p))
    && |p.file| == p.offset
  }

  /** Every byte handed off is written, lost to a short write or a failed one, or in a slot that waits. */
  predicate Accounted(p: Pipe) {
    p.offset + p.lost + p.missed + Unwritten(p.slots, p.ready) + Unwritten(p.slots, p.flying) == Handed(p)
  }

  ghost predicate Stages(p: Pipe) {
    && p.outstanding == |p.ready| + |p.flying| <= MAX_OUTSTANDING
    && Stage(p, p.ready, 0, 0) && Stage(p, p.flying, 0, 1) && Stage(p, p.done, 2, 2)
  }

  /** A short or failed write is reported, or will be when its slot is done. */
  ghost predicate Reported(p: Pipe) {
    p.lost + p.missed > 0 ==> p.fatal || exists i :: 0 <= i < |p.flying| && Failed(p.slots, p.flying[i])
  }

  predicate Failed(slots: seq<Slot>, id: nat) {
    id < |slots| && slots[id].cut && slots[id].seen == 1
  }

  ghost predicate PipeInv(p: Pipe) {
    OneStage(p) && Filling(p) && Stages(p) && Accounted(p) && FileOk(p) && Once(p) && Clean(p) && Reported(p)
  }

  /** Free slots are as new. */
  ghost predicate Clean(p: Pipe) {
    forall i :: 0 <= i < |p.free| ==>
      p.free[i] < |p.slots| && p.slots[p.free[i]].seen == 0 && p.slots[p.free[i]].data == []
  }

  // ---------------------------------------------------------------- lists

  lemma InOne(p: Pipe, x: nat)
    requires OneStage(p)
    ensures x in p.free + p.ready + p.flying + p.done || p.cur == Some(x) <==> x < |p.slots|
    ensures x in p.ready ==> x !in p.free && x !in p.flying && x !in p.done && p.cur != Some(x)
    ensures x in p.flying ==> x !in p.free && x !in p.ready && x !in p.done && p.cur != Some(x)
    ensures x in p.free ==> x !in p.ready && x !in p.flying && x !in p.done && p.cur != Some(x)
    ensures x in p.done ==> x !in p.ready && x !in p.flying && x !in p.free && p.cur != Some(x)
  {
    assert Places(p, x) == if x < |p.slots| then 1 else 0;
    assert x in p.ready <==> multiset(p.ready)[x] > 0;
    assert x in p.flying <==> multiset(p.flying)[x] > 0;
    assert x in p.free <==> multiset(p.free)[x] > 0;
    assert x in p.done <==> multiset(p.done)[x] > 0;
  }

  lemma InvBounded(p: Pipe)
    requires OneStage(p)
    ensures Bounded(p)
  {
    forall x | x in p.free + p.ready + p.flying + p.done ensures x < |p.slots| { InOne(p, x); }
    if p.cur.Some? { InOne(p, p.cur.value); }
  }

  lemma {:induction false} UnwrittenAppend(slots: seq<Slot>, a: seq<nat>, b: seq<nat>)
    ensures Unwritten(slots, a + b) == Unwritten(slots, a) + Unwritten(slots, b)
  {
    if a == [] {
      assert a + b == b;
    } else {
      assert (a + b)[1..] == a[1..] + b;
      UnwrittenAppend(slots, a[1..], b);
    }
  }

  /** Slots that are not in a list do not count. */
  lemma {:induction false} UnwrittenSame(a: seq<Slot>, b: seq<Slot>, ids: seq<nat>)
    requires forall i :: 0 <= i < |ids| ==> Size(a, ids[i]) == Size(b, ids[i])
    ensures Unwritten(a, ids) == Unwritten(b, ids)
  {
    if ids != [] {
      assert forall i :: 0 <= i < |ids[1..]| ==> ids[1..][i] == ids[i + 1];
      UnwrittenSame(a, b, ids[1..]);
    }
  }

  lemma {:induction false} PutAt(file: map<nat, byte>, base: nat, data: bytes, x: nat)
    ensures x in Put(file, base, data) <==> x in file || base <= x < base + |data|
    ensures base <= x < base + |data| ==> x in Put(file, base, data) && Put(file, base, data)[x] == data[x - base]
    ensures x in file && !(base <= x < base + |data|) ==> Put(file, base, data)[x] == file[x]
    decreases |data|
  {
    if data != [] {
      PutAt(file[base := data[0]], base + 1, data[1..], x);
    }
  }

  lemma InList(ids: seq<nat>, i: nat)
    requires i < |ids|
    ensures ids[i] in ids
  {
  }

  // ---------------------------------------------------------------- a slot no list has

  /** A step that writes one slot which is not handed off, and may append to the log. */
  ghost predicate Touches(p: Pipe, q: Pipe, id: nat) {
    && |q.slots| == |p.slots| && (forall x :: 0 <= x < |p.slots| && x != id ==> q.slots[x] == p.slots[x])
    && q.ready == p.ready && q.flying == p.flying && q.done == p.done && q.outstanding == p.outstanding
    && q.handed == p.handed && q.file == p.file && q.offset == p.offset && q.lost == p.lost
    && q.missed == p.missed && q.fatal == p.fatal && p.log <= q.log
    && id !in p.ready && id !in p.flying && id !in p.done
  }

  lemma TouchesStage(p: Pipe, q: Pipe, id: nat, ids: seq<nat>, lo: nat, hi: nat)
    requires Touches(p, q, id) && Stage(p, ids, lo, hi) && id !in ids
    ensures Stage(q, ids, lo, hi)
  {
    forall i | 0 <= i < |ids|
      ensures ids[i] < |q.slots| && Holds(q, q.slots[ids[i]]) && lo <= q.slots[ids[i]].seen <= hi
    {
      InList(ids, i);
      assert Holds(p, p.slots[ids[i]]);
    }
  }

  lemma TouchesRest(p: Pipe, q: Pipe, id: nat)
    requires Touches(p, q, id) && Stages(p) && Accounted(p) && FileOk(p) && Once(p) && Reported(p)
    ensures Stages(q) && Accounted(q) && FileOk(q) && Once(q) && Reported(q)
  {
    hide Stage;
    TouchesOnce(p, q, id);
    TouchesReported(p, q, id);
    hide Once;
    TouchesStage(p, q, id, p.ready, 0, 0);
    TouchesStage(p, q, id, p.flying, 0, 1);
    TouchesStage(p, q, id, p.done, 2, 2);
    UnwrittenSame(p.slots, q.slots, p.ready);
    UnwrittenSame(p.slots, q.slots, p.flying);
    forall x: nat | Awaited(p, x) ensures Awaited(q, x) {
      var k :| k in p.ready + p.flying && Covers(p.slots, k, x);
      assert Covers(q.slots, k, x);
    }
  }

  lemma TouchesReported(p: Pipe, q: Pipe, id: nat)
    requires Touches(p, q, id) && Reported(p)
    ensures Reported(q)
  {
    if p.lost + p.missed > 0 && !p.fatal {
      var i :| 0 <= i < |p.flying| && Failed(p.slots, p.flying[i]);
      InList(p.flying, i);
      assert Failed(q.slots, q.flying[i]);
    }
  }

  lemma TouchesOnce(p: Pipe, q: Pipe, id: nat)
    requires Touches(p, q, id) && Once(p)
    ensures Once(q)
  {
    forall a: nat, x: nat | Waits(q, a, x) ensures Waits(p, a, x) {
      assert a != id;
    }
  }

  // ---------------------------------------------------------------- append

  lemma TakePlaces(p: Pipe, q: Pipe)
    requires OneStage(p) && p.cur == None && p.free != [] && q.cur == Some(p.free[0]) && q.free == p.free[1..]
    requires q.ready == p.ready && q.flying == p.flying && q.done == p.done && |q.slots| == |p.slots|
    ensures OneStage(q)
  {
    var id := p.free[0];
    assert p.free == [id] + p.free[1..];
    forall x: nat ensures Places(q, x) == if x < |q.slots| then 1 else 0 {
      assert multiset(p.free)[x] == Is(Some(id), x) + multiset(p.free[1..])[x];
      assert Places(p, x) == if x < |p.slots| then 1 else 0;
    }
  }

  lemma WithCurInv(p: Pipe)
    requires PipeInv(p) && (p.cur.Some? || p.free != [])
    ensures Bounded(p) && (p.cur == None ==> p.free[0] < |p.slots|) && PipeInv(WithCur(p))
  {
    InvBounded(p);
    if p.cur == None {
      var id := p.free[0];
      InOne(p, id);
      var q := WithCur(p);
      TouchesRest(p, q, id);
      TakePlaces(p, q);
      hide OneStage, Stages, FileOk, Accounted, Tiled, Once, Reported;
      assert p.log[Handed(p)..] == [];
      forall i | 0 <= i < |q.free|
        ensures q.free[i] < |q.slots| && q.slots[q.free[i]].seen == 0 && q.slots[q.free[i]].data == []
      {
        assert q.free[i] == p.free[i + 1];
      }
    }
  }

  lemma SamePlaces(p: Pipe, q: Pipe)
    requires OneStage(p) && q.cur == p.cur && q.free == p.free && q.ready == p.ready && q.flying == p.flying
    requires q.done == p.done && |q.slots| == |p.slots|
    ensures OneStage(q)
  {
    forall x: nat ensures Places(q, x) == if x < |q.slots| then 1 else 0 {
      assert Places(p, x) == Places(q, x);
    }
  }

  lemma GrowInv(p: Pipe, data: bytes, c: nat)
    requires PipeInv(p) && p.cur.Some? && p.cur.value < |p.slots|
    ensures var id := p.cur.value;
      PipeInv(p.(slots := p.slots[id := p.slots[id].(data := p.slots[id].data + data, cap := c)],
                 submitted := p.submitted + |data|, log := p.log + data))
  {
    var id := p.cur.value;
    var q := p.(slots := p.slots[id := p.slots[id].(data := p.slots[id].data + data, cap := c)],
                submitted := p.submitted + |data|, log := p.log + data);
    hide Stages, FileOk, Accounted, Once, Tiled, Reported;
    InOne(p, id);
    TouchesRest(p, q, id);
    SamePlaces(p, q);
    hide OneStage;
    forall i | 0 <= i < |q.free|
      ensures q.free[i] < |q.slots| && q.slots[q.free[i]].seen == 0 && q.slots[q.free[i]].data == []
    {
      InList(p.free, i);
    }
    assert q.log[Handed(q)..] == p.log[Handed(p)..] + data;
  }

  lemma AppendInv(p: Pipe, data: bytes, alloc: bool)
    requires PipeInv(p) && (p.cur.Some? || p.free != []) && Bounded(p) && (p.cur == None ==> p.free[0] < |p.slots|)
    ensures PipeInv(AppendStep(p, data, alloc).0)
  {
    hide PipeInv, Room;
    WithCurInv(p);
    var q := WithCur(p);
    match Room(q.slots[q.cur.value], |data|, alloc)
    case None =>
    case Some(c) => GrowInv(q, data, c);
  }

  // ---------------------------------------------------------------- hand-off and submission

  lemma HandoffInv(p: Pipe)
    requires PipeInv(p) && p.outstanding < MAX_OUTSTANDING && Bounded(p)
    ensures PipeInv(HandoffStep(p))
  {
    if p.cur.Some? && p.slots[p.cur.value].data != [] {
      var id := p.cur.value;
      var q := HandoffStep(p);
      var s := p.slots[id];
      assert q.handed[..|p.handed|] == p.handed;
      HandoffPlaces(p, q, id);
      HandoffStages(p, q, id);
      UnwrittenAppend(p.slots, p.ready, [id]);
      assert Unwritten(p.slots, [id]) == |s.data|;
      HandoffFile(p, q, id);
      HandoffOnce(p, q, id);
    }
  }

  lemma HandoffPlaces(p: Pipe, q: Pipe, id: nat)
    requires OneStage(p) && p.cur == Some(id) && q.cur == None && q.ready == p.ready + [id]
    requires q.free == p.free && q.flying == p.flying && q.done == p.done && q.slots == p.slots
    ensures OneStage(q)
  {
    forall x: nat ensures Places(q, x) == if x < |q.slots| then 1 else 0 {
      assert Places(p, x) == if x < |p.slots| then 1 else 0;
      assert multiset(q.ready)[x] == multiset(p.ready)[x] + Is(Some(id), x);
    }
  }

  /** What was handed off before still is when more is. */
  lemma StageLater(p: Pipe, q: Pipe, ids: seq<nat>, lo: nat, hi: nat)
    requires Stage(p, ids, lo, hi) && q.slots == p.slots && q.log == p.log && Handed(p) <= Handed(q) <= |p.log|
    ensures Stage(q, ids, lo, hi)
  {
  }

  lemma StageAppend(p: Pipe, a: seq<nat>, b: seq<nat>, lo: nat, hi: nat)
    requires Stage(p, a, lo, hi) && Stage(p, b, lo, hi)
    ensures Stage(p, a + b, lo, hi)
  {
  }

  lemma HandoffStages(p: Pipe, q: Pipe, id: nat)
    requires PipeInv(p) && p.outstanding < MAX_OUTSTANDING
    requires p.cur == Some(id) && id < |p.slots| && p.slots[id].data != []
    requires q == HandoffStep(p)
    ensures Stages(q) && Handed(q) == p.submitted
  {
    hide OneStage, FileOk, Clean, Accounted, Tiled;
    StageLater(p, q, p.ready, 0, 0);
    StageLater(p, q, p.flying, 0, 1);
    StageLater(p, q, p.done, 2, 2);
    assert p.log[p.slots[id].base..|p.log|] == p.log[p.slots[id].base..];
    StageAppend(q, p.ready, [id], 0, 0);
  }

  lemma HandoffFile(p: Pipe, q: Pipe, id: nat)
    requires FileOk(p) && p.cur == Some(id) && id < |p.slots| && p.slots[id].seen == 0 && p.slots[id].base == Handed(p)
    requires q.slots == p.slots && q.ready == p.ready + [id]
    requires q.flying == p.flying && q.file == p.file && q.log == p.log
    requires q.lost == p.lost && q.missed == p.missed && Handed(q) == Handed(p) + |p.slots[id].data|
    ensures FileOk(q)
  {
    if p.lost + p.missed == 0 {
      forall x: nat | x < Handed(q) ensures x in q.file || Awaited(q, x) {
        if x >= Handed(p) {
          assert id in q.ready + q.flying && Covers(q.slots, id, x);
        } else if x !in p.file {
          var k :| k in p.ready + p.flying && Covers(p.slots, k, x);
          assert k in q.ready + q.flying;
        }
      }
    }
  }

  /** The slot handed off lies beyond all others. */
  lemma HandoffOnce(p: Pipe, q: Pipe, id: nat)
    requires Once(p) && Stages(p) && OneStage(p) && p.cur == Some(id) && id < |p.slots| && p.slots[id].base == Handed(p)
    requires q == HandoffStep(p) && p.slots[id].data != []
    ensures Once(q)
  {
    hide OneStage, Stages;
    forall a: nat, x: nat | Waits(q, a, x) ensures if a == id then Handed(p) <= x else Waits(p, a, x) && x < Handed(p) {
      if a != id { WaitsBelow(p, a, x); }
    }
  }

  lemma WaitsBelow(p: Pipe, a: nat, x: nat)
    requires Stages(p) && a in p.ready + p.flying && Covers(p.slots, a, x)
    ensures x < Handed(p)
  {
    if a in p.ready {
      var i :| 0 <= i < |p.ready| && p.ready[i] == a;
      assert Holds(p, p.slots[p.ready[i]]);
    } else {
      var i :| 0 <= i < |p.flying| && p.flying[i] == a;
      assert Holds(p, p.slots[p.flying[i]]);
    }
  }

  lemma SubmitPlaces(p: Pipe)
    requires OneStage(p) && p.ready != []
    ensures OneStage(SubmitStep(p))
  {
    var q, id := SubmitStep(p), p.ready[0];
    assert p.ready == [id] + p.ready[1..];
    forall x: nat ensures Places(q, x) == if x < |q.slots| then 1 else 0 {
      assert Places(p, x) == if x < |p.slots| then 1 else 0;
      assert multiset(p.ready)[x] == Is(Some(id), x) + multiset(p.ready[1..])[x];
      assert multiset(q.flying)[x] == multiset(p.flying)[x] + Is(Some(id), x);
    }
  }

  lemma SubmitStages(p: Pipe)
    requires Stages(p) && Accounted(p) && p.ready != []
    ensures Stages(SubmitStep(p)) && Accounted(SubmitStep(p))
  {
    var q, id := SubmitStep(p), p.ready[0];
    assert Stage(p, [id], 0, 1);
    StageAppend(p, p.flying, [id], 0, 1);
    UnwrittenAppend(p.slots, p.flying, [id]);
    assert Unwritten(p.slots, [id]) == Size(p.slots, id);
    forall i | 0 <= i < |q.ready| ensures q.ready[i] == p.ready[i + 1] {}
    SameStage(p, q, p.ready[1..], 0, 0);
    SameStage(p, q, q.flying, 0, 1);
    SameStage(p, q, p.done, 2, 2);
  }

  lemma SameStage(p: Pipe, q: Pipe, ids: seq<nat>, lo: nat, hi: nat)
    requires Stage(p, ids, lo, hi) && q.slots == p.slots && q.log == p.log && q.handed == p.handed
    ensures Stage(q, ids, lo, hi)
  {
  }

  lemma SubmitFile(p: Pipe)
    requires FileOk(p) && p.ready != []
    ensures FileOk(SubmitStep(p))
  {
    var q := SubmitStep(p);
    assert p.ready == [p.ready[0]] + p.ready[1..];
    forall x: nat | Awaited(p, x) ensures Awaited(q, x) {
      var k :| k in p.ready + p.flying && Covers(p.slots, k, x);
      assert k in q.ready + q.flying;
    }
  }

  lemma SubmitInv(p: Pipe)
    requires PipeInv(p) && p.ready != []
    ensures PipeInv(SubmitStep(p))
  {
    SubmitReported(p);
    hide OneStage, Stages, Accounted, FileOk, Tiled, Once, Reported;
    SubmitPlaces(p);
    SubmitStages(p);
    SubmitFile(p);
    SameWaits(p, SubmitStep(p));
  }

  lemma SubmitReported(p: Pipe)
    requires Reported(p) && p.ready != []
    ensures Reported(SubmitStep(p))
  {
    var q := SubmitStep(p);
    if p.lost + p.missed > 0 && !p.fatal {
      var i :| 0 <= i < |p.flying| && Failed(p.slots, p.flying[i]);
      assert q.flying[i] == p.flying[i];
    }
  }

  /** No slot waits that did not, and the file is the same. */
  lemma SameWaits(p: Pipe, q: Pipe)
    requires Once(p) && q.file == p.file && q.offset == p.offset && q.handed == p.handed
    requires forall a :: a in q.ready + q.flying ==>
      a in p.ready + p.flying && (forall x :: Covers(q.slots, a, x) ==> Covers(p.slots, a, x))
    ensures Once(q)
  {
    forall a: nat, x: nat | Waits(q, a, x) ensures Waits(p, a, x) {}
  }

  // ---------------------------------------------------------------- a slot that cannot be submitted

  lemma AbortPlaces(p: Pipe)
    requires OneStage(p) && p.ready != [] && p.ready[0] < |p.slots|
    ensures OneStage(AbortStep(p))
  {
    var q, id := AbortStep(p), p.ready[0];
    assert p.ready == [id] + p.ready[1..];
    forall x: nat ensures Places(q, x) == if x < |q.slots| then 1 else 0 {
      assert Places(p, x) == if x < |p.slots| then 1 else 0;
      assert multiset(p.ready)[x] == Is(Some(id), x) + multiset(p.ready[1..])[x];
      assert multiset(q.done)[x] == multiset(p.done)[x] + Is(Some(id), x);
    }
  }

  /** The head of the ready list is nowhere else. */
  lemma ReadyOnce(p: Pipe)
    requires OneStage(p) && p.ready != []
    ensures var id := p.ready[0];
      id < |p.slots| && id !in p.ready[1..] && id !in p.flying && id !in p.done && id !in p.free && p.cur != Some(id)
  {
    var id := p.ready[0];
    InList(p.ready, 0);
    InOne(p, id);
    assert p.ready == [id] + p.ready[1..];
    assert Places(p, id) == 1;
    assert multiset(p.ready)[id] == 1 + multiset(p.ready[1..])[id];
  }

  lemma AbortStages(p: Pipe)
    requires OneStage(p) && Stages(p) && Accounted(p) && p.ready != [] && p.ready[0] < |p.slots|
    ensures Stages(AbortStep(p)) && Accounted(AbortStep(p))
  {
    var q, id := AbortStep(p), p.ready[0];
    hide OneStage, Stage;
    ReadyOnce(p);
    StageAt(p, p.ready, 0, 0, 0);
    StageParts(p, p.ready, 0, 0, 0);
    StageOne(q, id, 2, 2);
    StageElsewhere(p, q, id, p.ready[1..], 0, 0);
    StageElsewhere(p, q, id, p.flying, 0, 1);
    StageElsewhere(p, q, id, p.done, 2, 2);
    StageAppend(q, p.done, [id], 2, 2);
  }

  lemma AbortRest(p: Pipe)
    requires OneStage(p) && Filling(p) && Clean(p) && FileOk(p) && Once(p) && Stages(p) && p.ready != []
    requires p.ready[0] < |p.slots|
    ensures var q := AbortStep(p); Filling(q) && Clean(q) && FileOk(q) && Once(q)
  {
    var q, id := AbortStep(p), p.ready[0];
    hide Tiled, OneStage, Once;
    ReadyOnce(p);
    StageAt(p, p.ready, 0, 0, 0);
    forall j | 0 <= j < |p.free| ensures p.free[j] != id { InList(p.free, j); }
    SameWaits(p, q);
  }

  lemma AbortInv(p: Pipe)
    requires PipeInv(p) && p.ready != [] && p.ready[0] < |p.slots|
    ensures PipeInv(AbortStep(p))
  {
    AbortPlaces(p);
    AbortStages(p);
    AbortRest(p);
    hide OneStage, Stages, Accounted, FileOk, Filling, Once, Clean;
  }

  // ---------------------------------------------------------------- completions

  lemma {:induction false} UnwrittenAt(slots: seq<Slot>, ids: seq<nat>, i: nat)
    requires i < |ids|
    ensures Unwritten(slots, ids) == Unwritten(slots, ids[..i]) + Size(slots, ids[i]) + Unwritten(slots, ids[i + 1..])
  {
    assert ids == ids[..i] + ([ids[i]] + ids[i + 1..]);
    UnwrittenAppend(slots, ids[..i], [ids[i]] + ids[i + 1..]);
    assert ([ids[i]] + ids[i + 1..])[1..] == ids[i + 1..];
  }

  /** A slot is in the flying list only once. */
  lemma FliesOnce(p: Pipe, i: nat)
    requires OneStage(p) && i < |p.flying|
    ensures p.flying[i] < |p.slots| && p.flying[i] !in p.flying[..i] && p.flying[i] !in p.flying[i + 1..]
    ensures p.flying[i] !in p.ready && p.flying[i] !in p.done && p.flying[i] !in p.free && p.cur != Some(p.flying[i])
  {
    var id := p.flying[i];
    InList(p.flying, i);
    InOne(p, id);
    assert p.flying == p.flying[..i] + [id] + p.flying[i + 1..];
    assert Places(p, id) == 1;
    assert multiset(p.flying)[id] == multiset(p.flying[..i])[id] + 1 + multiset(p.flying[i + 1..])[id];
  }

  /** The slots of a list that does not have id. */
  lemma StageElsewhere(p: Pipe, q: Pipe, id: nat, ids: seq<nat>, lo: nat, hi: nat)
    requires Stage(p, ids, lo, hi) && id !in ids && q.log == p.log && q.handed == p.handed
    requires |q.slots| == |p.slots| && forall x :: 0 <= x < |p.slots| && x != id ==> q.slots[x] == p.slots[x]
    ensures Stage(q, ids, lo, hi) && Unwritten(q.slots, ids) == Unwritten(p.slots, ids)
  {
    forall i | 0 <= i < |ids| ensures ids[i] != id { InList(ids, i); }
    assert forall i :: 0 <= i < |ids| ==> Holds(p, p.slots[ids[i]]);
    UnwrittenSame(q.slots, p.slots, ids);
  }

  lemma StageParts(p: Pipe, ids: seq<nat>, i: nat, lo: nat, hi: nat)
    requires Stage(p, ids, lo, hi) && i < |ids|
    ensures Stage(p, ids[..i], lo, hi) && Stage(p, ids[i + 1..], lo, hi)
  {
  }

  lemma StageAt(p: Pipe, ids: seq<nat>, i: nat, lo: nat, hi: nat)
    requires Stage(p, ids, lo, hi) && i < |ids|
    ensures ids[i] < |p.slots| && Holds(p, p.slots[ids[i]]) && lo <= p.slots[ids[i]].seen <= hi
  {
  }

  lemma StageOne(p: Pipe, id: nat, lo: nat, hi: nat)
    requires id < |p.slots| && Holds(p, p.slots[id]) && lo <= p.slots[id].seen <= hi
    ensures Stage(p, [id], lo, hi)
  {
  }

  lemma WriteAccounted(p: Pipe, i: nat, res: int)
    requires OneStage(p) && Stages(p) && Accounted(p) && Enabled(p, Complete(i, res)) && p.slots[p.flying[i]].seen == 0
    ensures Accounted(CompleteStep(p, i, res))
  {
    var q, id := CompleteStep(p, i, res), p.flying[i];
    hide OneStage, Stage, Unwritten, Put;
    FliesOnce(p, i);
    StageParts(p, p.flying, i, 0, 1);
    UnwrittenAt(p.slots, p.flying, i);
    UnwrittenAt(q.slots, p.flying, i);
    StageElsewhere(p, q, id, p.ready, 0, 0);
    StageElsewhere(p, q, id, p.flying[..i], 0, 1);
    StageElsewhere(p, q, id, p.flying[i + 1..], 0, 1);
  }

  lemma WriteStages(p: Pipe, i: nat, res: int)
    requires OneStage(p) && Stages(p) && Enabled(p, Complete(i, res)) && p.slots[p.flying[i]].seen == 0
    ensures Stages(CompleteStep(p, i, res))
  {
    var q, id := CompleteStep(p, i, res), p.flying[i];
    hide OneStage, Put;
    FliesOnce(p, i);
    hide Stage;
    StageElsewhere(p, q, id, p.ready, 0, 0);
    StageElsewhere(p, q, id, p.done, 2, 2);
    WriteFlying(p, q, i, res < 0, res < |p.slots[id].data|);
  }

  lemma WriteFlying(p: Pipe, q: Pipe, i: nat, bad: bool, cut: bool)
    requires Stage(p, p.flying, 0, 1) && i < |p.flying| && q.log == p.log && q.handed == p.handed
    requires p.flying[i] < |p.slots|
    requires q.slots == p.slots[p.flying[i] := p.slots[p.flying[i]].(seen := 1, bad := bad, cut := cut)]
    ensures Stage(q, p.flying, 0, 1)
  {
    forall j | 0 <= j < |p.flying|
      ensures Holds(q, q.slots[p.flying[j]]) && 0 <= q.slots[p.flying[j]].seen <= 1
    {
      assert Holds(p, p.slots[p.flying[j]]);
    }
  }

  lemma WriteFile(p: Pipe, i: nat, res: int)
    requires FileOk(p) && Enabled(p, Complete(i, res))
    requires p.slots[p.flying[i]].seen == 0 && Holds(p, p.slots[p.flying[i]])
    ensures FileOk(CompleteStep(p, i, res))
  {
    var q, id := CompleteStep(p, i, res), p.flying[i];
    var s := p.slots[id];
    var n := Taken(res);
    var data := s.data[..n];
    forall x: nat | x in q.file ensures x < |q.log| && q.file[x] == q.log[x] {
      PutAt(p.file, s.base, data, x);
      if s.base <= x < s.base + n { assert p.log[s.base..s.base + |s.data|][x - s.base] == p.log[x]; }
    }
    if q.lost + q.missed == 0 {
      forall x: nat | x < Handed(q) ensures x in q.file || Awaited(q, x) {
        PutAt(p.file, s.base, data, x);
        if x !in q.file {
          var k :| k in p.ready + p.flying && Covers(p.slots, k, x);
          assert k != id;
          assert Covers(q.slots, k, x) && k in q.ready + q.flying;
        }
      }
    }
  }

  lemma {:induction false} PutSize(file: map<nat, byte>, base: nat, data: bytes)
    requires forall x :: base <= x < base + |data| ==> x !in file
    ensures |Put(file, base, data)| == |file| + |data|
    decreases |data|
  {
    if data != [] {
      AddSize(file, base, data[0]);
      PutSize(file[base := data[0]], base + 1, data[1..]);
    }
  }

  lemma AddSize(file: map<nat, byte>, x: nat, b: byte)
    requires x !in file
    ensures |file[x := b]| == |file| + 1
  {
    assert file[x := b].Keys == file.Keys + {x};
  }

  lemma WriteOnce(p: Pipe, i: nat, res: int)
    requires Once(p) && Enabled(p, Complete(i, res)) && p.slots[p.flying[i]].seen == 0 && Holds(p, p.slots[p.flying[i]])
    ensures Once(CompleteStep(p, i, res))
  {
    var q, id := CompleteStep(p, i, res), p.flying[i];
    var s := p.slots[id];
    var n := Taken(res);
    var data := s.data[..n];
    hide Put;
    assert id in p.ready + p.flying;
    forall x: nat | s.base <= x < s.base + n ensures Waits(p, id, x) && x !in p.file {}
    PutSize(p.file, s.base, data);
    forall x ensures x in q.file <==> x in p.file || s.base <= x < s.base + n {
      if x >= 0 { PutAt(p.file, s.base, data, x); }
    }
    forall a: nat, x: nat | Waits(q, a, x) ensures Waits(p, a, x) && a != id && x !in q.file {
      assert a != id && Waits(p, a, x);
    }
  }

  lemma SyncStages(p: Pipe, i: nat, res: int)
    requires OneStage(p) && Stages(p) && Accounted(p) && Enabled(p, Complete(i, res)) && p.slots[p.flying[i]].seen != 0
    ensures Stages(CompleteStep(p, i, res)) && Accounted(CompleteStep(p, i, res))
  {
    var q, id := CompleteStep(p, i, res), p.flying[i];
    var a, b := p.flying[..i], p.flying[i + 1..];
    hide OneStage, Stage, Unwritten;
    FliesOnce(p, i);
    StageParts(p, p.flying, i, 0, 1);
    UnwrittenAt(p.slots, p.flying, i);
    UnwrittenAppend(p.slots, a, b);
    UnwrittenAppend(q.slots, a, b);
    StageAt(p, p.flying, i, 0, 1);
    StageOne(q, id, 2, 2);
    StageElsewhere(p, q, id, p.ready, 0, 0);
    StageElsewhere(p, q, id, a, 0, 1);
    StageElsewhere(p, q, id, b, 0, 1);
    StageElsewhere(p, q, id, p.done, 2, 2);
    StageAppend(q, a, b, 0, 1);
    StageAppend(q, p.done, [id], 2, 2);
  }

  lemma SyncPlaces(p: Pipe, i: nat, res: int)
    requires OneStage(p) && Enabled(p, Complete(i, res)) && p.slots[p.flying[i]].seen != 0
    ensures OneStage(CompleteStep(p, i, res))
  {
    var q, id := CompleteStep(p, i, res), p.flying[i];
    assert p.flying == p.flying[..i] + [id] + p.flying[i + 1..];
    forall x: nat ensures Places(q, x) == if x < |q.slots| then 1 else 0 {
      assert Places(p, x) == if x < |p.slots| then 1 else 0;
      assert multiset(p.flying)[x] == multiset(p.flying[..i])[x] + Is(Some(id), x) + multiset(p.flying[i + 1..])[x];
      assert multiset(q.flying)[x] == multiset(p.flying[..i])[x] + multiset(p.flying[i + 1..])[x];
      assert multiset(q.done)[x] == multiset(p.done)[x] + Is(Some(id), x);
    }
  }

  lemma SyncFile(p: Pipe, i: nat, res: int)
    requires FileOk(p) && Enabled(p, Complete(i, res)) && p.slots[p.flying[i]].seen != 0
    ensures FileOk(CompleteStep(p, i, res))
  {
    var q, id := CompleteStep(p, i, res), p.flying[i];
    assert p.flying == p.flying[..i] + [id] + p.flying[i + 1..];
    forall x: nat | Awaited(p, x) ensures Awaited(q, x) {
      var k :| k in p.ready + p.flying && Covers(p.slots, k, x);
      assert k != id;
      assert Covers(q.slots, k, x) && k in q.ready + q.flying;
    }
  }

  lemma WriteReported(p: Pipe, i: nat, res: int)
    requires Reported(p) && Enabled(p, Complete(i, res)) && p.slots[p.flying[i]].seen == 0
    ensures Reported(CompleteStep(p, i, res))
  {
    hide Put;
    var q := CompleteStep(p, i, res);
    if res < |p.slots[p.flying[i]].data| {
      assert Failed(q.slots, q.flying[i]);
    } else if p.lost + p.missed > 0 && !p.fatal {
      var j :| 0 <= j < |p.flying| && Failed(p.slots, p.flying[j]);
      assert Failed(q.slots, q.flying[j]);
    }
  }

  lemma SyncReported(p: Pipe, i: nat, res: int)
    requires OneStage(p) && Reported(p) && Enabled(p, Complete(i, res)) && p.slots[p.flying[i]].seen != 0
    ensures Reported(CompleteStep(p, i, res))
  {
    var q := CompleteStep(p, i, res);
    FliesOnce(p, i);
    hide OneStage;
    if p.lost + p.missed > 0 && !q.fatal {
      var j :| 0 <= j < |p.flying| && Failed(p.slots, p.flying[j]);
      var k := if j < i then j else j - 1;
      assert q.flying[k] == p.flying[j];
      assert Failed(q.slots, q.flying[k]);
    }
  }

  lemma SyncOnce(p: Pipe, i: nat, res: int)
    requires Once(p) && Enabled(p, Complete(i, res)) && p.slots[p.flying[i]].seen != 0
    ensures Once(CompleteStep(p, i, res))
  {
    var q, id := CompleteStep(p, i, res), p.flying[i];
    hide Once;
    assert p.flying == p.flying[..i] + [id] + p.flying[i + 1..];
    SameWaits(p, q);
  }

  lemma CompleteFilling(p: Pipe, i: nat, res: int)
    requires OneStage(p) && Filling(p) && Clean(p) && Enabled(p, Complete(i, res))
    ensures Filling(CompleteStep(p, i, res)) && Clean(CompleteStep(p, i, res))
  {
    hide Tiled, OneStage, Put;
    FliesOnce(p, i);
    forall j | 0 <= j < |p.free| ensures p.free[j] != p.flying[i] { InList(p.free, j); }
  }

  lemma CompleteInv(p: Pipe, i: nat, res: int)
    requires PipeInv(p) && Enabled(p, Complete(i, res))
    ensures PipeInv(CompleteStep(p, i, res))
  {
    hide Put, Tiled, Once, Reported;
    CompleteFilling(p, i, res);
    if p.slots[p.flying[i]].seen == 0 {
      WriteStages(p, i, res);
      WriteAccounted(p, i, res);
      WriteFile(p, i, res);
      WriteOnce(p, i, res);
      WriteReported(p, i, res);
      WritePlaces(p, i, res);
    } else {
      SyncStages(p, i, res);
      SyncPlaces(p, i, res);
      SyncFile(p, i, res);
      SyncOnce(p, i, res);
      SyncReported(p, i, res);
    }
  }

  lemma WritePlaces(p: Pipe, i: nat, res: int)
    requires OneStage(p) && Enabled(p, Complete(i, res)) && p.slots[p.flying[i]].seen == 0
    ensures OneStage(CompleteStep(p, i, res))
  {
    hide Put, OneStage;
    SamePlaces(p, CompleteStep(p, i, res));
  }

  // ---------------------------------------------------------------- recycling

  lemma RecyclePlaces(p: Pipe)
    requires OneStage(p)
    ensures OneStage(RecycleStep(p))
  {
    var q := RecycleStep(p);
    forall x: nat ensures Places(q, x) == if x < |q.slots| then 1 else 0 {
      assert Places(p, x) == if x < |p.slots| then 1 else 0;
      assert multiset(q.free)[x] == multiset(p.done)[x] + multiset(p.free)[x];
    }
  }

  lemma RecycleStage(p: Pipe, q: Pipe, ids: seq<nat>, lo: nat, hi: nat)
    requires Stage(p, ids, lo, hi) && q == RecycleStep(p) && (forall i :: 0 <= i < |ids| ==> ids[i] !in p.done)
    ensures Stage(q, ids, lo, hi) && Unwritten(q.slots, ids) == Unwritten(p.slots, ids)
  {
    assert forall i :: 0 <= i < |ids| ==> Holds(p, p.slots[ids[i]]);
    UnwrittenSame(q.slots, p.slots, ids);
  }

  lemma RecycleFile(p: Pipe)
    requires OneStage(p) && FileOk(p)
    ensures FileOk(RecycleStep(p))
  {
    var q := RecycleStep(p);
    forall x: nat | Awaited(p, x) ensures Awaited(q, x) {
      var k :| k in p.ready + p.flying && Covers(p.slots, k, x);
      InOne(p, k);
      assert Covers(q.slots, k, x);
    }
  }

  lemma RecycleFilling(p: Pipe)
    requires OneStage(p) && Filling(p) && Clean(p) && Stages(p)
    ensures Filling(RecycleStep(p)) && Clean(RecycleStep(p))
  {
    hide Tiled;
    var q := RecycleStep(p);
    if p.cur.Some? { InOne(p, p.cur.value); }
    forall i | 0 <= i < |q.free|
      ensures q.free[i] < |q.slots| && q.slots[q.free[i]].seen == 0 && q.slots[q.free[i]].data == []
    {
      var n := |p.done|;
      if i < n {
        assert q.free[i] == Reversed(p.done)[i];
        assert q.free[i] in multiset(Reversed(p.done));
        InOne(p, q.free[i]);
      } else {
        assert q.free[i] == p.free[i - n];
        InList(p.free, i - n);
        InOne(p, p.free[i - n]);
      }
    }
  }

  lemma RecycleInv(p: Pipe)
    requires PipeInv(p)
    ensures PipeInv(RecycleStep(p))
  {
    RecyclePlaces(p);
    RecycleFile(p);
    RecycleFilling(p);
    RecycleOnce(p);
    RecycleReported(p);
    hide Once, Reported;
    forall i | 0 <= i < |p.ready| ensures p.ready[i] !in p.done { InList(p.ready, i); InOne(p, p.ready[i]); }
    forall i | 0 <= i < |p.flying| ensures p.flying[i] !in p.done { InList(p.flying, i); InOne(p, p.flying[i]); }
    hide OneStage, FileOk, Filling, Clean, Stage, Unwritten;
    RecycleStage(p, RecycleStep(p), p.ready, 0, 0);
    RecycleStage(p, RecycleStep(p), p.flying, 0, 1);
    NoneStaged(RecycleStep(p));
  }

  lemma RecycleReported(p: Pipe)
    requires OneStage(p) && Reported(p)
    ensures Reported(RecycleStep(p))
  {
    var q := RecycleStep(p);
    hide OneStage, Reversed;
    if p.lost + p.missed > 0 && !p.fatal {
      var i :| 0 <= i < |p.flying| && Failed(p.slots, p.flying[i]);
      FliesOnce(p, i);
      assert Failed(q.slots, q.flying[i]);
    }
  }

  lemma RecycleOnce(p: Pipe)
    requires OneStage(p) && Once(p)
    ensures Once(RecycleStep(p))
  {
    hide Once;
    forall a | a in p.ready + p.flying ensures a !in p.done { InOne(p, a); }
    SameWaits(p, RecycleStep(p));
  }

  lemma NoneStaged(p: Pipe)
    ensures Stage(p, [], 2, 2)
  {
  }

  // ---------------------------------------------------------------- every run

  lemma NextInv(p: Pipe, e: Event)
    requires PipeInv(p) && Bounded(p) && Enabled(p, e)
    ensures PipeInv(Next(p, e)) && Bounded(Next(p, e))
  {
    hide PipeInv;
    InvPlaces(p);
    match e {
      case Append(data, alloc) =>
        assert p.cur == None ==> p.free[0] in p.free + p.ready + p.flying + p.done;
        AppendInv(p, data, alloc);
      case Handoff => HandoffInv(p);
      case Submit => SubmitInv(p);
      case Abort =>
        assert p.ready[0] in p.free + p.ready + p.flying + p.done;
        AbortInv(p);
      case Complete(i, n) => CompleteInv(p, i, n);
      case Recycle => RecycleInv(p);
    }
    InvPlaces(Next(p, e));
  }

  lemma InvPlaces(p: Pipe)
    requires PipeInv(p)
    ensures Bounded(p)
  {
    InvBounded(p);
  }

  lemma {:induction false} RunInv(p: Pipe, events: seq<Event>)
    requires PipeInv(p) && IsRun(p, events)
    ensures PipeInv(After(p, events))
    decreases |events|
  {
    hide PipeInv, Next, Enabled;
    if events != [] {
      NextInv(p, events[0]);
      RunInv(Next(p, events[0]), events[1..]);
    }
  }

  lemma {:induction false} Identity(n: nat, x: nat)
    ensures multiset(seq(n, i => i))[x] == if x < n then 1 else 0
  {
    if n > 0 {
      assert seq(n, i => i) == seq(n - 1, i => i) + [n - 1];
      Identity(n - 1, x);
    }
  }

  lemma StartInv(n: nat)
    ensures PipeInv(NewPipe(n))
  {
    var p := NewPipe(n);
    forall x: nat ensures Places(p, x) == if x < |p.slots| then 1 else 0 { Identity(n, x); }
  }

  /** Nothing waits anywhere: what a drain reaches. */
  predicate Drained(p: Pipe) {
    p.ready == [] && p.flying == [] && (p.cur == None || (p.cur.value < |p.slots| && p.slots[p.cur.value].data == []))
  }

  /** Every submitted byte is in the file. */
  ghost predicate Whole(p: Pipe) {
    forall x: nat :: x < p.submitted ==> x in p.file
  }

  lemma DrainedFile(p: Pipe)
    requires PipeInv(p) && Drained(p)
    ensures p.offset == p.submitted <==> p.lost + p.missed == 0
    ensures p.lost + p.missed == 0 <==> Whole(p)
    ensures p.lost + p.missed > 0 ==> p.fatal
  {
    hide OneStage, Clean;
    assert Unwritten(p.slots, p.ready) == 0 && Unwritten(p.slots, p.flying) == 0;
    assert Handed(p) == p.submitted;
    if p.lost + p.missed == 0 {
      forall x: nat | x < p.submitted ensures x in p.file { assert !Awaited(p, x); }
    }
    if Whole(p) {
      assert p.file.Keys == Below(p.submitted);
      assert |p.file| == p.submitted;
    }
  }

  function Below(n: nat): (r: set<nat>)
    ensures |r| == n && forall x: nat :: x in r <==> x < n
  {
    if n == 0 then {} else Below(n - 1) + {n - 1}
  }

  /** THE AOF PIPELINE.  In every interleaving of the two threads each slot is in exactly one stage, at
      most sixteen batches are outstanding, and the slots handed off and the one being filled tile the
      submitted bytes.  What is in the file is the log's.  After a drain all of it is there, and the written
      offset is the submitted one, if and only if no write was short and none failed or was given up.  Bytes
      are never lost in silence: after a drain without the fatal flag the file is the log. */
  lemma EveryRun(n: nat, events: seq<Event>)
    requires IsRun(NewPipe(n), events)
    ensures var p := After(NewPipe(n), events);
      && OneStage(p) && p.outstanding == |p.ready| + |p.flying| <= MAX_OUTSTANDING
      && Tiled(p.handed, Handed(p)) && Filling(p)
      && (Drained(p) ==> (p.offset == p.submitted <==> p.lost + p.missed == 0))
      && (Drained(p) ==> (p.lost + p.missed == 0 <==> Whole(p)))
      && (Drained(p) && !p.fatal ==> Whole(p) && p.offset == p.submitted)
      && (forall x :: x in p.file ==> x < |p.log| && p.file[x] == p.log[x])
  {
    hide IsRun, After, OneStage;
    StartInv(n);
    RunInv(NewPipe(n), events);
    var p := After(NewPipe(n), events);
    if Drained(p) { DrainedFile(p); }
  }

  const ECANCELED := -125

  /** A SHORT WRITE.  The kernel takes one byte less than it was given and cancels the fsync.  The pipeline
      drains with the written offset behind the submitted one and the last byte missing: the fatal
      flag says so. */
  lemma ShortWrite(data: bytes)
    requires 0 < |data| <= SLOT_INIT
    ensures var events := [Append(data, true), Handoff, Submit, Complete(0, |data| - 1), Complete(0, ECANCELED)];
      && IsRun(NewPipe(1), events)
      && var p := After(NewPipe(1), events);
        Drained(p) && p.fatal && p.submitted == |data| && p.offset == |data| - 1 && |data| - 1 !in p.file
  {
    hide Put, Next, Enabled, Bounded, Drained, IsRun;
    var n := |data|;
    var e := [Append(data, true), Handoff, Submit, Complete(0, n - 1), Complete(0, ECANCELED)];
    var p1, p2, p3, p4, p5 := Filled(data), Off(data), Flown(data), Written(data), Synced(data);
    FirstAppend(data);
    ThenHandoff(data);
    ThenSubmit(data);
    ThenWritten(data);
    ThenSynced(data);
    ThenNothing(data);
    Listed(e);
    OneStep(p4, e[4], []);
    OneStep(p3, e[3], [e[4]]);
    OneStep(p2, e[2], [e[3], e[4]]);
    OneStep(p1, e[1], [e[2], e[3], e[4]]);
    OneStep(NewPipe(1), e[0], [e[1], e[2], e[3], e[4]]);
    PutAt(map[], 0, data[..n - 1], n - 1);
  }

  /** The pipeline of one slot after the first append of at most 64 KiB. */
  function Filled(data: bytes): Pipe {
    Pipe([Slot(data, SLOT_INIT, 0, 0, false, false)], Some(0), [], [], [], [], 0, |data|, 0, false,
         data, [], map[], 0, 0)
  }

  function Off(data: bytes): Pipe {
    Filled(data).(cur := None, ready := [0], outstanding := 1, handed := [(0, |data|)])
  }

  function Flown(data: bytes): Pipe {
    Off(data).(ready := [], flying := [0])
  }

  /** One byte short. */
  function Written(data: bytes): Pipe
    requires data != []
  {
    Flown(data).(slots := [Slot(data, SLOT_INIT, 0, 1, false, true)], offset := |data| - 1,
                 file := Put(map[], 0, data[..|data| - 1]), lost := 1)
  }

  function Synced(data: bytes): Pipe
    requires data != []
  {
    Written(data).(slots := [Slot(data, SLOT_INIT, 0, 2, false, true)], flying := [], done := [0], outstanding := 0,
                   fatal := true)
  }

  lemma ThenHandoff(data: bytes)
    requires data != []
    ensures Bounded(Filled(data)) && Enabled(Filled(data), Handoff) && Next(Filled(data), Handoff) == Off(data)
  {
    var h: seq<(nat, nat)> := [];
    assert [] + [0] == [0] && h + [(0, |data|)] == [(0, |data|)];
  }

  lemma ThenSubmit(data: bytes)
    ensures Bounded(Off(data)) && Enabled(Off(data), Submit) && Next(Off(data), Submit) == Flown(data)
  {
    assert [0][1..] == [] && [] + [0] == [0];
  }

  lemma ThenWritten(data: bytes)
    requires data != []
    ensures var e := Complete(0, |data| - 1);
      Bounded(Flown(data)) && Enabled(Flown(data), e) && Next(Flown(data), e) == Written(data)
  {
    hide Put;
    var cut := Slot(data, SLOT_INIT, 0, 1, false, true);
    assert Flown(data).slots[0 := cut] == [cut];
  }

  lemma ThenSynced(data: bytes)
    requires data != []
    ensures var p, e := Written(data), Complete(0, ECANCELED);
      Bounded(p) && Enabled(p, e) && Next(p, e) == Synced(data)
  {
    hide Put, SyncDone, WriteDone;
    ThenCancelled(data);
  }

  lemma ThenCancelled(data: bytes)
    requires data != []
    ensures SyncDone(Written(data), 0, ECANCELED) == Synced(data)
  {
    hide Put;
    var p := Written(data);
    assert p.slots[0 := Slot(data, SLOT_INIT, 0, 2, false, true)] == [Slot(data, SLOT_INIT, 0, 2, false, true)];
    assert p.flying[..0] + p.flying[1..] == [] && p.done + [0] == [0];
  }

  lemma ThenNothing(data: bytes)
    requires data != []
    ensures IsRun(Synced(data), []) && Drained(Synced(data)) && After(Synced(data), []) == Synced(data)
  {
    hide Put;
  }

  lemma Listed(e: seq<Event>)
    requires |e| == 5
    ensures [e[4]] + [] == [e[4]] && [e[3]] + [e[4]] == [e[3], e[4]] && [e[2]] + [e[3], e[4]] == [e[2], e[3], e[4]]
    ensures [e[1]] + [e[2], e[3], e[4]] == [e[1], e[2], e[3], e[4]] && [e[0]] + [e[1], e[2], e[3], e[4]] == e
  {
  }

  lemma OneStep(p: Pipe, e: Event, more: seq<Event>)
    requires Bounded(p) && Enabled(p, e) && IsRun(Next(p, e), more)
    ensures IsRun(p, [e] + more) && After(p, [e] + more) == After(Next(p, e), more)
  {
    hide Next, Enabled, Bounded;
    assert ([e] + more)[1..] == more;
  }

  lemma FirstAppend(data: bytes)
    requires 0 < |data| <= SLOT_INIT
    ensures Bounded(NewPipe(1)) && Enabled(NewPipe(1), Append(data, true))
    ensures Next(NewPipe(1), Append(data, true)) == Filled(data)
  {
    var p := NewPipe(1);
    assert p.slots == [Slot([], 0, 0, 0, false, false)] && p.free == [0];
    assert p.free[1..] == [] && [] + data == data;
    assert Grown(SLOT_INIT, |data|) == SLOT_INIT;
  }

  // ---------------------------------------------------------------- when an append is refused

  /** c can be doubled up to the largest slot. */
  predicate Doubles(c: nat)
    decreases if c < SLOT_MAX then SLOT_MAX - c else 0
  {
    c == SLOT_MAX || (0 < c < SLOT_MAX && Doubles(2 * c))
  }

  predicate CapOk(c: nat) {
    c == 0 || Doubles(c)
  }

  ghost predicate CapsOk(p: Pipe) {
    forall x :: 0 <= x < |p.slots| ==> CapOk(p.slots[x].cap)
  }

  lemma FirstCap()
    ensures Doubles(SLOT_INIT)
  {
    assert Doubles(SLOT_MAX) && Doubles(SLOT_MAX / 2) && Doubles(SLOT_MAX / 4) && Doubles(SLOT_MAX / 8);
    assert Doubles(SLOT_MAX / 16) && Doubles(SLOT_MAX / 32) && Doubles(SLOT_MAX / 64);
  }

  lemma {:induction false} GrownDoubles(c: nat, need: nat)
    requires Doubles(c)
    ensures Grown(c, need) <= SLOT_MAX <==> need <= SLOT_MAX
    ensures need <= SLOT_MAX ==> Doubles(Grown(c, need))
    decreases if c < SLOT_MAX then SLOT_MAX - c else 0
  {
    if c < need && c < SLOT_MAX {
      GrownDoubles(2 * c, need);
    }
  }

  /** REFUSALS.  With memory to be had, a command is refused exactly when it would take the slot being
      filled over four megabytes. */
  lemma RoomExact(s: Slot, n: nat)
    requires CapOk(s.cap) && |s.data| <= s.cap
    ensures Room(s, n, true) == None <==> |s.data| + n > SLOT_MAX
    ensures forall alloc :: Room(s, n, alloc).Some? ==> CapOk(Room(s, n, alloc).value)
  {
    FirstCap();
    GrownDoubles(if s.cap > 0 then s.cap else SLOT_INIT, |s.data| + n);
    CapLimit(s.cap);
  }

  lemma {:induction false} CapLimit(c: nat)
    requires CapOk(c)
    ensures c <= SLOT_MAX
  {
  }

  /** No slot holds more than its capacity, in any run. */
  ghost predicate Fits(p: Pipe) {
    CapsOk(p) && forall x :: 0 <= x < |p.slots| ==> |p.slots[x].data| <= p.slots[x].cap
  }

  lemma FitsCur(p: Pipe)
    requires Fits(p) && Bounded(p) && (p.cur.Some? || p.free != []) && (p.cur == None ==> p.free[0] < |p.slots|)
    ensures Fits(WithCur(p))
  {
    hide CapOk;
  }

  lemma RoomHolds(s: Slot, n: nat, alloc: bool)
    requires CapOk(s.cap) && |s.data| <= s.cap
    ensures match Room(s, n, alloc) case Some(c) => CapOk(c) && |s.data| + n <= c case None => true
  {
    RoomExact(s, n);
  }

  lemma FitsNext(p: Pipe, e: Event)
    requires Fits(p) && Bounded(p) && Enabled(p, e)
    ensures Fits(Next(p, e))
  {
    hide CapOk, Put, Room;
    match e {
      case Append(data, alloc) =>
        assert p.cur == None ==> p.free[0] in p.free + p.ready + p.flying + p.done;
        var q := WithCur(p);
        FitsCur(p);
        RoomHolds(q.slots[q.cur.value], |data|, alloc);
      case Abort => assert p.ready[0] in p.free + p.ready + p.flying + p.done;
      case Complete(_, _) =>
      case _ =>
    }
  }

  lemma {:induction false} FitsRun(p: Pipe, events: seq<Event>)
    requires Fits(p) && IsRun(p, events)
    ensures Fits(After(p, events))
    decreases |events|
  {
    hide Fits, Next, Enabled;
    if events != [] {
      FitsNext(p, events[0]);
      FitsRun(Next(p, events[0]), events[1..]);
    }
  }
}
