/** The append-only file's group commit: slots that the main thread fills and hands off, the writer
    thread submits and reaps, and the main thread recycles, in any interleaving. */
module AofPipeline {
  import opened Bytes

  const MAX_OUTSTANDING := 16
  const SLOT_INIT := 64 * 1024
  const SLOT_MAX := 4 * 1024 * 1024

  /** `seen` counts the completions of a submitted slot: the write's, then the fsync's; `bad` says that one
      of them was an error.  `cut` is history: the write took less than it was given. */
  datatype Slot = Slot(data: bytes, cap: nat, base: nat, seen: nat, bad: bool, cut: bool)

  /** `log`, `handed`, `file`, `lost` and `missed` are history: every byte appended, the file offsets handed
      off, what the kernel has written, how many bytes short its writes were, and how many bytes were in
      slots whose write failed or could not be submitted. */
  datatype Pipe = Pipe(
    slots: seq<Slot>, cur: Option<nat>, free: seq<nat>, ready: seq<nat>, flying: seq<nat>, done: seq<nat>,
    outstanding: int, submitted: nat, offset: nat, fatal: bool,
    log: bytes, handed: seq<(nat, nat)>, file: map<nat, byte>, lost: nat, missed: nat)

  datatype Event =
    | Append(data: bytes, alloc: bool)
    | Handoff
    | Submit
    | Abort
    | Complete(i: nat, res: int)
    | Recycle

  function NewPipe(n: nat): Pipe {
    Pipe(seq(n, i => Slot([], 0, 0, 0, false, false)), None, seq(n, i => i), [], [], [], 0, 0, 0, false,
         [], [], map[], 0, 0)
  }

  // ---------------------------------------------------------------- steps

  /** The doubled capacity that holds `need` bytes. */
  function Grown(cap: nat, need: nat): (c: nat)
    requires cap > 0
    ensures c >= need && c >= cap
    decreases if cap < need then need - cap else 0
  {
    if cap < need then Grown(cap * 2, need) else cap
  }

  /** A slot to append to, if there is one. */
  function WithCur(p: Pipe): (r: Pipe)
    requires p.cur.Some? || p.free != []
    requires p.cur == None ==> p.free[0] < |p.slots|
    ensures r.cur.Some?
  {
    if p.cur.Some? then p
    else
      var id := p.free[0];
      p.(cur := Some(id), free := p.free[1..],
         slots := p.slots[id := p.slots[id].(data := [], base := p.submitted)])
  }

  /** Whether a slot can take n more bytes, and its capacity then. */
  function Room(s: Slot, n: nat, alloc: bool): Option<nat> {
    if |s.data| + n <= s.cap then Some(s.cap)
    else
      var c := Grown(if s.cap > 0 then s.cap else SLOT_INIT, |s.data| + n);
      if c > SLOT_MAX || !alloc then None else Some(c)
  }

  /** `persist_append_prepare`, asynchronous path. */
  function AppendStep(p: Pipe, data: bytes, alloc: bool): (Pipe, bool)
    requires p.cur.Some? || p.free != []
    requires p.cur == None ==> p.free[0] < |p.slots|
    requires p.cur.Some? ==> p.cur.value < |p.slots|
  {
    if p.fatal then (p, false)
    else
      var q := WithCur(p);
      var id := q.cur.value;
      match Room(q.slots[id], |data|, alloc)
      case None => (q, false)
      case Some(c) =>
        (q.(slots := q.slots[id := q.slots[id].(data := q.slots[id].data + data, cap := c)],
            submitted := q.submitted + |data|, log := q.log + data), true)
  }

  /** `handoff_current_slot`, once there is room among the outstanding batches. */
  function HandoffStep(p: Pipe): Pipe
    requires p.cur.Some? ==> p.cur.value < |p.slots|
  {
    if p.cur == None || p.slots[p.cur.value].data == [] then p
    else
      var id := p.cur.value;
      var s := p.slots[id];
      p.(ready := p.ready + [id], outstanding := p.outstanding + 1, cur := None,
         handed := p.handed + [(s.base, s.base + |s.data|)])
  }

  function SubmitStep(p: Pipe): Pipe
    requires p.ready != []
  {
    p.(ready := p.ready[1..], flying := p.flying + [p.ready[0]])
  }

  /** `slot_abort_inflight`: the slot could not be submitted. */
  function AbortStep(p: Pipe): Pipe
    requires p.ready != [] && p.ready[0] < |p.slots|
  {
    var id := p.ready[0];
    p.(ready := p.ready[1..], slots := p.slots[id := p.slots[id].(seen := 2)], done := p.done + [id],
       outstanding := p.outstanding - 1, missed := p.missed + |p.slots[id].data|, fatal := true)
  }

  /** The file with `data` written at `base`. */
  function Put(file: map<nat, byte>, base: nat, data: bytes): map<nat, byte>
    decreases |data|
  {
    if data == [] then file else Put(file[base := data[0]], base + 1, data[1..])
  }

  /** The bytes a write completed with. */
  function Taken(res: int): nat {
    if res > 0 then res else 0
  }

  function WriteDone(p: Pipe, id: nat, res: int): Pipe
    requires id < |p.slots| && res <= |p.slots[id].data|
  {
    var s := p.slots[id];
    p.(slots := p.slots[id := s.(seen := 1, bad := res < 0, cut := res < |s.data|)],
       offset := p.offset + Taken(res),
       file := Put(p.file, s.base, s.data[..Taken(res)]),
       lost := if res < 0 then p.lost else p.lost + |s.data| - res,
       missed := if res < 0 then p.missed + |s.data| else p.missed)
  }

  function SyncDone(p: Pipe, i: nat, res: int): Pipe
    requires i < |p.flying| && p.flying[i] < |p.slots|
  {
    var id := p.flying[i];
    var s := p.slots[id];
    p.(slots := p.slots[id := s.(seen := 2)], flying := p.flying[..i] + p.flying[i + 1..],
       done := p.done + [id], outstanding := p.outstanding - 1, fatal := p.fatal || s.bad || res < 0)
  }

  /** One completion of the i-th slot in flight, with its result: the write's, then the fsync's. */
  function CompleteStep(p: Pipe, i: nat, res: int): Pipe
    requires i < |p.flying| && p.flying[i] < |p.slots|
    requires p.slots[p.flying[i]].seen == 0 ==> res <= |p.slots[p.flying[i]].data|
  {
    if p.slots[p.flying[i]].seen == 0 then WriteDone(p, p.flying[i], res) else SyncDone(p, i, res)
  }

  /** A recycled slot keeps its buffer. */
  function Cleared(slots: seq<Slot>, ids: seq<nat>): (r: seq<Slot>)
    ensures |r| == |slots|
    ensures forall x :: 0 <= x < |slots| ==>
      r[x] == if x in ids then Slot([], slots[x].cap, 0, 0, false, false) else slots[x]
  {
    seq(|slots|, x requires 0 <= x < |slots| =>
      if x in ids then Slot([], slots[x].cap, 0, 0, false, false) else slots[x])
  }

  function Reversed(s: seq<nat>): (r: seq<nat>)
    ensures |r| == |s| && multiset(r) == multiset(s)
  {
    if s == [] then []
    else
      assert s == [s[0]] + s[1..];
      Reversed(s[1..]) + [s[0]]
  }

  /** `drain_completed`. */
  function RecycleStep(p: Pipe): Pipe {
    p.(slots := Cleared(p.slots, p.done), free := Reversed(p.done) + p.free, done := [])
  }

  /** What a slot's completion may answer: a write at most what it was given; and since the fsync is linked
      to the write, one that took less makes the kernel cancel the fsync. */
  predicate Answers(s: Slot, res: int) {
    if s.seen == 0 then res <= |s.data| else s.cut ==> res < 0
  }

  predicate Enabled(p: Pipe, e: Event) {
    match e
    case Append(_, _) => p.cur.Some? || p.free != []
    case Handoff => p.outstanding < MAX_OUTSTANDING
    case Submit => p.ready != []
    case Abort => p.ready != []
    case Complete(i, n) =>
      && i < |p.flying| && p.flying[i] < |p.slots|
      && Answers(p.slots[p.flying[i]], n)
    case Recycle => true
  }

  /** Slot numbers are in range. */
  predicate Bounded(p: Pipe) {
    && (p.cur.Some? ==> p.cur.value < |p.slots|)
    && (forall x :: x in p.free + p.ready + p.flying + p.done ==> x < |p.slots|)
  }

  function Next(p: Pipe, e: Event): Pipe
    requires Enabled(p, e) && Bounded(p)
  {
    match e
    case Append(data, alloc) =>
      assert p.cur == None ==> p.free[0] in p.free + p.ready + p.flying + p.done;
      AppendStep(p, data, alloc).0
    case Handoff => HandoffStep(p)
    case Submit => SubmitStep(p)
    case Abort =>
      assert p.ready[0] in p.free + p.ready + p.flying + p.done;
      AbortStep(p)
    case Complete(i, n) => CompleteStep(p, i, n)
    case Recycle => RecycleStep(p)
  }

  ghost predicate IsRun(p: Pipe, events: seq<Event>)
    decreases |events|
  {
    Bounded(p) && (events == [] || (Enabled(p, events[0]) && IsRun(Next(p, events[0]), events[1..])))
  }

  ghost function After(p: Pipe, events: seq<Event>): Pipe
    requires IsRun(p, events)
    decreases |events|
  {
    if events == [] then p else After(Next(p, events[0]), events[1..])
  }
}
