/** What the forwarding thread copies into a replica's send buffer: queued writes, catch-ups and
    refills, each labelled with master offsets and cut off below a watermark. */
module Forwarding {
  import opened Bytes

  const MAX_SEND_BUF := 4 * 1024 * 1024

  /** Master offsets [from, to). */
  datatype Range = Range(from: nat, to: nat)

  /** What became of bytes that left the buffer: the socket took them, or they were dropped with it. */
  datatype Piece = Took(data: bytes) | Lost(data: bytes)

  /** A replica's send state.  `handed`, `out` and `gone` are history: the offsets ever copied into the
      buffer, their bytes, and the pieces that have left it. */
  datatype Sender = Sender(buf: bytes, watermark: nat, stalled: bool, dropped: bool,
                           handed: seq<Range>, out: bytes, gone: seq<Piece>)

  datatype Event =
    | Enqueued(data: bytes, end: nat, room: bool)
    | Refilled(data: bytes, backlogEnd: nat, fullsync: bool, room: bool)
    | Sent(n: nat)
    | Broken
    | Purged

  const NEW_SENDER := Sender([], 0, false, false, [], [], [])

  /** `repl_fwd_append` of bytes labelled [start, end); `room` says whether the buffer can grow. */
  function Append(s: Sender, data: bytes, start: nat, end: nat, room: bool): Sender {
    if s.dropped || s.stalled || data == [] || end <= s.watermark then s
    else
      var covered := if start < s.watermark then s.watermark - start else 0;
      if covered >= |data| then s
      else
        var src := data[covered..];
        if |s.buf| + |src| > MAX_SEND_BUF || !room then s.(stalled := true)
        else s.(buf := s.buf + src, watermark := end,
                handed := s.handed + [Range(start + covered, end)], out := s.out + src)
  }

  /** `repl_fwd_refill`: `data` is what the backlog holds from the watermark on. */
  function Refill(s: Sender, data: bytes, backlogEnd: nat, fullsync: bool, room: bool): Sender {
    if s.dropped || fullsync then s
    else
      var s1 := if s.stalled && |s.buf| < MAX_SEND_BUF / 2 then s.(stalled := false) else s;
      if s1.stalled || |s1.buf| >= MAX_SEND_BUF || s1.watermark >= backlogEnd || data == [] then s1
      else Append(s1, data, s1.watermark, s1.watermark + |data|, room)
  }

  /** Where a queued node begins. */
  function NodeStart(data: bytes, end: nat): nat {
    if end > |data| then end - |data| else 0
  }

  function Step(s: Sender, e: Event): Sender {
    match e
    case Enqueued(data, end, room) =>
      if s.dropped then s else Append(s, data, NodeStart(data, end), end, room)
    case Refilled(data, backlogEnd, fullsync, room) => Refill(s, data, backlogEnd, fullsync, room)
    case Sent(n) => if n <= |s.buf| then s.(buf := s.buf[n..], gone := s.gone + [Took(s.buf[..n])]) else s
    case Broken => s.(buf := [], gone := s.gone + [Lost(s.buf)])
    case Purged => s.(dropped := true, buf := [], gone := s.gone + [Lost(s.buf)])
  }

  function Steps(s: Sender, events: seq<Event>): Sender
    decreases |events|
  {
    if events == [] then s else Steps(Step(s, events[0]), events[1..])
  }

  /** The bytes carry the labels they claim. */
  ghost predicate Honest(stream: bytes, s: Sender, e: Event) {
    match e
    case Enqueued(data, end, _) => |data| <= end <= |stream| && data == stream[end - |data|..end]
    case Refilled(data, _, _, _) =>
      s.watermark + |data| <= |stream| && data == stream[s.watermark..s.watermark + |data|]
    case _ => true
  }

  ghost predicate HonestRun(stream: bytes, s: Sender, events: seq<Event>)
    decreases |events|
  {
    events == [] || (Honest(stream, s, events[0]) && HonestRun(stream, Step(s, events[0]), events[1..]))
  }

  // ---------------------------------------------------------------- once only

  /** Non-empty ranges, each beyond the one before. */
  ghost predicate Increasing(h: seq<Range>) {
    && (forall i :: 0 <= i < |h| ==> h[i].from < h[i].to)
    && (forall i, j :: 0 <= i < j < |h| ==> h[i].to <= h[j].from)
  }

  function BytesOf(stream: bytes, h: seq<Range>): bytes {
    if h == [] then []
    else
      var r := h[|h| - 1];
      BytesOf(stream, h[..|h| - 1]) + if r.from <= r.to <= |stream| then stream[r.from..r.to] else []
  }

  /** The bytes of the pieces, in order. */
  function AllOf(gone: seq<Piece>): bytes {
    if gone == [] then [] else AllOf(gone[..|gone| - 1]) + gone[|gone| - 1].data
  }

  ghost predicate FwdInv(stream: bytes, s: Sender) {
    && Increasing(s.handed)
    && (s.handed != [] ==> s.handed[|s.handed| - 1].to == s.watermark <= |stream|)
    && s.out == BytesOf(stream, s.handed)
    && |s.buf| <= MAX_SEND_BUF
    && s.out == AllOf(s.gone) + s.buf
  }

  lemma PushRange(h: seq<Range>, r: Range)
    requires Increasing(h) && r.from < r.to && (h != [] ==> h[|h| - 1].to <= r.from)
    ensures Increasing(h + [r])
  {
    forall i | 0 <= i < |h| ensures h[i].to <= r.from {
      if i < |h| - 1 { assert h[i].to <= h[|h| - 1].from; }
    }
  }

  lemma PushBytes(stream: bytes, h: seq<Range>, r: Range)
    requires r.from <= r.to <= |stream|
    ensures BytesOf(stream, h + [r]) == BytesOf(stream, h) + stream[r.from..r.to]
  {
    assert (h + [r])[..|h|] == h;
  }

  lemma PushBuf(gone: bytes, buf: bytes, src: bytes)
    ensures gone + buf + src == gone + (buf + src)
  {
  }

  lemma AppendInv(stream: bytes, s: Sender, data: bytes, start: nat, room: bool)
    requires FwdInv(stream, s) && start + |data| <= |stream| && data == stream[start..start + |data|]
    ensures var s1 := Append(s, data, start, start + |data|, room);
      FwdInv(stream, s1) && s.handed <= s1.handed && s.watermark <= s1.watermark
  {
    hide Increasing, BytesOf;
    var end := start + |data|;
    var s1 := Append(s, data, start, end, room);
    if s1.handed != s.handed {
      var covered := if start < s.watermark then s.watermark - start else 0;
      var r := Range(start + covered, end);
      PushRange(s.handed, r);
      PushBytes(stream, s.handed, r);
      SliceOf(stream, start, end, covered);
      PushBuf(AllOf(s.gone), s.buf, data[covered..]);
    }
  }

  lemma SliceOf(stream: bytes, start: nat, end: nat, k: nat)
    requires start + k <= end <= |stream|
    ensures stream[start..end][k..] == stream[start + k..end]
  {
  }

  lemma StepInv(stream: bytes, s: Sender, e: Event)
    requires FwdInv(stream, s) && Honest(stream, s, e)
    ensures FwdInv(stream, Step(s, e)) && s.handed <= Step(s, e).handed && s.watermark <= Step(s, e).watermark
  {
    hide Append, Increasing, BytesOf;
    match e {
      case Enqueued(data, end, room) => hide FwdInv; AppendInv(stream, s, data, end - |data|, room);
      case Refilled(data, backlogEnd, fullsync, room) =>
        var s1 := if s.stalled && |s.buf| < MAX_SEND_BUF / 2 then s.(stalled := false) else s;
        assert FwdInv(stream, s1);
        hide FwdInv;
        AppendInv(stream, s1, data, s.watermark, room);
      case Sent(n) => hide FwdInv; SentInv(stream, s, n);
      case Broken => PieceGone(s.gone, s.buf, |s.buf|, Lost(s.buf));
      case Purged => PieceGone(s.gone, s.buf, |s.buf|, Lost(s.buf));
    }
  }

  /** The bytes are the stream's, from `start` to `end`. */
  ghost predicate Labelled(stream: bytes, data: bytes, start: nat, end: nat) {
    end == start + |data| <= |stream| && data == stream[start..end]
  }

  lemma LabelledInv(stream: bytes, s: Sender, data: bytes, start: nat, end: nat, room: bool)
    requires FwdInv(stream, s) && Labelled(stream, data, start, end)
    ensures FwdInv(stream, Append(s, data, start, end, room))
  {
    hide FwdInv, Append;
    AppendInv(stream, s, data, start, room);
  }

  /** No node is passed over in silence. */
  lemma AppendTakes(s: Sender, data: bytes, start: nat, end: nat, room: bool)
    ensures var t := Append(s, data, start, end, room);
      end == start + |data| && data != [] && !t.dropped && !t.stalled ==> end <= t.watermark
  {
  }

  lemma RefillInv(stream: bytes, s: Sender, data: bytes, backlogEnd: nat, fullsync: bool, room: bool)
    requires FwdInv(stream, s) && Honest(stream, s, Refilled(data, backlogEnd, fullsync, room))
    ensures FwdInv(stream, Refill(s, data, backlogEnd, fullsync, room))
  {
    hide Refill, FwdInv;
    StepInv(stream, s, Refilled(data, backlogEnd, fullsync, room));
  }

  /** A refill hands over all of its data or leaves the sender stalled, full or with nothing to be fed. */
  lemma RefillFeeds(s: Sender, data: bytes, backlogEnd: nat, fullsync: bool, room: bool)
    ensures var t := Refill(s, data, backlogEnd, fullsync, room);
      && (t.watermark == s.watermark + |data| || t.watermark == s.watermark)
      && (data != [] && t.watermark == s.watermark < backlogEnd && !s.dropped && !fullsync ==>
            t.stalled || |t.buf| >= MAX_SEND_BUF)
  {
  }

  lemma SentInv(stream: bytes, s: Sender, n: nat)
    requires FwdInv(stream, s)
    ensures FwdInv(stream, Step(s, Sent(n)))
  {
    hide Increasing, BytesOf;
    if n <= |s.buf| { PieceGone(s.gone, s.buf, n, Took(s.buf[..n])); }
  }

  /** A piece from the front of the buffer comes behind those that left before. */
  lemma PieceGone(gone: seq<Piece>, buf: bytes, n: nat, piece: Piece)
    requires n <= |buf| && piece.data == buf[..n]
    ensures AllOf(gone + [piece]) + buf[n..] == AllOf(gone) + buf
    ensures buf[..|buf|] == buf && buf[|buf|..] == []
  {
    assert (gone + [piece])[..|gone|] == gone;
    assert AllOf(gone) + buf[..n] + buf[n..] == AllOf(gone) + buf;
  }

  lemma {:induction false} StepsInv(stream: bytes, s: Sender, events: seq<Event>)
    requires FwdInv(stream, s) && HonestRun(stream, s, events)
    ensures FwdInv(stream, Steps(s, events))
    decreases |events|
  {
    if events != [] {
      StepInv(stream, s, events[0]);
      StepsInv(stream, Step(s, events[0]), events[1..]);
    }
  }

  /** ONCE ONLY.  Whatever mix of writes, catch-ups, replays and refills is queued, and whichever of them
      finds no memory, what is handed to the buffer are non-empty ranges of master offsets each beyond the
      one before, so none twice, with the stream's bytes; and the buffer keeps within its limit. */
  lemma OnceOnly(stream: bytes, events: seq<Event>)
    requires HonestRun(stream, NEW_SENDER, events)
    ensures var s := Steps(NEW_SENDER, events);
      && Increasing(s.handed) && s.out == BytesOf(stream, s.handed)
      && |s.buf| <= MAX_SEND_BUF
  {
    hide Steps, HonestRun, BytesOf, Increasing;
    NothingHanded(stream);
    StepsInv(stream, NEW_SENDER, events);
  }

  // ---------------------------------------------------------------- nothing vanishes

  /** What the socket took, in order. */
  function Received(gone: seq<Piece>): bytes {
    if gone == [] then []
    else
      var p := gone[|gone| - 1];
      Received(gone[..|gone| - 1]) + if p.Took? then p.data else []
  }

  function Losses(gone: seq<Piece>): nat {
    if gone == [] then 0 else Losses(gone[..|gone| - 1]) + if gone[|gone| - 1].Lost? then 1 else 0
  }

  /** How often the connection breaks or the replica is purged. */
  function Breaks(events: seq<Event>): nat {
    if events == [] then 0 else (if events[0].Broken? || events[0].Purged? then 1 else 0) + Breaks(events[1..])
  }

  lemma PieceAdded(gone: seq<Piece>, p: Piece)
    ensures Losses(gone + [p]) == Losses(gone) + if p.Lost? then 1 else 0
    ensures Received(gone + [p]) == Received(gone) + if p.Took? then p.data else []
  {
    assert (gone + [p])[..|gone|] == gone;
  }

  lemma StepLoses(s: Sender, e: Event)
    ensures Losses(Step(s, e).gone) == Losses(s.gone) + if e.Broken? || e.Purged? then 1 else 0
  {
    hide Losses;
    if e.Sent? && e.n <= |s.buf| { PieceAdded(s.gone, Took(s.buf[..e.n])); }
    PieceAdded(s.gone, Lost(s.buf));
  }

  lemma {:induction false} StepsLose(s: Sender, events: seq<Event>)
    ensures Losses(Steps(s, events).gone) == Losses(s.gone) + Breaks(events)
    decreases |events|
  {
    hide Step;
    if events != [] {
      StepLoses(s, events[0]);
      StepsLose(Step(s, events[0]), events[1..]);
    }
  }

  lemma {:induction false} AllReceived(gone: seq<Piece>)
    requires Losses(gone) == 0
    ensures Received(gone) == AllOf(gone)
  {
    if gone != [] { AllReceived(gone[..|gone| - 1]); }
  }

  /** NOTHING VANISHES.  In every run the pieces that left the buffer followed by what is in it are exactly the
      bytes handed over, in order.  One piece is lost with the buffer at each break of the connection and each
      purge, and nothing else ever is: without those, what the socket took followed by the buffer is the
      stream's bytes of the ranges handed over. */
  lemma NothingVanishes(stream: bytes, events: seq<Event>)
    requires HonestRun(stream, NEW_SENDER, events)
    ensures var s := Steps(NEW_SENDER, events);
      && AllOf(s.gone) + s.buf == BytesOf(stream, s.handed)
      && Losses(s.gone) == Breaks(events)
      && (Breaks(events) == 0 ==> Received(s.gone) + s.buf == BytesOf(stream, s.handed))
  {
    hide Steps, HonestRun, BytesOf, Increasing;
    NothingHanded(stream);
    StepsInv(stream, NEW_SENDER, events);
    StepsLose(NEW_SENDER, events);
    if Breaks(events) == 0 { AllReceived(Steps(NEW_SENDER, events).gone); }
  }

  lemma NothingHanded(stream: bytes)
    ensures FwdInv(stream, NEW_SENDER)
  {
  }

  /** A gap: a write came while the buffer was full, the backlog could not be copied once there was
      room again, and the next write is handed over without it. */
  lemma GapExists(stream: bytes)
    requires |stream| == 3 * MAX_SEND_BUF
    ensures var m := MAX_SEND_BUF;
      var events := [Enqueued(stream[..m], m, true), Enqueued(stream[m..m + 1], m + 1, true), Sent(m),
                     Refilled([], m + 1, false, true), Enqueued(stream[m + 1..m + 2], m + 2, true)];
      && HonestRun(stream, NEW_SENDER, events)
      && Steps(NEW_SENDER, events).handed == [Range(0, m), Range(m + 1, m + 2)]
  {
    var m := MAX_SEND_BUF;
    var e0, e1, e2 := Enqueued(stream[..m], m, true), Enqueued(stream[m..m + 1], m + 1, true), Sent(m);
    var e3, e4 := Refilled([], m + 1, false, true), Enqueued(stream[m + 1..m + 2], m + 2, true);
    var s1 := NEW_SENDER.(buf := stream[..m], watermark := m, handed := [Range(0, m)], out := stream[..m]);
    FirstFills(stream);
    var s2 := s1.(stalled := true);
    assert Step(s1, e1) == s2;
    assert stream[..m][m..] == [] && stream[..m][..m] == stream[..m];
    var s3 := s2.(buf := [], gone := [Took(stream[..m])]);
    assert Step(s2, e2) == s3;
    var s4 := s3.(stalled := false);
    assert Step(s3, e3) == s4;
    var s5 := Step(s4, e4);
    assert s5.handed == [Range(0, m), Range(m + 1, m + 2)];
    assert Honest(stream, NEW_SENDER, e0) && Honest(stream, s1, e1) && Honest(stream, s2, e2);
    assert Honest(stream, s3, e3) && Honest(stream, s4, e4);
    hide Step, Honest;
    FiveSteps(stream, NEW_SENDER, s1, s2, s3, s4, s5, e0, e1, e2, e3, e4);
  }

  lemma FirstFills(stream: bytes)
    requires |stream| == 3 * MAX_SEND_BUF
    ensures var m := MAX_SEND_BUF;
      Step(NEW_SENDER, Enqueued(stream[..m], m, true))
      == NEW_SENDER.(buf := stream[..m], watermark := m, handed := [Range(0, m)], out := stream[..m])
  {
    var d := stream[..MAX_SEND_BUF];
    assert d[0..] == d && [] + d == d;
    assert [] + [Range(0, MAX_SEND_BUF)] == [Range(0, MAX_SEND_BUF)];
  }

  lemma FiveSteps(stream: bytes, s0: Sender, s1: Sender, s2: Sender, s3: Sender, s4: Sender, s5: Sender,
                  e0: Event, e1: Event, e2: Event, e3: Event, e4: Event)
    requires Step(s0, e0) == s1 && Step(s1, e1) == s2 && Step(s2, e2) == s3 && Step(s3, e3) == s4 && Step(s4, e4) == s5
    requires Honest(stream, s0, e0) && Honest(stream, s1, e1) && Honest(stream, s2, e2)
    requires Honest(stream, s3, e3) && Honest(stream, s4, e4)
    ensures HonestRun(stream, s0, [e0, e1, e2, e3, e4]) && Steps(s0, [e0, e1, e2, e3, e4]) == s5
  {
    hide Step, Honest;
    OneStep(stream, s4, e4, []);
    OneStep(stream, s3, e3, [e4]);
    OneStep(stream, s2, e2, [e3, e4]);
    OneStep(stream, s1, e1, [e2, e3, e4]);
    OneStep(stream, s0, e0, [e1, e2, e3, e4]);
    assert [e4] == [e4] + [] && [e3] + [e4] == [e3, e4] && [e2] + [e3, e4] == [e2, e3, e4];
    assert [e1] + [e2, e3, e4] == [e1, e2, e3, e4] && [e0] + [e1, e2, e3, e4] == [e0, e1, e2, e3, e4];
    assert HonestRun(stream, s5, []) && Steps(s5, []) == s5;
  }

  lemma OneStep(stream: bytes, s: Sender, e: Event, more: seq<Event>)
    ensures HonestRun(stream, s, [e] + more) <==> Honest(stream, s, e) && HonestRun(stream, Step(s, e), more)
    ensures Steps(s, [e] + more) == Steps(Step(s, e), more)
  {
    assert ([e] + more)[1..] == more;
  }

  // ---------------------------------------------------------------- exactly when there is no gap

  /** Each range begins where the one before ended. */
  ghost predicate Chained(h: seq<Range>) {
    forall i, j :: 0 <= i < |h| && j == i + 1 && j < |h| ==> h[i].to == h[j].from
  }

  /** A queued node that will be handed over although it starts above the watermark, and is not the
      first. */
  predicate Jumps(s: Sender, e: Event) {
    && e.Enqueued? && s.handed != [] && !s.dropped && !s.stalled
    && e.data != [] && s.watermark + |e.data| < e.end && |s.buf| + |e.data| <= MAX_SEND_BUF && e.room
  }

  predicate NoJump(s: Sender, events: seq<Event>)
    decreases |events|
  {
    events == [] || (!Jumps(s, events[0]) && NoJump(Step(s, events[0]), events[1..]))
  }

  lemma StepChained(stream: bytes, s: Sender, e: Event)
    requires FwdInv(stream, s) && Honest(stream, s, e) && Chained(s.handed)
    ensures Chained(Step(s, e).handed) <==> !Jumps(s, e)
  {
    hide Increasing, BytesOf, Chained;
    var s1 := Step(s, e);
    if s1.handed != s.handed {
      var r := s1.handed[|s.handed|];
      assert s1.handed == s.handed + [r];
      ChainPush(s.handed, r);
    }
  }

  lemma ChainPush(h: seq<Range>, r: Range)
    requires Chained(h)
    ensures Chained(h + [r]) <==> (h != [] ==> h[|h| - 1].to == r.from)
  {
    var h' := h + [r];
    if h != [] {
      assert h'[|h| - 1] == h[|h| - 1] && h'[|h|] == r;
    }
  }

  lemma {:induction false} Unchains(stream: bytes, s: Sender, events: seq<Event>)
    requires FwdInv(stream, s) && HonestRun(stream, s, events) && !Chained(s.handed)
    ensures !Chained(Steps(s, events).handed)
    decreases |events|
  {
    hide FwdInv, Step, Honest;
    if events != [] {
      StepInv(stream, s, events[0]);
      StillUnchained(s.handed, Step(s, events[0]).handed);
      Unchains(stream, Step(s, events[0]), events[1..]);
    }
  }

  lemma StillUnchained(h: seq<Range>, h': seq<Range>)
    requires h <= h' && !Chained(h)
    ensures !Chained(h')
  {
    var i, j :| 0 <= i < |h| && j == i + 1 && j < |h| && h[i].to != h[j].from;
    assert h'[i] == h[i] && h'[j] == h[j];
  }

  /** NO GAP, EXACTLY WHEN.  The handed ranges follow on from each other if and only if no node that
      starts above the watermark meets a sender that takes it. */
  lemma {:induction false} GaplessExactly(stream: bytes, s: Sender, events: seq<Event>)
    requires FwdInv(stream, s) && HonestRun(stream, s, events) && Chained(s.handed)
    ensures Chained(Steps(s, events).handed) <==> NoJump(s, events)
    decreases |events|
  {
    hide FwdInv, Step, Honest, Jumps, Chained;
    if events != [] {
      StepInv(stream, s, events[0]);
      StepChained(stream, s, events[0]);
      if Jumps(s, events[0]) {
        Unchains(stream, Step(s, events[0]), events[1..]);
      } else {
        GaplessExactly(stream, Step(s, events[0]), events[1..]);
      }
    }
  }

  // ---------------------------------------------------------------- where gaps come from

  /** The highest offset queued so far, which was q before. */
  function Queued(q: nat, e: Event): nat {
    if e.Enqueued? && e.end > q then e.end else q
  }

  /** Nodes are queued without holes, and a refill brings all the backlog has or nothing. */
  predicate Follows(s: Sender, q: nat, e: Event) {
    match e
    case Enqueued(data, end, _) => |data| <= end <= q + |data|
    case Refilled(data, backlogEnd, _, _) => q <= backlogEnd && (data == [] || s.watermark + |data| == backlogEnd)
    case _ => true
  }

  predicate FollowRun(s: Sender, q: nat, events: seq<Event>)
    decreases |events|
  {
    events == [] || (Follows(s, q, events[0]) && FollowRun(Step(s, events[0]), Queued(q, events[0]), events[1..]))
  }

  /** The sender has all that was queued, or takes nothing. */
  predicate Tight(s: Sender, q: nat) {
    s.dropped || s.stalled || q <= s.watermark
  }

  /** An empty refill that ends the stall of a sender which is behind. */
  predicate EmptyEnd(s: Sender, q: nat, e: Event) {
    && e.Refilled? && e.data == [] && !e.fullsync
    && !s.dropped && s.stalled && |s.buf| < MAX_SEND_BUF / 2 && s.watermark < q
  }

  predicate NoEmptyEnd(s: Sender, q: nat, events: seq<Event>)
    decreases |events|
  {
    events == [] || (!EmptyEnd(s, q, events[0]) && NoEmptyEnd(Step(s, events[0]), Queued(q, events[0]), events[1..]))
  }

  lemma StepTight(s: Sender, q: nat, e: Event)
    requires Tight(s, q) && Follows(s, q, e)
    ensures Tight(Step(s, e), Queued(q, e)) <==> !EmptyEnd(s, q, e)
    ensures !Jumps(s, e)
  {
    match e {
      case Enqueued(data, end, room) =>
      case Refilled(data, backlogEnd, fullsync, room) =>
      case _ =>
    }
  }

  /** A GAP HAS ONE CAUSE.  When nodes are queued without holes and a refill brings all or nothing, a run
      in which no empty refill ends a stall leaves no gap. */
  lemma {:induction false} GapCause(stream: bytes, s: Sender, q: nat, events: seq<Event>)
    requires FwdInv(stream, s) && HonestRun(stream, s, events) && Chained(s.handed)
    requires Tight(s, q) && FollowRun(s, q, events) && NoEmptyEnd(s, q, events)
    ensures Chained(Steps(s, events).handed)
  {
    hide FwdInv, HonestRun, Chained, FollowRun, NoEmptyEnd;
    NeverJumps(s, q, events);
    GaplessExactly(stream, s, events);
  }

  lemma {:induction false} NeverJumps(s: Sender, q: nat, events: seq<Event>)
    requires Tight(s, q) && FollowRun(s, q, events) && NoEmptyEnd(s, q, events)
    ensures NoJump(s, events)
    decreases |events|
  {
    hide Tight, Step, Follows, EmptyEnd, Jumps, Queued;
    if events != [] {
      StepTight(s, q, events[0]);
      NeverJumps(Step(s, events[0]), Queued(q, events[0]), events[1..]);
    }
  }

  /** AND IT IS ENOUGH.  The next write, if there is room for it, leaves a gap exactly when what came
      before it was an empty refill that ended a stall. */
  lemma NextWriteGap(stream: bytes, s: Sender, q: nat, e: Event, write: Event)
    requires FwdInv(stream, s) && Honest(stream, s, e) && Honest(stream, Step(s, e), write)
    requires Chained(s.handed) && s.handed != [] && Tight(s, q) && Follows(s, q, e)
    requires write.Enqueued? && write.data != [] && write.end == Queued(q, e) + |write.data| && write.room
    requires |Step(s, e).buf| + |write.data| <= MAX_SEND_BUF
    ensures Chained(Step(Step(s, e), write).handed) <==> !EmptyEnd(s, q, e)
  {
    StepInv(stream, s, e);
    StepTight(s, q, e);
    StepChained(stream, s, e);
    StepChained(stream, Step(s, e), write);
    hide FwdInv, Honest, Chained;
    if EmptyEnd(s, q, e) { assert Step(s, e) == s.(stalled := false); }
  }

  // ---------------------------------------------------------------- far behind

  /** A refill brings the whole rest of the backlog, which never ends before b. */
  predicate WholeRest(s: Sender, e: Event, b: nat) {
    e.Refilled? ==> b <= e.backlogEnd && s.watermark + |e.data| == e.backlogEnd
  }

  predicate WholeRests(s: Sender, events: seq<Event>, b: nat)
    decreases |events|
  {
    events == [] || (WholeRest(s, events[0], b) && WholeRests(Step(s, events[0]), events[1..], b))
  }

  /** What is still unsent after a step in which nothing is added. */
  function Unsent(n: nat, e: Event): nat {
    match e
    case Sent(k) => if k <= n then n - k else n
    case Broken => 0
    case Purged => 0
    case _ => n
  }

  /** The buffer is below half and the whole rest fits beside what is unsent. */
  predicate Serves(n: nat, from: nat, gone: bool, e: Event) {
    && e.Refilled? && !gone && !e.fullsync && e.room
    && n < MAX_SEND_BUF / 2 && n + (e.backlogEnd - from) <= MAX_SEND_BUF
  }

  /** One of the refills does, counting only what the socket takes. */
  predicate SomeServes(n: nat, from: nat, gone: bool, events: seq<Event>)
    decreases |events|
  {
    events != [] &&
    (Serves(n, from, gone, events[0]) ||
     SomeServes(Unsent(n, events[0]), from, gone || events[0].Purged?, events[1..]))
  }

  lemma HandedGrows(s: Sender, e: Event)
    ensures |Step(s, e).handed| >= |s.handed|
  {
  }

  lemma {:induction false} HandedKept(s: Sender, events: seq<Event>)
    ensures |Steps(s, events).handed| >= |s.handed|
    decreases |events|
  {
    hide Step;
    if events != [] {
      HandedGrows(s, events[0]);
      HandedKept(Step(s, events[0]), events[1..]);
    }
  }

  /** A stalled replica behind b: a refill that serves it hands something over, any other step leaves it
      where it is. */
  lemma StalledStep(s: Sender, e: Event, b: nat)
    requires s.stalled && s.watermark < b && WholeRest(s, e, b)
    ensures var t := Step(s, e);
      if Serves(|s.buf|, s.watermark, s.dropped, e) then |t.handed| > |s.handed|
      else
        && t.handed == s.handed && t.watermark == s.watermark && t.stalled
        && |t.buf| == Unsent(|s.buf|, e) && t.dropped == (s.dropped || e.Purged?)
  {
  }

  /** FED EXACTLY WHEN THE WHOLE REST FITS.  In every run in which refills offer all that the backlog holds, a
      replica that stalled is handed something if and only if at one of the refills its buffer, emptied by
      the socket alone, was below half and the whole rest fitted beside what was unsent. */
  lemma {:induction false} FedExactly(s: Sender, events: seq<Event>, b: nat)
    requires s.stalled && s.watermark < b && WholeRests(s, events, b)
    ensures |Steps(s, events).handed| > |s.handed| <==> SomeServes(|s.buf|, s.watermark, s.dropped, events)
    ensures !SomeServes(|s.buf|, s.watermark, s.dropped, events) ==>
      var t := Steps(s, events); t.handed == s.handed && t.watermark == s.watermark && t.stalled
    decreases |events|
  {
    if events != [] {
      StalledStep(s, events[0], b);
      hide Step, WholeRest, Serves, Unsent;
      if Serves(|s.buf|, s.watermark, s.dropped, events[0]) {
        HandedKept(Step(s, events[0]), events[1..]);
      } else {
        FedExactly(Step(s, events[0]), events[1..], b);
      }
    }
  }

  /** NEVER FED AGAIN.  So a replica that stalled more than the buffer's size behind the backlog's end is given
      nothing more, however often it is refilled and however empty its buffer. */
  lemma NeverFed(s: Sender, events: seq<Event>, b: nat)
    requires s.stalled && s.watermark + MAX_SEND_BUF < b && WholeRests(s, events, b)
    ensures var t := Steps(s, events); t.handed == s.handed && t.watermark == s.watermark && t.stalled
  {
    FedExactly(s, events, b);
    hide Step, Steps;
    NoneServes(s, |s.buf|, s.dropped, events, s.watermark, b);
  }

  lemma {:induction false} NoneServes(s: Sender, n: nat, gone: bool, events: seq<Event>, from: nat, b: nat)
    requires from + MAX_SEND_BUF < b && WholeRests(s, events, b)
    ensures !SomeServes(n, from, gone, events)
    decreases |events|
  {
    hide Step;
    if events != [] {
      NoneServes(Step(s, events[0]), Unsent(n, events[0]), gone || events[0].Purged?, events[1..], from, b);
    }
  }

  // ---------------------------------------------------------------- the sender object

  class SendState {
    var buf: bytes
    var watermark: nat
    var stalled: bool
    var dropped: bool
    ghost var handed: seq<Range>
    ghost var out: bytes
    ghost var gone: seq<Piece>

    ghost function State(): Sender
      reads this
    {
      Sender(buf, watermark, stalled, dropped, handed, out, gone)
    }

    constructor ()
      ensures State() == NEW_SENDER
    {
      buf, watermark, stalled, dropped, handed, out, gone := [], 0, false, false, [], [], [];
    }

    /** What it holds are bytes of the master's stream, in order, none twice. */
    ghost predicate Sends(stream: bytes)
      reads this
    {
      FwdInv(stream, State())
    }

    /** The replica is to be fed, something of the node is above the watermark, and that fits. */
    ghost predicate Takes(start: nat, end: nat, room: bool)
      reads this
    {
      var from := if start < watermark then watermark else start;
      !dropped && !stalled && from < end && |buf| + (end - from) <= MAX_SEND_BUF && room
    }

    /** The node's bytes above the watermark are added; a node that is not wholly taken, by now or before,
        leaves the sender stalled or finds it so. */
    method Push(data: bytes, start: nat, end: nat, room: bool, ghost stream: bytes) returns (added: bool)
      modifies this
      ensures State() == Append(old(State()), data, start, end, room)
      ensures added <==> |handed| > old(|handed|)
      ensures end == start + |data| ==> (added <==> old(Takes(start, end, room)))
      ensures end == start + |data| && data != [] && !dropped && !stalled ==> end <= watermark
      ensures old(Sends(stream)) && Labelled(stream, data, start, end) ==> Sends(stream)
    {
      hide FwdInv, Labelled;
      if Sends(stream) && Labelled(stream, data, start, end) {
        LabelledInv(stream, State(), data, start, end, room);
      }
      AppendTakes(State(), data, start, end, room);
      if dropped || stalled || |data| == 0 { return false; }
      if end <= watermark { return false; }
      var covered := if start < watermark then watermark - start else 0;
      if covered >= |data| { return false; }
      var n := |data| - covered;
      if |buf| + n > MAX_SEND_BUF {
        stalled := true;
        return false;
      }
      if !room {
        stalled := true;
        return false;
      }
      buf := buf + data[covered..];
      handed, out := handed + [Range(start + covered, end)], out + data[covered..];
      if end > watermark { watermark := end; }
      return true;
    }

    /** `repl_fwd_drain_send`: the socket took n bytes; what is left is the end of what was handed over. */
    method Drained(n: nat, ghost stream: bytes)
      requires n <= |buf|
      modifies this
      ensures State() == Step(old(State()), Sent(n))
      ensures old(Sends(stream)) ==> Sends(stream)
    {
      if Sends(stream) { SentInv(stream, State(), n); }
      hide FwdInv;
      gone := gone + [Took(buf[..n])];
      if n > 0 { buf := buf[n..]; }
    }

    /** Afterwards the sender has all of `data`, or is stalled, or has no business to be fed. */
    method TopUp(data: bytes, backlogEnd: nat, fullsync: bool, room: bool, ghost stream: bytes)
      modifies this
      ensures State() == Refill(old(State()), data, backlogEnd, fullsync, room)
      ensures watermark == old(watermark) + |data| || watermark == old(watermark)
      ensures data != [] && watermark == old(watermark) < backlogEnd && !dropped && !fullsync ==>
        stalled || |buf| >= MAX_SEND_BUF
      ensures old(Sends(stream)) && Honest(stream, old(State()), Refilled(data, backlogEnd, fullsync, room)) ==>
        Sends(stream)
    {
      hide FwdInv, Honest, Append;
      if Sends(stream) && Honest(stream, State(), Refilled(data, backlogEnd, fullsync, room)) {
        RefillInv(stream, State(), data, backlogEnd, fullsync, room);
      }
      RefillFeeds(State(), data, backlogEnd, fullsync, room);
      if dropped || fullsync { return; }
      if stalled && |buf| < MAX_SEND_BUF / 2 { stalled := false; }
      if stalled { return; }
      if |buf| >= MAX_SEND_BUF { return; }
      if watermark >= backlogEnd { return; }
      if |data| == 0 { return; }
      var _ := Push(data, watermark, watermark + |data|, room, stream);
    }

    /** `repl_fwd_process_one`: a queued node, then what the socket takes, then a refill. */
    method ProcessOne(data: bytes, end: nat, taken: nat, more: bytes, backlogEnd: nat, fullsync: bool, room: bool,
                      ghost stream: bytes)
      modifies this
      requires taken <= |Step(State(), Enqueued(data, end, room)).buf|
      ensures State() == if old(dropped) then old(State())
        else Steps(old(State()), [Enqueued(data, end, room), Sent(taken), Refilled(more, backlogEnd, fullsync, room)])
    {
      hide FwdInv;
      if dropped { return; }
      ghost var s0 := State();
      ghost var e0, e1, e2 := Enqueued(data, end, room), Sent(taken), Refilled(more, backlogEnd, fullsync, room);
      var _ := Push(data, NodeStart(data, end), end, room, stream);
      assert State() == Step(s0, e0);
      Drained(taken, stream);
      TopUp(more, backlogEnd, fullsync, room, stream);
      assert [e0, e1, e2][1..] == [e1, e2] && [e1, e2][1..] == [e2] && [e2][1..] == [];
      ghost var s1, s2 := Step(s0, e0), Step(Step(s0, e0), e1);
      assert Steps(s2, [e2]) == Steps(Step(s2, e2), []) == State();
      assert Steps(s0, [e0, e1, e2]) == Steps(s1, [e1, e2]) == Steps(s2, [e2]);
    }
  }
}
