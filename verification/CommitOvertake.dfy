/** A run in which the gate starts at the second write of the session. */
module CommitOvertake {
  import opened Bytes
  import opened Framer
  import opened FramerAgreement
  import opened CommitGate
  import opened CommitSystem
  import opened CommitSafety
  import opened CommitTheorem

  lemma {:induction false} OneMore(s: Sys, events: seq<Event>, e: Event)
    requires IsRun(s, events) && Enabled(After(s, events), e)
    ensures IsRun(s, events + [e]) && After(s, events + [e]) == Next(After(s, events), e)
    decreases |events|
  {
    hide Enabled, Next;
    if events == [] {
      assert events + [e] == [e];
      assert [e][1..] == [];
      assert IsRun(Next(s, e), []);
    } else {
      assert (events + [e])[1..] == events[1..] + [e];
      OneMore(Next(s, events[0]), events[1..], e);
    }
  }

  /** A one-letter inline command. */
  lemma OneWord(side: Side, x: byte)
    requires 65 <= x <= 90
    ensures Cmds(side, [x, LF]) == [[x, LF]] && Tail(side, [x, LF]) == []
    ensures CleanRun([x, LF], 0)
  {
    var s := [x, LF];
    assert LfScan(s, 0) == 1;
    assert Line(s, 0, 1) == [x];
    assert !IsSpace([x][0]);
    assert HasWord(side, [x]) by { assert forall j :: 0 <= j <= 0 ==> [x][j] != 0; }
    assert HasWord(Proxy, [x]);
    assert Step(side, s, 0) == Take(2) && Step(Proxy, s, 0) == Take(2);
    assert Run(side, s, 2) == ([], 2);
    assert s[0..2] == s;
    assert Run(side, s, 0) == ([s] + [], 2);
    assert CleanRun(s, 2);
    assert FirstWord([x]) == 0;
  }

  const A: bytes := [65, LF]
  const B: bytes := [66, LF]

  /** The gate once both connections are baselined and A's record has been read. */
  function Met(cmdsA: seq<Cmd>, descsB: seq<Desc>): map<nat, Ctx> {
    map[1 := Ctx([], true, false, 2, 1, true, cmdsA, []),
        2 := Ctx([], true, false, 1, 0, false, [], descsB)]
  }

  const D1 := Desc(1, 1, Fnv(B), 2, true)
  const D2 := Desc(1, 2, Fnv(A), 2, true)

  /** The BASELINE of a connection that nothing is known about. */
  lemma ReadBaseline(ok: Deliver, g: Gate, c: nat)
    requires c !in g.ctxs && |g.ctxs| < MAX_CTX
    ensures OnBaseline(ok, g, c, 1) == g.(ctxs := g.ctxs[c := Ctx([], true, false, 1, 0, false, [], [])])
  {
    hide Run, FrameCtx, TryMatch, OnBaseline;
    var ctx := Ctx([], true, false, 1, 0, false, [], []);
    var g1 := WithCtx(g, c);
    var g2 := g1.(ctxs := g1.ctxs[c := ctx]);
    BaselineCases(ok, g, c, 1, []);
    assert g2 == g.(ctxs := g.ctxs[c := ctx]);
    NothingToDo(ok, g2, c);
  }

  /** A context without bytes, commands or descriptors. */
  lemma NothingToDo(ok: Deliver, g: Gate, c: nat)
    requires c in g.ctxs && g.ctxs[c] == Ctx([], true, false, 1, 0, false, [], [])
    ensures FrameCtx(ok, g, c) == g && TryMatch(ok, g, c) == g
  {
    NothingFramed(Proxy);
    hide Run, Cmds, Tail;
    assert FrameAll(ok, g, c, []) == g;
    assert g.ctxs[c := g.ctxs[c]] == g.ctxs;
  }

  lemma ReadBaselines(ok: Deliver)
    ensures OnBaseline(ok, OnBaseline(ok, EmptyGate(false), 1, 1), 2, 1)
      == EmptyGate(false).(ctxs := map[1 := Ctx([], true, false, 1, 0, false, [], []),
                                       2 := Ctx([], true, false, 1, 0, false, [], [])])
  {
    hide OnBaseline;
    ReadBaseline(ok, EmptyGate(false), 1);
    ReadBaseline(ok, EmptyGate(false).(ctxs := map[1 := Ctx([], true, false, 1, 0, false, [], [])]), 2);
  }

  lemma ReadRecord(ok: Deliver, g: Gate)
    requires g == EmptyGate(false).(ctxs := map[1 := Ctx([], true, false, 1, 0, false, [], []),
                                                2 := Ctx([], true, false, 1, 0, false, [], [])])
    ensures OnRecord(ok, g, 1, 1, A) == g.(ctxs := Met([Cmd(1, 0, A)], []), pending := 2)
  {
    OneWord(Proxy, 65);
    hide Run;
    assert g.ctxs[1].buf + A == A;
    var g2 := g.(ctxs := g.ctxs[1 := Ctx(A, true, false, 1, 1, true, [], [])]);
    assert OnRecord(ok, g, 1, 1, A) == FrameCtx(ok, g2, 1);
    var g3 := g2.(ctxs := g2.ctxs[1 := Ctx(A, true, false, 2, 1, true, [Cmd(1, 0, A)], [])], pending := 2);
    assert g2.ctxs[1].cmds + [Cmd(1, 0, A)] == [Cmd(1, 0, A)];
    assert Queue(g2, 1, A) == g3;
    assert FrameOne(ok, g2, 1, A) == TryMatch(ok, g3, 1) == g3;
    assert [A][1..] == [];
    assert FrameAll(ok, g3, 1, []) == g3;
    assert FrameAll(ok, g2, 1, [A]) == g3;
    assert FrameCtx(ok, g2, 1).ctxs == Met([Cmd(1, 0, A)], []);
  }

  lemma ReadDescs(g: Gate)
    requires g == EmptyGate(false).(ctxs := Met([Cmd(1, 0, A)], []), pending := 2)
    ensures var ok := (n: nat) => true;
      var r := OnDesc(ok, OnDesc(ok, g, 2, D1), 1, D2);
      !r.faulted && Accepted(r) == [Rec(2, A)]
  {
    hide Fnv;
    var ok := (n: nat) => true;
    var g0 := g.(ctxs := g.ctxs[2 := g.ctxs[2].(descs := [D1])]);
    assert g.ctxs[2].descs + [D1] == [D1];
    assert OnDesc(ok, g, 2, D1) == TryMatch(ok, g0, 2) == g0;
    assert g0.ctxs == Met([Cmd(1, 0, A)], [D1]);
    SecondFirst(g0);
  }

  lemma SecondFirst(g: Gate)
    requires g == EmptyGate(false).(ctxs := Met([Cmd(1, 0, A)], [D1]), pending := 2)
    ensures var ok := (n: nat) => true;
      var r := OnDesc(ok, g, 1, D2);
      !r.faulted && Accepted(r) == [Rec(2, A)]
  {
    hide Fnv;
    var ok := (n: nat) => true;
    var g2 := g.(ctxs := g.ctxs[1 := g.ctxs[1].(descs := [D2])]);
    assert g.ctxs[1].descs + [D2] == [D2];
    assert OnDesc(ok, g, 1, D2) == TryMatch(ok, g2, 1);
    var cmd := Cmd(1, 0, A);
    assert Matches(cmd, D2);
    assert [cmd][1..] == [] && [D2][1..] == [];
    var g3 := g2.(ctxs := g2.ctxs[1 := g2.ctxs[1].(cmds := [], descs := [])]);
    assert Insert([], Cmd(1, 2, A)) == [Cmd(1, 2, A)];
    assert TakePair(ok, g2, 1) == Drain(ok, g3.(ready := [Cmd(1, 2, A)]));
    DrainOne(ok, g3);
    var g5 := g3.(settled := [Emitted(Rec(2, A))], pending := 0, nextGlobal := 3);
    assert TryMatch(ok, g2, 1) == TryMatch(ok, g5, 1) == g5;
    assert Recs([Emitted(Rec(2, A))]) == [Rec(2, A)];
  }

  lemma DrainOne(ok: Deliver, g: Gate)
    requires ok(2) && g == EmptyGate(false).(ctxs := g.ctxs, pending := 2)
    ensures Drain(ok, g.(ready := [Cmd(1, 2, A)]))
      == g.(settled := [Emitted(Rec(2, A))], pending := 0, nextGlobal := 3)
  {
    var cmd := Cmd(1, 2, A);
    var g0 := g.(ready := [cmd], nextGlobal := 2);
    assert [cmd][1..] == [];
    var g1 := g.(nextGlobal := 2, settled := [Emitted(Rec(2, A))]);
    assert g.settled + [Emitted(Rec(2, A))] == [Emitted(Rec(2, A))];
    assert Emit(ok, g0.(ready := []), cmd) == (g1, true);
    assert Release(g1, 2) == g1.(pending := 0);
    var g2 := g1.(pending := 0, nextGlobal := 3);
    assert Drain(ok, g2) == g2;
  }

  /** OVERTAKING.  Two connections are received in one order and parsed in the other.  The proxy meets
      the second write first, takes its number as the start, and accepts it: the accepted writes are
      not a prefix of the log, although nothing has faulted. */
  lemma Overtaking() returns (events: seq<Event>)
    ensures IsRun(Start(0, false), events)
    ensures var s := After(Start(0, false), events);
      && !s.gate.faulted && s.log == [B, A]
      && Accepted(s.gate) == [Rec(2, A)]
      && !LogPrefix(Accepted(s.gate), s.base, s.log)
  {
    hide Fnv, OnRecord, OnBaseline, OnDesc, Run, CleanRun, Accepted, ParseStep, After, IsRun;
    var ok: Deliver := (n: nat) => true;
    var s := Start(0, false);
    events := MasterPart();
    var done := After(s, events);
    ReadBaselines(ok);
    OneMore(s, events, TakeMsg(ok));
    events, done := events + [TakeMsg(ok)], Next(done, TakeMsg(ok));
    OneMore(s, events, TakeMsg(ok));
    events, done := events + [TakeMsg(ok)], Next(done, TakeMsg(ok));
    ReadRecord(ok, done.gate);
    OneMore(s, events, TakeRecord(ok));
    events, done := events + [TakeRecord(ok)], Next(done, TakeRecord(ok));
    ReadDescs(done.gate);
    OneMore(s, events, TakeMsg(ok));
    events, done := events + [TakeMsg(ok)], Next(done, TakeMsg(ok));
    OneMore(s, events, TakeMsg(ok));
    events, done := events + [TakeMsg(ok)], Next(done, TakeMsg(ok));
    assert Accepted(done.gate)[0] == Rec(2, A);
  }

  /** A connection that has just sent one word is parsed. */
  lemma ParseWord(s: Sys, c: nat, x: bytes)
    requires c in s.conns && s.conns[c] == Conn(1, x, 0, x, 1, [], [])
    requires Cmds(Master, x) == [x] && Tail(Master, x) == []
    ensures Enabled(s, Parse(c, [true]))
    ensures var d := Desc(1, s.base + |s.log| + 1, Fnv(x), |x|, true);
      Next(s, Parse(c, [true])) ==
        s.(conns := s.conns[c := Conn(1, x, |x|, [], 1, [x], [d])], log := s.log + [x],
           batch := s.batch + [DescMsg(c, d)])
  {
    hide Fnv, Run;
    var d := Desc(1, s.base + |s.log| + 1, Fnv(x), |x|, true);
    assert s.conns[c].sent + [x] == [x] && s.conns[c].descs + [d] == [d];
    assert [x][1..] == [] && [true][1..] == [];
    var s1 := PublishOne(s, c, x, true);
    assert s1.conns[c] == Conn(1, x, 0, x, 1, [x], [d]);
    assert Publish(s1, c, [], []) == s1;
    assert Publish(s, c, [x], [true]) == s1;
    assert s1.conns[c := Conn(1, x, |x|, [], 1, [x], [d])] == s.conns[c := Conn(1, x, |x|, [], 1, [x], [d])];
  }

  const NEW_CONN := Conn(1, [], 0, [], 0, [], [])

  /** Both connections are begun, and each sends one word. */
  lemma Received() returns (plan: seq<Event>)
    ensures IsRun(Start(0, false), plan)
    ensures After(Start(0, false), plan) ==
      Start(0, false).(conns := map[1 := Conn(1, A, 0, A, 1, [], []), 2 := Conn(1, B, 0, B, 1, [], [])],
                       ring := [Packet(1, 1, A), Packet(2, 1, B)],
                       channel := [BaselineMsg(1, 1), BaselineMsg(2, 1)])
  {
    assert IsRun(Start(0, false), []) && After(Start(0, false), []) == Start(0, false);
    hide After, IsRun, Next, Enabled;
    var s0 := Start(0, false);
    OpenNew(s0, 1);
    OneMore(s0, [], Open(1, 1));
    plan := [Open(1, 1)];
    assert [] + plan == plan;
    assert After(s0, plan) == s0.(conns := map[1 := NEW_CONN], channel := [BaselineMsg(1, 1)]);
    OpenNew(After(s0, plan), 2);
    OneMore(s0, plan, Open(2, 1));
    plan := plan + [Open(2, 1)];
    assert After(s0, plan).conns == map[1 := NEW_CONN, 2 := NEW_CONN];
    plan := Words(plan);
  }

  lemma OpenNew(s: Sys, c: nat)
    requires c !in s.conns
    ensures Enabled(s, Open(c, 1))
    ensures Next(s, Open(c, 1)) == s.(conns := s.conns[c := NEW_CONN], channel := s.channel + [BaselineMsg(c, 1)])
  {
  }

  /** A new connection sends one word. */
  lemma RecvWord(s: Sys, c: nat, x: bytes)
    requires c in s.conns && s.conns[c] == NEW_CONN && x != [] && CleanRun(x, 0)
    ensures Enabled(s, Recv(c, x))
    ensures Next(s, Recv(c, x))
      == s.(conns := s.conns[c := Conn(1, x, 0, x, 1, [], [])], ring := s.ring + [Packet(c, 1, x)])
  {
    hide CleanRun, Run;
    assert NEW_CONN.stream + x == x && NEW_CONN.inbuf + x == x;
  }

  lemma Letters()
    ensures CleanRun(A, 0) && CleanRun(B, 0)
  {
    hide CleanRun, Run;
    OneWord(Master, 65);
    OneWord(Master, 66);
  }

  lemma Words(begun: seq<Event>) returns (plan: seq<Event>)
    requires IsRun(Start(0, false), begun)
    requires After(Start(0, false), begun) ==
      Start(0, false).(conns := map[1 := NEW_CONN, 2 := NEW_CONN],
                       channel := [BaselineMsg(1, 1), BaselineMsg(2, 1)])
    ensures IsRun(Start(0, false), plan)
    ensures After(Start(0, false), plan) ==
      Start(0, false).(conns := map[1 := Conn(1, A, 0, A, 1, [], []), 2 := Conn(1, B, 0, B, 1, [], [])],
                       ring := [Packet(1, 1, A), Packet(2, 1, B)],
                       channel := [BaselineMsg(1, 1), BaselineMsg(2, 1)])
  {
    hide CleanRun, After, IsRun, Next, Enabled;
    Letters();
    var s0 := Start(0, false);
    var s1 := After(s0, begun);
    RecvWord(s1, 1, A);
    OneMore(s0, begun, Recv(1, A));
    plan := begun + [Recv(1, A)];
    var s2 := After(s0, plan);
    assert s2.conns == map[1 := Conn(1, A, 0, A, 1, [], []), 2 := NEW_CONN];
    assert s2.ring == [Packet(1, 1, A)];
    RecvWord(s2, 2, B);
    OneMore(s0, plan, Recv(2, B));
    plan := plan + [Recv(2, B)];
    var s3 := After(s0, plan);
    assert s3.conns == map[1 := Conn(1, A, 0, A, 1, [], []), 2 := Conn(1, B, 0, B, 1, [], [])];
    assert s3.ring == [Packet(1, 1, A), Packet(2, 1, B)];
  }

  /** The master's half of the run. */
  lemma MasterPart() returns (plan: seq<Event>)
    ensures IsRun(Start(0, false), plan)
    ensures var s := After(Start(0, false), plan);
      && s.gate == EmptyGate(false) && s.log == [B, A] && s.base == 0
      && s.ring == [Packet(1, 1, A), Packet(2, 1, B)]
      && s.channel == [BaselineMsg(1, 1), BaselineMsg(2, 1), DescMsg(2, D1), DescMsg(1, D2)]
  {
    hide Fnv, Run, CleanRun, After, IsRun, Next, Enabled;
    OneWord(Master, 66);
    var s0 := Start(0, false);
    plan := Received();
    var s1 := After(s0, plan);
    ParseWord(s1, 2, B);
    OneMore(s0, plan, Parse(2, [true]));
    plan := plan + [Parse(2, [true])];
    var s2 := After(s0, plan);
    assert s2.log == [B];
    assert s2.batch == [DescMsg(2, D1)];
    plan := ThenFirst(plan);
  }

  lemma ThenFirst(begun: seq<Event>) returns (plan: seq<Event>)
    requires IsRun(Start(0, false), begun)
    requires var s := After(Start(0, false), begun);
      && s.gate == EmptyGate(false) && s.log == [B] && s.base == 0
      && s.ring == [Packet(1, 1, A), Packet(2, 1, B)]
      && s.channel == [BaselineMsg(1, 1), BaselineMsg(2, 1)] && s.batch == [DescMsg(2, D1)]
      && 1 in s.conns && s.conns[1] == Conn(1, A, 0, A, 1, [], [])
    ensures IsRun(Start(0, false), plan)
    ensures var s := After(Start(0, false), plan);
      && s.gate == EmptyGate(false) && s.log == [B, A] && s.base == 0
      && s.ring == [Packet(1, 1, A), Packet(2, 1, B)]
      && s.channel == [BaselineMsg(1, 1), BaselineMsg(2, 1), DescMsg(2, D1), DescMsg(1, D2)]
  {
    hide Fnv, Run, CleanRun, After, IsRun, Next, Enabled;
    var s0 := Start(0, false);
    var s1 := After(s0, begun);
    OneWord(Master, 65);
    ParseWord(s1, 1, A);
    OneMore(s0, begun, Parse(1, [true]));
    plan := begun + [Parse(1, [true])];
    var s2 := After(s0, plan);
    assert s2.log == [B, A];
    assert s2.batch == [DescMsg(2, D1), DescMsg(1, D2)];
    assert s2.channel == s1.channel;
    Flushed(s2);
    OneMore(s0, plan, Flush);
    plan := plan + [Flush];
  }

  lemma Flushed(s: Sys)
    ensures Enabled(s, Flush) && Next(s, Flush) == s.(channel := s.channel + s.batch, batch := [])
  {
  }
}
