/** One session after another: the proxy drops what it holds, the master announces the connections that stay,
    and what is accepted from then on belongs to the new session. */
module CommitSessions {
  import opened Bytes
  import opened Framer
  import opened CommitGate
  import opened CommitClosed
  import opened CommitSystem
  import opened CommitRuns
  import opened CommitTheorem
  import opened CommitFaults

  /** A connection that stays: the number its BASELINE announces, and the receives counted on it so far. */
  datatype Join = Join(cookie: nat, first: nat, recvs: nat)

  /** `repl_commit_baseline` for one connection of the registry: it is at the beginning of a command. */
  function Joined(s: Sys, j: Join): Sys {
    s.(conns := s.conns[j.cookie := Conn(j.first, [], 0, [], j.recvs, [], [])],
       channel := s.channel + [BaselineMsg(j.cookie, j.first)])
  }

  function JoinAll(s: Sys, joins: seq<Join>): Sys
    decreases |joins|
  {
    if joins == [] then s else JoinAll(Joined(s, joins[0]), joins[1..])
  }

  /** The connections that `commit_send_all_baselines` goes on with have an empty input buffer; the others are
      shut down. */
  predicate MayJoin(s: Sys, joins: seq<Join>) {
    && (forall i :: 0 <= i < |joins| ==>
          joins[i].cookie in s.conns && s.conns[joins[i].cookie].inbuf == [] && joins[i].first > 0)
    && (forall i, j :: 0 <= i < j < |joins| ==> joins[i].cookie != joins[j].cookie)
  }

  /** A session ends, its batch forgotten; capture is closed, so the proxy empties the ring and purges the
      gate; another session begins behind it.  `global_seq` goes on. */
  function NewSession(s: Sys, joins: seq<Join>): Sys {
    JoinAll(Sys(map[], s.base + |s.log|, [], [], [], [], Purge(s.gate)), joins)
  }

  datatype Session = Session(events: seq<Event>, joins: seq<Join>)

  ghost predicate IsLife(s: Sys, life: seq<Session>)
    decreases |life|
  {
    life == [] ||
    (&& IsRun(s, life[0].events)
     && var t := After(s, life[0].events);
       MayJoin(t, life[0].joins) && IsLife(NewSession(t, life[0].joins), life[1..]))
  }

  /** Where the sessions of a life lead. */
  ghost function Lived(s: Sys, life: seq<Session>): Sys
    requires IsLife(s, life)
    decreases |life|
  {
    if life == [] then s
    else Lived(NewSession(After(s, life[0].events), life[0].joins), life[1..])
  }

  // ---------------------------------------------------------------- a session begins

  lemma RecvsInv(s: Sys, c: nat, n: nat)
    requires FInv(s) && c in s.conns
    ensures FInv(s.(conns := s.conns[c := s.conns[c].(recvs := n)]))
  {
    hide ConnOk, ProxyInv, RingBytes, WireDescs, Waiting, IsSuffix, Front, LogSegment, Accepted, Copies, InWire;
    var s1 := s.(conns := s.conns[c := s.conns[c].(recvs := n)]);
    assert Wire(s1) == Wire(s);
    assert ConnOk(s1.conns[c], s.base, s.log) by { assert ConnInv(s, c); RecvsOk(s.conns[c], n, s.base, s.log); }
    forall k | k in s1.conns ensures ConnInv(s1, k) { assert ConnInv(s, k); }
    assert MasterInv(s1);
    KeepProxy(s, s1);
  }

  lemma RecvsOk(conn: Conn, n: nat, base: nat, log: seq<bytes>)
    requires ConnOk(conn, base, log)
    ensures ConnOk(conn.(recvs := n), base, log)
  {
  }

  lemma JoinedInv(s: Sys, j: Join)
    requires FInv(s) && j.cookie !in s.conns && j.first > 0
    ensures FInv(Joined(s, j))
  {
    hide FInv;
    var e := Open(j.cookie, j.first);
    StepFInv(s, e);
    RecvsInv(Next(s, e), j.cookie, j.recvs);
    var conn := Conn(j.first, [], 0, [], 0, [], []);
    assert s.conns[j.cookie := conn][j.cookie := conn.(recvs := j.recvs)] == Joined(s, j).conns;
  }

  lemma {:induction false} JoinAllInv(s: Sys, joins: seq<Join>)
    requires FInv(s)
    requires forall i :: 0 <= i < |joins| ==> joins[i].cookie !in s.conns && joins[i].first > 0
    requires forall i, j :: 0 <= i < j < |joins| ==> joins[i].cookie != joins[j].cookie
    ensures FInv(JoinAll(s, joins)) && JoinAll(s, joins).base == s.base
    decreases |joins|
  {
    hide FInv;
    if joins != [] {
      JoinedInv(s, joins[0]);
      JoinAllInv(Joined(s, joins[0]), joins[1..]);
    }
  }

  lemma NewSessionInv(s: Sys, joins: seq<Join>)
    requires MayJoin(s, joins)
    ensures FInv(NewSession(s, joins)) && NewSession(s, joins).base == s.base + |s.log|
  {
    hide FInv;
    StartFInv(s.base + |s.log|, s.gate.buffering);
    JoinAllInv(Start(s.base + |s.log|, s.gate.buffering), joins);
  }

  // ---------------------------------------------------------------- every life

  lemma {:induction false} BaseGrows(s: Sys, events: seq<Event>)
    requires IsRun(s, events)
    ensures After(s, events).base == s.base && |After(s, events).log| >= |s.log|
    decreases |events|
  {
    if events != [] {
      BaseStep(s, events[0]);
      hide Next, Enabled;
      BaseGrows(Next(s, events[0]), events[1..]);
    }
  }

  lemma BaseStep(s: Sys, e: Event)
    requires Enabled(s, e)
    ensures Next(s, e).base == s.base && |Next(s, e).log| >= |s.log|
  {
    hide OnRecord, OnBaseline, OnDesc, OnIgnore, OnForget, OnResume, Publish;
    if e.Parse? { PublishBase(s, e.cookie, Cmds(Master, s.conns[e.cookie].inbuf), e.writes); }
  }

  lemma {:induction false} PublishBase(s: Sys, c: nat, cmds: seq<bytes>, writes: seq<bool>)
    requires c in s.conns && |cmds| == |writes|
    ensures Publish(s, c, cmds, writes).base == s.base && |Publish(s, c, cmds, writes).log| >= |s.log|
    decreases |cmds|
  {
    if cmds != [] { PublishBase(PublishOne(s, c, cmds[0], writes[0]), c, cmds[1..], writes[1..]); }
  }

  lemma {:induction false} LifeInv(s: Sys, life: seq<Session>)
    requires FInv(s) && IsLife(s, life)
    ensures FInv(Lived(s, life)) && Lived(s, life).base >= s.base
    decreases |life|
  {
    hide FInv, NewSession, MayJoin;
    if life != [] {
      var t := After(s, life[0].events);
      BaseGrows(s, life[0].events);
      NewSessionInv(t, life[0].joins);
      LifeInv(NewSession(t, life[0].joins), life[1..]);
    }
  }

  /** EVERY SESSION.  However many sessions came before, with whatever faults, in every state of the present
      one all that the gate has accepted is a contiguous piece of the present session's log. */
  lemma EverySession(base: nat, buffering: bool, life: seq<Session>, events: seq<Event>)
    requires IsLife(Start(base, buffering), life) && IsRun(Lived(Start(base, buffering), life), events)
    ensures var s := After(Lived(Start(base, buffering), life), events);
      LogSegment(Accepted(s.gate), s.base, s.log)
  {
    hide FInv, Accepted, LogSegment;
    StartFInv(base, buffering);
    LifeInv(Start(base, buffering), life);
    var s := Lived(Start(base, buffering), life);
    RunFInv(s, events);
    FInvSegment(After(s, events));
  }

  /** NEVER IN TWO SESSIONS.  What is accepted in a later session has larger numbers than anything accepted in
      an earlier one: no write is taken over. */
  lemma NeverTwice(s: Sys, now: seq<Event>, joins: seq<Join>, life: seq<Session>, events: seq<Event>)
    requires FInv(s) && IsRun(s, now) && MayJoin(After(s, now), joins)
    requires IsLife(NewSession(After(s, now), joins), life)
    requires IsRun(Lived(NewSession(After(s, now), joins), life), events)
    ensures var early := Accepted(After(s, now).gate);
      var late := Accepted(After(Lived(NewSession(After(s, now), joins), life), events).gate);
      forall i, j :: 0 <= i < |early| && 0 <= j < |late| ==> early[i].global < late[j].global
  {
    hide FInv, Accepted, NewSession, MayJoin;
    var s1 := After(s, now);
    RunFInv(s, now);
    FInvSegment(s1);
    NewSessionInv(s1, joins);
    var s2 := NewSession(s1, joins);
    LifeInv(s2, life);
    RunFInv(Lived(s2, life), events);
    BaseGrows(Lived(s2, life), events);
    FInvSegment(After(Lived(s2, life), events));
  }
}
