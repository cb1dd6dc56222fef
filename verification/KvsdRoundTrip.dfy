/** Loading a snapshot gives back what was written: the theorem, its exact limits, and torn files. */
module KvsdRoundTrip {
  import opened Bytes
  import opened Kvsd

  /** What the engines hold: keys are C strings. */
  predicate Storable(r: Record) {
    1 <= r.id.engine <= DOC && CStr(r.id.key) == r.id.key && |r.id.key| < WORD
  }

  ghost predicate AllStorable(rs: seq<Record>) {
    forall i :: 0 <= i < |rs| ==> Storable(rs[i])
  }

  ghost predicate DistinctIds(rs: seq<Record>) {
    forall i, j :: 0 <= i < j < |rs| ==> rs[i].id != rs[j].id
  }

  /** No deadline is near the end of the 64-bit clock. */
  ghost predicate ClockFits(deadlines: map<Id, int>) {
    forall id :: id in deadlines ==> deadlines[id] + 999 < LONG / 2
  }

  /** The deadline part of a record. */
  function DueOf(deadlines: map<Id, int>, id: Id, now: int): Due
    requires now >= 0
  {
    if id in deadlines && now < deadlines[id] then Until(Stored(deadlines[id], now)) else Never
  }

  function Restored(rs: seq<Record>, deadlines: map<Id, int>, t0: int, st: Store, t1: int): Store
    requires t0 >= 0
  {
    if rs == [] then st
    else Restored(rs[1..], deadlines, t0, Apply(st, rs[0].id, Text(rs[0].val), DueOf(deadlines, rs[0].id, t0), t1), t1)
  }

  // ---------------------------------------------------------------- one record

  /** The parts of a line. */
  function Front(r: Record, flag: byte): bytes {
    var k, v := r.id.key, Text(r.val);
    [r.id.engine] + [flag] + Le(|k|, 4) + k + Le(|v|, 4) + v
  }

  lemma LineIs(r: Record, deadlines: map<Id, int>, now: int)
    requires Storable(r) && now >= 0
    ensures var due := DueOf(deadlines, r.id, now);
      Line(r, deadlines, now) == if due.Until? then Front(r, HAS_EXPIRE) + Le(due.ms, 8) else Front(r, 0)
  {
    TextWhole(r.id.key);
    CStrWhole(r.id.key);
    var due := DueOf(deadlines, r.id, now);
    if !due.Until? { assert Front(r, 0) + [] == Front(r, 0); }
  }

  /** Reading what starts with a record, up to its value. */
  lemma FrontAt(r: Record, flag: byte, more: bytes)
    requires Storable(r)
    ensures var b, k, v := Front(r, flag) + more, |r.id.key|, |Text(r.val)|;
      && |Front(r, flag)| == 10 + k + v && b[0] == r.id.engine && b[1] == flag
      && UnLe(b[2..6]) == k && b[6..6 + k] == r.id.key
      && UnLe(b[6 + k..10 + k]) == v && b[10 + k..10 + k + v] == Text(r.val) && b[10 + k + v..] == more
  {
    hide Le, UnLe, Text, CStr;
    var key, val := r.id.key, Text(r.val);
    var k, v := |key|, |val|;
    var f := Front(r, flag);
    var b := f + more;
    Widths();
    LeBack(k, 4);
    LeBack(v, 4);
    assert f == [r.id.engine] + ([flag] + (Le(k, 4) + (key + (Le(v, 4) + val))));
    assert b[2..6] == Le(k, 4);
    assert b[6 + k..10 + k] == Le(v, 4);
  }

  lemma TextClean(s: bytes)
    ensures CStr(Text(s)) == Text(s)
  {
    CStrWhole(Text(s));
  }

  lemma ReadLine(r: Record, deadlines: map<Id, int>, now: int, more: bytes)
    requires Storable(r) && now >= 0 && ClockFits(deadlines)
    ensures ReadRecord(Line(r, deadlines, now) + more) == Item(r.id, Text(r.val), DueOf(deadlines, r.id, now), more)
  {
    hide Front, Le, UnLe, Text, CStr, Line, Stored;
    var due := DueOf(deadlines, r.id, now);
    LineIs(r, deadlines, now);
    TextClean(r.val);
    if due.Until? {
      var f := Front(r, HAS_EXPIRE);
      StoredClose(deadlines[r.id], now);
      Widths();
      LeBack(due.ms, 8);
      assert f + Le(due.ms, 8) + more == f + (Le(due.ms, 8) + more);
      FrontAt(r, HAS_EXPIRE, Le(due.ms, 8) + more);
      assert (Le(due.ms, 8) + more)[..8] == Le(due.ms, 8) && (Le(due.ms, 8) + more)[8..] == more;
    } else {
      FrontAt(r, 0, more);
    }
  }

  // ---------------------------------------------------------------- the whole file

  lemma {:induction false} LoadBody(rs: seq<Record>, deadlines: map<Id, int>, t0: int, st: Store, t1: int)
    requires AllStorable(rs) && t0 >= 0 && ClockFits(deadlines)
    ensures Load(Body(rs, deadlines, t0), st, t1) == Restored(rs, deadlines, t0, st, t1)
  {
    if rs != [] {
      hide Line, ReadRecord, Storable, Apply, ClockFits, Text;
      ReadLine(rs[0], deadlines, t0, Body(rs[1..], deadlines, t0));
      LoadBody(rs[1..], deadlines, t0, Apply(st, rs[0].id, Text(rs[0].val), DueOf(deadlines, rs[0].id, t0), t1), t1);
    }
  }

  lemma LoadsWhatWasWritten(off: nat, rs: seq<Record>, deadlines: map<Id, int>, t0: int, st: Store, t1: int)
    requires AllStorable(rs) && t0 >= 0 && ClockFits(deadlines) && off < LONG
    ensures LoadFile(File(off, rs, deadlines, t0), st, t1) == (off, Restored(rs, deadlines, t0, st, t1))
  {
    hide Le, UnLe, Load;
    var b := File(off, rs, deadlines, t0);
    assert b[..8] == Le(off, 8) && b[8..] == Body(rs, deadlines, t0);
    Widths();
    LeBack(off, 8);
    LoadBody(rs, deadlines, t0, st, t1);
  }

  // ---------------------------------------------------------------- what that is, key by key

  predicate Among(rs: seq<Record>, id: Id) {
    rs != [] && (rs[0].id == id || Among(rs[1..], id))
  }

  lemma {:induction false} AmongAt(rs: seq<Record>, i: nat)
    requires i < |rs|
    ensures Among(rs, rs[i].id)
  {
    if i > 0 {
      AmongAt(rs[1..], i - 1);
    }
  }

  function ValueOf(rs: seq<Record>, id: Id): bytes
    requires Among(rs, id)
  {
    if rs[0].id == id then rs[0].val else ValueOf(rs[1..], id)
  }

  lemma {:induction false} DistinctHead(rs: seq<Record>)
    requires DistinctIds(rs) && rs != []
    ensures DistinctIds(rs[1..]) && !Among(rs[1..], rs[0].id)
  {
    var t := rs[1..];
    forall i, j | 0 <= i < j < |t| ensures t[i].id != t[j].id { assert t[i] == rs[i + 1] && t[j] == rs[j + 1]; }
    forall i | 0 <= i < |t| ensures t[i].id != rs[0].id { assert t[i] == rs[i + 1]; }
    NotAmong(t, rs[0].id);
  }

  lemma {:induction false} NotAmong(rs: seq<Record>, id: Id)
    requires forall i :: 0 <= i < |rs| ==> rs[i].id != id
    ensures !Among(rs, id)
  {
    if rs != [] { NotAmong(rs[1..], id); }
  }

  /** The deadline a key comes back with. */
  predicate Survives(deadlines: map<Id, int>, id: Id, t0: int, t1: int) {
    id in deadlines && t0 < deadlines[id] && t1 < Stored(deadlines[id], t0)
  }

  lemma {:induction false} RestoredAt(rs: seq<Record>, deadlines: map<Id, int>, t0: int, st: Store, t1: int, id: Id)
    requires DistinctIds(rs) && t0 >= 0 && ClockFits(deadlines)
    ensures var s := Restored(rs, deadlines, t0, st, t1);
      && (id in s.data <==> (Among(rs, id) && id.engine != DOC) || id in st.data)
      && (id in s.data ==>
            s.data[id] == if Among(rs, id) && id.engine != DOC then Text(ValueOf(rs, id)) else st.data[id])
      && var kept := Among(rs, id) && Survives(deadlines, id, t0, t1);
      && (id in s.deadlines <==> kept || id in st.deadlines)
      && (id in s.deadlines ==> s.deadlines[id] == if kept then Stored(deadlines[id], t0) else st.deadlines[id])
  {
    if rs != [] {
      hide Text, DistinctIds, Stored;
      DistinctHead(rs);
      var r := rs[0];
      var due := DueOf(deadlines, r.id, t0);
      if due.Until? { StoredClose(deadlines[r.id], t0); }
      RestoredAt(rs[1..], deadlines, t0, Apply(st, r.id, Text(r.val), due, t1), t1, id);
    }
  }

  ghost predicate CleanValues(rs: seq<Record>) {
    forall i :: 0 <= i < |rs| && rs[i].id.engine != DOC ==> NulFree(rs[i].val) && |rs[i].val| < WORD
  }

  /** THE ROUND TRIP.  A snapshot written at t0 and loaded into empty engines at t1 gives the header
      offset and just the dumped keys.  Every value comes back up to its first NUL.  A deadline d comes
      back as the stored one, in [d, d + 999], if it was ahead at t0 and the stored one is ahead at t1;
      otherwise the key comes back without one. */
  lemma RoundTrip(off: nat, rs: seq<Record>, deadlines: map<Id, int>, t0: int, t1: int, id: Id)
    requires AllStorable(rs) && DistinctIds(rs) && t0 >= 0 && ClockFits(deadlines) && off < LONG
    ensures var (o, s) := LoadFile(File(off, rs, deadlines, t0), Store(map[], map[]), t1);
      && o == off
      && (id in s.data <==> Among(rs, id) && id.engine != DOC)
      && (id in s.data ==> s.data[id] == Text(ValueOf(rs, id)))
      && (id in s.deadlines <==> Among(rs, id) && Survives(deadlines, id, t0, t1))
      && (id in s.deadlines ==> deadlines[id] <= s.deadlines[id] <= deadlines[id] + 999)
  {
    hide LoadFile, File, Restored, Stored;
    LoadsWhatWasWritten(off, rs, deadlines, t0, Store(map[], map[]), t1);
    RestoredAt(rs, deadlines, t0, Store(map[], map[]), t1, id);
    if Survives(deadlines, id, t0, t1) { StoredClose(deadlines[id], t0); }
  }

  /** The engines' contents are the same exactly when no value has a NUL or 4 GiB. */
  lemma ContentsSame(off: nat, rs: seq<Record>, deadlines: map<Id, int>, t0: int, t1: int)
    requires AllStorable(rs) && DistinctIds(rs) && t0 >= 0 && ClockFits(deadlines) && off < LONG
    ensures var s := LoadFile(File(off, rs, deadlines, t0), Store(map[], map[]), t1).1;
      (forall i :: 0 <= i < |rs| && rs[i].id.engine != DOC ==>
         rs[i].id in s.data && s.data[rs[i].id] == rs[i].val)
      <==> CleanValues(rs)
  {
    hide LoadFile, File, Text, Survives;
    var s := LoadFile(File(off, rs, deadlines, t0), Store(map[], map[]), t1).1;
    forall i | 0 <= i < |rs| && rs[i].id.engine != DOC
      ensures rs[i].id in s.data && (s.data[rs[i].id] == rs[i].val <==> NulFree(rs[i].val) && |rs[i].val| < WORD)
    {
      RoundTrip(off, rs, deadlines, t0, t1, rs[i].id);
      AmongAt(rs, i);
      ValueAt(rs, i);
      TextWhole(rs[i].val);
    }
  }

  lemma {:induction false} ValueAt(rs: seq<Record>, i: nat)
    requires DistinctIds(rs) && i < |rs|
    ensures Among(rs, rs[i].id) && ValueOf(rs, rs[i].id) == rs[i].val
  {
    AmongAt(rs, i);
    if i > 0 {
      DistinctHead(rs);
      assert rs[0].id != rs[i].id;
      ValueAt(rs[1..], i - 1);
    }
  }

  /** With the clock held fixed: every deadline that is ahead is kept, and only those. */
  lemma FixedClock(off: nat, rs: seq<Record>, deadlines: map<Id, int>, now: int, i: nat)
    requires AllStorable(rs) && DistinctIds(rs) && now >= 0 && ClockFits(deadlines) && off < LONG
    requires i < |rs| && rs[i].id in deadlines
    ensures var s := LoadFile(File(off, rs, deadlines, now), Store(map[], map[]), now).1;
      (rs[i].id in s.deadlines && deadlines[rs[i].id] <= s.deadlines[rs[i].id] <= deadlines[rs[i].id] + 999)
      <==> now < deadlines[rs[i].id]
  {
    hide LoadFile, File, Stored;
    AmongAt(rs, i);
    RoundTrip(off, rs, deadlines, now, now, rs[i].id);
    if now < deadlines[rs[i].id] { StoredClose(deadlines[rs[i].id], now); }
  }

  /** A key that is past its deadline when the snapshot is written, and not removed yet, comes back as a
      key without a deadline; so does one whose deadline passes between writing and loading. */
  lemma ExpiredComesBack(off: nat, id: Id, val: bytes, d: int, t0: int, t1: int)
    requires Storable(Record(id, val)) && id.engine != DOC && 0 <= d && d + 999 < LONG / 2 && off < LONG && t0 >= 0
    requires d <= t0 || Stored(d, t0) <= t1
    ensures var s := LoadFile(File(off, [Record(id, val)], map[id := d], t0), Store(map[], map[]), t1).1;
      id in s.data && s.data[id] == Text(val) && id !in s.deadlines
  {
    hide LoadFile, File, Stored;
    var rs := [Record(id, val)];
    AmongAt(rs, 0);
    ValueAt(rs, 0);
    RoundTrip(off, rs, map[id := d], t0, t1, id);
  }

  /** A binary value comes back shorter. */
  lemma NulCutsValue()
    ensures var id := Id(3, [107]);
      var s := LoadFile(File(0, [Record(id, [1, 0, 2])], map[], 0), Store(map[], map[]), 0).1;
      id in s.data && s.data[id] == [1]
  {
    var id := Id(3, [107]);
    var rs := [Record(id, [1, 0, 2])];
    assert CStr([107]) == [107] by { CStrWhole([107]); }
    assert CStr([1, 0, 2]) == [1] by { assert [1, 0, 2][1..] == [0, 2]; }
    hide LoadFile, File, Among;
    AmongAt(rs, 0);
    ValueAt(rs, 0);
    RoundTrip(0, rs, map[], 0, 0, id);
  }

  // ---------------------------------------------------------------- torn files

  /** The bytes of a line that are there are not enough, or all but the deadline is. */
  lemma ReadTorn(r: Record, deadlines: map<Id, int>, now: int, cut: nat)
    requires Storable(r) && now >= 0 && cut < |Line(r, deadlines, now)|
    ensures var p := ReadRecord(Line(r, deadlines, now)[..cut]);
      p == Stop || p == Item(r.id, Text(r.val), Torn, [])
  {
    hide Front, Le, UnLe, Text, CStr, Line, Stored;
    var due := DueOf(deadlines, r.id, now);
    var flag: byte := if due.Until? then HAS_EXPIRE else 0;
    var f := Front(r, flag);
    var line := Line(r, deadlines, now);
    LineIs(r, deadlines, now);
    TextClean(r.val);
    FrontAt(r, flag, []);
    assert f + [] == f;
    var k, v, b := |r.id.key|, |Text(r.val)|, line[..cut];
    assert forall i :: 0 <= i < cut && i < |f| ==> b[i] == f[i];
    if cut >= 6 {
      assert b[2..6] == f[2..6];
      if cut >= 10 + k {
        assert b[6..6 + k] == f[6..6 + k] && b[6 + k..10 + k] == f[6 + k..10 + k];
        if cut >= 10 + k + v {
          assert b[10 + k..10 + k + v] == f[10 + k..10 + k + v];
        }
      }
    }
  }

  /** TORN FILE.  Whatever part of the records reached the disk, the load is that of a prefix of them, the
      last one possibly without its deadline. */
  lemma {:induction false} TornLoad(rs: seq<Record>, deadlines: map<Id, int>, t0: int, cut: nat, st: Store, t1: int)
    returns (n: nat)
    requires AllStorable(rs) && t0 >= 0 && ClockFits(deadlines) && cut <= |Body(rs, deadlines, t0)|
    ensures n <= |rs|
    ensures var s, whole := Load(Body(rs, deadlines, t0)[..cut], st, t1), Restored(rs[..n], deadlines, t0, st, t1);
      s == whole || (n < |rs| && s == Apply(whole, rs[n].id, Text(rs[n].val), Torn, t1))
  {
    hide Line, ReadRecord, Storable, Apply, ClockFits, Text, DueOf;
    var b := Body(rs, deadlines, t0)[..cut];
    if rs == [] {
      n := 0;
      assert rs[..0] == [];
      Nothing(b, st, t1);
    } else {
      var line, rest := Line(rs[0], deadlines, t0), Body(rs[1..], deadlines, t0);
      if cut < |line| {
        n := 0;
        assert rs[..0] == [];
        assert b == line[..cut];
        ReadTorn(rs[0], deadlines, t0, cut);
        Nothing([], Apply(st, rs[0].id, Text(rs[0].val), Torn, t1), t1);
      } else {
        assert b == line + rest[..cut - |line|];
        ReadLine(rs[0], deadlines, t0, rest[..cut - |line|]);
        var st1 := Apply(st, rs[0].id, Text(rs[0].val), DueOf(deadlines, rs[0].id, t0), t1);
        var m := TornLoad(rs[1..], deadlines, t0, cut - |line|, st1, t1);
        n := m + 1;
        assert rs[..n][1..] == rs[1..][..m];
      }
    }
  }

  lemma Nothing(b: bytes, st: Store, now: int)
    requires b == []
    ensures Load(b, st, now) == st
  {
  }
}
