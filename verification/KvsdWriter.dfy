/** The snapshot writer: a 4 MiB buffer in front of `write(2)`, whatever the kernel answers. */
module KvsdWriter {
  import opened Bytes
  import opened Kvsd
  import KvsdRoundTrip

  const CAP := 4194304

  /** The file, and what the coming `write` calls answer: an error, or at most so many bytes; no answer
      left means that everything is taken. */
  datatype Disk = Disk(file: bytes, answers: seq<int>)

  function Write(d: Disk, data: bytes): (r: (Disk, int))
    requires data != []
    ensures r.1 <= |data|
    ensures r.1 > 0 ==> r.0.file == d.file + data[..r.1]
    ensures r.1 <= 0 ==> r.0.file == d.file
  {
    if d.answers == [] then (Disk(d.file + data, []), |data|)
    else
      var n := if d.answers[0] > |data| then |data| else d.answers[0];
      (Disk(if n > 0 then d.file + data[..n] else d.file, d.answers[1..]), n)
  }

  function WriteAll(d: Disk, data: bytes): (r: (Disk, bool))
    decreases |data|
  {
    if data == [] then (d, true)
    else
      var (d1, w) := Write(d, data);
      if w <= 0 then (d1, false) else WriteAll(d1, data[w..])
  }

  lemma {:induction false} WroteAll(d: Disk, data: bytes)
    ensures var (d1, ok) := WriteAll(d, data);
      && d.file <= d1.file <= d.file + data && (ok ==> d1.file == d.file + data)
    decreases |data|
  {
    if data != [] {
      var (d1, w) := Write(d, data);
      hide Write;
      if w > 0 {
        WroteAll(d1, data[w..]);
        Between(d.file, data, w, WriteAll(d1, data[w..]).0.file);
      }
    }
  }

  /** A file that grew by part of the data, then by part of the rest. */
  lemma Between(file: bytes, data: bytes, w: nat, end: bytes)
    requires w <= |data| && file + data[..w] <= end <= file + data[..w] + data[w..]
    ensures file <= end <= file + data && file + data[..w] + data[w..] == file + data
  {
    assert file + data[..w] + data[w..] == file + data;
  }

  /** The disk and what the buffer holds. */
  datatype Ctx = Ctx(disk: Disk, held: bytes)

  function Flush(c: Ctx): (Ctx, bool) {
    var (d, ok) := WriteAll(c.disk, c.held);
    (Ctx(d, if ok then [] else c.held), ok)
  }

  function Add(c: Ctx, data: bytes): (Ctx, bool) {
    if |c.held| + |data| <= CAP then (c.(held := c.held + data), true)
    else
      var (c1, ok) := Flush(c);
      if !ok then (c1, false)
      else if |data| > CAP then
        var (d, ok1) := WriteAll(c1.disk, data);
        (Ctx(d, []), ok1)
      else (c1.(held := data), true)
  }

  /** All that was handed over. */
  function Out(c: Ctx): bytes {
    c.disk.file + c.held
  }

  lemma Flushed(c: Ctx)
    ensures var (c1, ok) := Flush(c); ok ==> c1.disk.file == Out(c) && c1.held == []
  {
    WroteAll(c.disk, c.held);
  }

  lemma Added(c: Ctx, data: bytes)
    requires |c.held| <= CAP
    ensures var (c1, ok) := Add(c, data); |c1.held| <= CAP && (ok ==> Out(c1) == Out(c) + data)
  {
    if |c.held| + |data| <= CAP {
      assert c.disk.file + (c.held + data) == c.disk.file + c.held + data;
    } else {
      Flushed(c);
      var (c1, ok) := Flush(c);
      if ok && |data| > CAP { WroteAll(c1.disk, data); }
    }
  }

  /** Pieces in turn, until one fails. */
  function AddAll(c: Ctx, parts: seq<bytes>): (Ctx, bool)
    decreases |parts|
  {
    if parts == [] then (c, true)
    else
      var (c1, ok) := Add(c, parts[0]);
      if !ok then (c1, false) else AddAll(c1, parts[1..])
  }

  lemma {:induction false} AddedAll(c: Ctx, parts: seq<bytes>)
    requires |c.held| <= CAP
    ensures var (c1, ok) := AddAll(c, parts); |c1.held| <= CAP && (ok ==> Out(c1) == Out(c) + Flatten(parts))
    decreases |parts|
  {
    if parts != [] {
      hide Add;
      Added(c, parts[0]);
      var (c1, ok) := Add(c, parts[0]);
      if ok {
        AddedAll(c1, parts[1..]);
        assert Out(c) + parts[0] + Flatten(parts[1..]) == Out(c) + (parts[0] + Flatten(parts[1..]));
      }
    }
  }

  /** Stopping early is stopping at the same place. */
  lemma {:induction false} AddAllSplit(c: Ctx, a: seq<bytes>, b: seq<bytes>)
    ensures var (c1, ok) := AddAll(c, a); AddAll(c, a + b) == if ok then AddAll(c1, b) else (c1, false)
    decreases |a|
  {
    if a == [] {
      assert a + b == b;
    } else {
      hide Add;
      assert (a + b)[1..] == a[1..] + b;
      var (c1, ok) := Add(c, a[0]);
      if ok { AddAllSplit(c1, a[1..], b); }
    }
  }

  // ---------------------------------------------------------------- which writes fail

  /** Some answers have been used, the others are still to come. */
  ghost predicate After(a: Disk, b: Disk) {
    |b.answers| <= |a.answers| && b.answers == a.answers[|a.answers| - |b.answers|..]
  }

  /** Every write between the two was answered with some bytes. */
  ghost predicate Good(a: Disk, b: Disk) {
    After(a, b) && forall i :: 0 <= i < |a.answers| - |b.answers| ==> a.answers[i] > 0
  }

  lemma GoodJoin(a: Disk, b: Disk, c: Disk)
    requires After(a, b) && After(b, c)
    ensures After(a, c) && (Good(a, c) <==> Good(a, b) && Good(b, c))
  {
    var m := |a.answers| - |b.answers|;
    assert forall i :: 0 <= i < |b.answers| ==> b.answers[i] == a.answers[m + i];
    if Good(a, c) {
      forall i | 0 <= i < |b.answers| - |c.answers| ensures b.answers[i] > 0 { assert a.answers[m + i] > 0; }
    }
    if Good(a, b) && Good(b, c) {
      forall i | 0 <= i < |a.answers| - |c.answers| ensures a.answers[i] > 0 {
        if i >= m { assert b.answers[i - m] > 0; }
      }
    }
  }

  lemma {:induction false} WriteAllExact(d: Disk, data: bytes)
    ensures var (d1, ok) := WriteAll(d, data); After(d, d1) && (ok <==> Good(d, d1))
    decreases |data|
  {
    if data != [] {
      var (d1, w) := Write(d, data);
      assert After(d, d1) && (w > 0 <==> Good(d, d1));
      hide Write, After, Good;
      if w > 0 {
        WriteAllExact(d1, data[w..]);
        GoodJoin(d, d1, WriteAll(d1, data[w..]).0);
      }
    }
  }

  lemma Nothing(d: Disk)
    ensures After(d, d) && Good(d, d)
  {
  }

  lemma AddExact(c: Ctx, data: bytes)
    ensures var (c1, ok) := Add(c, data); After(c.disk, c1.disk) && (ok <==> Good(c.disk, c1.disk))
  {
    hide WriteAll, After, Good;
    Nothing(c.disk);
    WriteAllExact(c.disk, c.held);
    var d := Flush(c).0.disk;
    WriteAllExact(d, data);
    GoodJoin(c.disk, d, WriteAll(d, data).0);
  }

  lemma {:induction false} AddAllExact(c: Ctx, parts: seq<bytes>)
    ensures var (c1, ok) := AddAll(c, parts); After(c.disk, c1.disk) && (ok <==> Good(c.disk, c1.disk))
    decreases |parts|
  {
    hide Add, After, Good;
    Nothing(c.disk);
    if parts != [] {
      var (c1, ok) := Add(c, parts[0]);
      AddExact(c, parts[0]);
      if ok {
        AddAllExact(c1, parts[1..]);
        GoodJoin(c.disk, c1.disk, AddAll(c1, parts[1..]).0.disk);
      }
    }
  }

  /** Writes of at most n bytes take all or nothing. */
  ghost predicate AllOrNothing(d: Disk, n: nat) {
    forall i :: 0 <= i < |d.answers| ==> d.answers[i] <= 0 || d.answers[i] >= n
  }

  lemma LaterToo(a: Disk, b: Disk, n: nat)
    requires After(a, b) && AllOrNothing(a, n)
    ensures AllOrNothing(b, n)
  {
    forall i | 0 <= i < |b.answers| ensures b.answers[i] <= 0 || b.answers[i] >= n {
      assert b.answers[i] == a.answers[|a.answers| - |b.answers| + i];
    }
  }

  lemma OneWrite(d: Disk, data: bytes, n: nat)
    requires |data| <= n && AllOrNothing(d, n)
    ensures var (d1, ok) := WriteAll(d, data); !ok ==> d1.file == d.file
  {
    if data != [] {
      var (d1, w) := Write(d, data);
      if w > 0 { assert data[w..] == []; }
    }
  }

  /** A piece that is refused is not there, nor anything else. */
  lemma AddLoses(c: Ctx, data: bytes, n: nat)
    requires |c.held| <= CAP <= n && |data| <= n && AllOrNothing(c.disk, n)
    ensures var (c1, ok) := Add(c, data);
      |Out(c1)| <= |Out(c)| + |data| && (!ok ==> |Out(c1)| < |Out(c)| + |data|) && AllOrNothing(c1.disk, n)
  {
    AddExact(c, data);
    LaterToo(c.disk, Add(c, data).0.disk, n);
    hide WriteAll, After, Good, AllOrNothing;
    WriteAllExact(c.disk, c.held);
    var d := Flush(c).0.disk;
    LaterToo(c.disk, d, n);
    OneWrite(c.disk, c.held, n);
    OneWrite(d, data, n);
    WroteAll(d, data);
    Flushed(c);
  }

  lemma {:induction false} AddAllLoses(c: Ctx, parts: seq<bytes>, n: nat)
    requires |c.held| <= CAP <= n && AllOrNothing(c.disk, n) && forall i :: 0 <= i < |parts| ==> |parts[i]| <= n
    ensures var (c1, ok) := AddAll(c, parts);
      && |Out(c1)| <= |Out(c)| + |Flatten(parts)| && (!ok ==> |Out(c1)| < |Out(c)| + |Flatten(parts)|)
      && AllOrNothing(c1.disk, n) && |c1.held| <= CAP
    decreases |parts|
  {
    hide Add, AllOrNothing, Out;
    if parts != [] {
      AddLoses(c, parts[0], n);
      Added(c, parts[0]);
      var (c1, ok) := Add(c, parts[0]);
      if ok { AddAllLoses(c1, parts[1..], n); }
    }
  }

  // ---------------------------------------------------------------- records

  /** The pieces of a record, in the order they are written. */
  function Parts(r: Record, deadlines: map<Id, int>, now: int): seq<bytes>
    requires now >= 0
  {
    var k, v, ttl := Text(r.id.key), Text(r.val), TtlSec(deadlines, r.id, now);
    [[r.id.engine], [if ttl >= 0 then HAS_EXPIRE else 0], Le(|k|, 4), k, Le(|v|, 4), v]
    + (if ttl >= 0 then [Le(now + ttl * 1000, 8)] else [])
  }

  function AllParts(rs: seq<Record>, deadlines: map<Id, int>, now: int): seq<bytes>
    requires now >= 0
  {
    if rs == [] then [] else Parts(rs[0], deadlines, now) + AllParts(rs[1..], deadlines, now)
  }

  lemma FlattenParts(r: Record, deadlines: map<Id, int>, now: int)
    requires now >= 0
    ensures Flatten(Parts(r, deadlines, now)) == Line(r, deadlines, now)
  {
    hide Le, Text, TtlSec;
    var k, v, ttl := Text(r.id.key), Text(r.val), TtlSec(deadlines, r.id, now);
    var tail := if ttl >= 0 then [Le(now + ttl * 1000, 8)] else [];
    Six([r.id.engine], [if ttl >= 0 then HAS_EXPIRE else 0], Le(|k|, 4), k, Le(|v|, 4), v, tail);
    One(Le(now + if ttl >= 0 then ttl * 1000 else 0, 8));
  }

  lemma One(a: bytes)
    ensures Flatten([a]) == a && Flatten([]) == []
  {
    assert [a][1..] == [];
  }

  lemma Six(a: bytes, b: bytes, c: bytes, d: bytes, e: bytes, f: bytes, tail: seq<bytes>)
    ensures Flatten([a, b, c, d, e, f] + tail) == a + b + c + d + e + f + Flatten(tail)
  {
    FlattenAppend([a, b, c, d, e, f], tail);
    FlattenAppend([a, b, c], [d, e, f]);
    Three(a, b, c);
    Three(d, e, f);
    assert [a, b, c, d, e, f] == [a, b, c] + [d, e, f];
    assert a + b + c + (d + e + f) == a + b + c + d + e + f;
  }

  lemma Three(a: bytes, b: bytes, c: bytes)
    ensures Flatten([a, b, c]) == a + b + c
  {
    assert [a, b, c][1..] == [b, c] && [b, c][1..] == [c] && [c][1..] == [];
    assert Flatten([c]) == c;
    assert Flatten([b, c]) == b + c;
    assert a + (b + c) == a + b + c;
  }

  lemma {:induction false} FlattenAll(rs: seq<Record>, deadlines: map<Id, int>, now: int)
    requires now >= 0
    ensures Flatten(AllParts(rs, deadlines, now)) == Body(rs, deadlines, now)
  {
    if rs != [] {
      hide Parts, Line;
      FlattenAppend(Parts(rs[0], deadlines, now), AllParts(rs[1..], deadlines, now));
      FlattenParts(rs[0], deadlines, now);
      FlattenAll(rs[1..], deadlines, now);
    }
  }

  lemma {:induction false} BodyAppend(a: seq<Record>, b: seq<Record>, deadlines: map<Id, int>, now: int)
    requires now >= 0
    ensures Body(a + b, deadlines, now) == Body(a, deadlines, now) + Body(b, deadlines, now)
  {
    if a == [] {
      assert a + b == b;
    } else {
      hide Line;
      assert (a + b)[1..] == a[1..] + b;
      BodyAppend(a[1..], b, deadlines, now);
    }
  }

  // ---------------------------------------------------------------- the dump

  datatype Dumped = Dumped(ctx: Ctx, rc: int, skipOk: bool)

  /** `kvs_dump_to_fd`: the hash, array and red-black entries, then the skip list's, whose outcome is
      not looked at, then the documents. */
  function Dump(c: Ctx, off: nat, first: seq<Record>, skip: seq<Record>, docs: seq<Record>,
                deadlines: map<Id, int>, now: int): Dumped
    requires now >= 0
  {
    var (c1, ok1) := AddAll(c, [Le(off, 8)] + AllParts(first, deadlines, now));
    if !ok1 then Dumped(c1, -1, true)
    else
      var (c2, ok2) := AddAll(c1, AllParts(skip, deadlines, now));
      var (c3, ok3) := AddAll(c2, AllParts(docs, deadlines, now));
      if !ok3 then Dumped(c3, -1, ok2)
      else
        var (c4, ok4) := Flush(c3);
        Dumped(c4, if ok4 then 0 else -1, ok2)
  }

  /** When no write failed during the skip list's part, success means that the file is the snapshot. */
  lemma DumpWrites(d: Disk, off: nat, first: seq<Record>, skip: seq<Record>, docs: seq<Record>,
                   deadlines: map<Id, int>, now: int)
    requires now >= 0
    ensures var r := Dump(Ctx(d, []), off, first, skip, docs, deadlines, now);
      r.rc == 0 && r.skipOk ==> r.ctx.disk.file == d.file + File(off, first + skip + docs, deadlines, now)
  {
    hide AllParts, Body, Line, AddAll, Flush, Le;
    var c := Ctx(d, []);
    var p := [Le(off, 8)] + AllParts(first, deadlines, now);
    AddedAll(c, p);
    FlattenAppend([Le(off, 8)], AllParts(first, deadlines, now));
    One(Le(off, 8));
    FlattenAll(first, deadlines, now);
    FlattenAll(skip, deadlines, now);
    FlattenAll(docs, deadlines, now);
    BodyAppend(first, skip, deadlines, now);
    BodyAppend(first + skip, docs, deadlines, now);
    var (c1, ok1) := AddAll(c, p);
    if ok1 {
      AddedAll(c1, AllParts(skip, deadlines, now));
      var (c2, ok2) := AddAll(c1, AllParts(skip, deadlines, now));
      AddedAll(c2, AllParts(docs, deadlines, now));
      var (c3, ok3) := AddAll(c2, AllParts(docs, deadlines, now));
      Flushed(c3);
      var h, a, b, e := Le(off, 8), Body(first, deadlines, now), Body(skip, deadlines, now), Body(docs, deadlines, now);
      Concat(d.file, h, a, b, e);
    }
  }

  /** WHEN A DUMP GOES WELL.  Through any short writes, every part is handed over and success reported if
      and only if no write it made failed. */
  lemma DumpExact(d: Disk, off: nat, first: seq<Record>, skip: seq<Record>, docs: seq<Record>,
                  deadlines: map<Id, int>, now: int)
    requires now >= 0
    ensures var r := Dump(Ctx(d, []), off, first, skip, docs, deadlines, now);
      After(d, r.ctx.disk) && (r.rc == 0 && r.skipOk <==> Good(d, r.ctx.disk))
  {
    hide AllParts, AddAll, Le, After, Good, WriteAll;
    var c := Ctx(d, []);
    var p := [Le(off, 8)] + AllParts(first, deadlines, now);
    AddAllExact(c, p);
    var (c1, ok1) := AddAll(c, p);
    if ok1 {
      var (c2, ok2) := AddAll(c1, AllParts(skip, deadlines, now));
      AddAllExact(c1, AllParts(skip, deadlines, now));
      GoodJoin(d, c1.disk, c2.disk);
      var (c3, ok3) := AddAll(c2, AllParts(docs, deadlines, now));
      AddAllExact(c2, AllParts(docs, deadlines, now));
      GoodJoin(d, c2.disk, c3.disk);
      WriteAllExact(c3.disk, c3.held);
      GoodJoin(d, c3.disk, Flush(c3).0.disk);
    }
  }

  /** So it does when every answer is positive. */
  lemma DumpSucceeds(d: Disk, off: nat, first: seq<Record>, skip: seq<Record>, docs: seq<Record>,
                     deadlines: map<Id, int>, now: int)
    requires now >= 0 && forall i :: 0 <= i < |d.answers| ==> d.answers[i] > 0
    ensures var r := Dump(Ctx(d, []), off, first, skip, docs, deadlines, now);
      r.rc == 0 && r.skipOk && r.ctx.disk.file == d.file + File(off, first + skip + docs, deadlines, now)
  {
    hide Dump, File;
    DumpExact(d, off, first, skip, docs, deadlines, now);
    DumpWrites(d, off, first, skip, docs, deadlines, now);
  }

  ghost predicate PiecesFit(rs: seq<Record>, deadlines: map<Id, int>, now: int, n: nat)
    requires now >= 0
  {
    forall i :: 0 <= i < |AllParts(rs, deadlines, now)| ==> |AllParts(rs, deadlines, now)[i]| <= n
  }

  /** A SUCCESS THAT IS NONE.  When writes take all or nothing, a dump that reports success wrote the
      snapshot if and only if nothing failed in the skip list's part. */
  lemma SuccessExactly(d: Disk, off: nat, first: seq<Record>, skip: seq<Record>, docs: seq<Record>,
                       deadlines: map<Id, int>, now: int, n: nat)
    requires now >= 0 && CAP <= n && AllOrNothing(d, n)
    requires PiecesFit(first, deadlines, now, n) && PiecesFit(skip, deadlines, now, n)
    requires PiecesFit(docs, deadlines, now, n)
    ensures var r := Dump(Ctx(d, []), off, first, skip, docs, deadlines, now);
      r.rc == 0 ==>
        (r.ctx.disk.file == d.file + File(off, first + skip + docs, deadlines, now) <==> r.skipOk)
  {
    DumpWrites(d, off, first, skip, docs, deadlines, now);
    ShorterFile(d, off, first, skip, docs, deadlines, now, n);
  }

  lemma ShorterFile(d: Disk, off: nat, first: seq<Record>, skip: seq<Record>, docs: seq<Record>,
                    deadlines: map<Id, int>, now: int, n: nat)
    requires now >= 0 && CAP <= n && AllOrNothing(d, n)
    requires PiecesFit(first, deadlines, now, n) && PiecesFit(skip, deadlines, now, n)
    requires PiecesFit(docs, deadlines, now, n)
    ensures var r := Dump(Ctx(d, []), off, first, skip, docs, deadlines, now);
      r.rc == 0 && !r.skipOk ==>
        |r.ctx.disk.file| < |d.file| + |File(off, first + skip + docs, deadlines, now)|
  {
    hide AllParts, Body, Line, AddAll, Flush, Le, AllOrNothing;
    var c := Ctx(d, []);
    var f, s, e := AllParts(first, deadlines, now), AllParts(skip, deadlines, now), AllParts(docs, deadlines, now);
    HeaderSize(off);
    AddAllLoses(c, [Le(off, 8)] + f, n);
    FlattenAppend([Le(off, 8)], f);
    One(Le(off, 8));
    FlattenAll(first, deadlines, now);
    FlattenAll(skip, deadlines, now);
    FlattenAll(docs, deadlines, now);
    BodyAppend(first, skip, deadlines, now);
    BodyAppend(first + skip, docs, deadlines, now);
    var (c1, ok1) := AddAll(c, [Le(off, 8)] + f);
    if ok1 {
      AddAllLoses(c1, s, n);
      var c2 := AddAll(c1, s).0;
      AddAllLoses(c2, e, n);
      Flushed(AddAll(c2, e).0);
    }
  }

  lemma HeaderSize(off: nat)
    ensures |Le(off, 8)| == 8
  {
  }

  lemma Concat(f: bytes, h: bytes, a: bytes, b: bytes, e: bytes)
    ensures f + [] + (h + a) + b + e == f + (h + (a + b + e))
  {
  }

  /** SAVE, THEN LOAD.  Into an empty file and back: what comes back is what the engines held, as the round
      trip says, whenever no write of the dump failed; and through short writes alone none does. */
  lemma SaveThenLoad(answers: seq<int>, off: nat, first: seq<Record>, skip: seq<Record>, docs: seq<Record>,
                     deadlines: map<Id, int>, t0: int, t1: int, id: Id)
    requires var rs := first + skip + docs; KvsdRoundTrip.AllStorable(rs) && KvsdRoundTrip.DistinctIds(rs)
    requires t0 >= 0 && KvsdRoundTrip.ClockFits(deadlines) && off < LONG
    ensures var r, rs := Dump(Ctx(Disk([], answers), []), off, first, skip, docs, deadlines, t0), first + skip + docs;
      Good(Disk([], answers), r.ctx.disk) ==>
        var (o, s) := LoadFile(r.ctx.disk.file, Store(map[], map[]), t1);
        && o == off
        && (id in s.data <==> KvsdRoundTrip.Among(rs, id) && id.engine != DOC)
        && (id in s.data ==> s.data[id] == Text(KvsdRoundTrip.ValueOf(rs, id)))
        && (id in s.deadlines <==> KvsdRoundTrip.Among(rs, id) && KvsdRoundTrip.Survives(deadlines, id, t0, t1))
        && (id in s.deadlines ==> deadlines[id] <= s.deadlines[id] <= deadlines[id] + 999)
  {
    hide Dump, LoadFile, File, Text;
    var d := Disk([], answers);
    DumpExact(d, off, first, skip, docs, deadlines, t0);
    DumpWrites(d, off, first, skip, docs, deadlines, t0);
    assert [] + File(off, first + skip + docs, deadlines, t0) == File(off, first + skip + docs, deadlines, t0);
    KvsdRoundTrip.RoundTrip(off, first + skip + docs, deadlines, t0, t1, id);
  }

  // ---------------------------------------------------------------- what a success hides

  /** Handed over past the buffer's room, the pieces make the buffer go out; the one answer that comes is an
      error. */
  lemma {:induction false} Overflows(c: Ctx, parts: seq<bytes>)
    requires c.held != [] && |c.held| <= CAP < |c.held| + |Flatten(parts)| && c.disk.answers == [-1]
    ensures !AddAll(c, parts).1 && AddAll(c, parts).0.disk.answers == []
    decreases |parts|
  {
    if |c.held| + |parts[0]| <= CAP {
      Overflows(c.(held := c.held + parts[0]), parts[1..]);
    } else {
      assert WriteAll(c.disk, c.held) == (Disk(c.disk.file, []), false) by { assert c.disk.answers[1..] == []; }
    }
  }

  /** What still fits is only kept. */
  lemma {:induction false} Fits(c: Ctx, parts: seq<bytes>)
    requires |c.held| + |Flatten(parts)| <= CAP
    ensures AddAll(c, parts) == (c.(held := c.held + Flatten(parts)), true)
    decreases |parts|
  {
    if parts == [] {
      assert c.held + [] == c.held;
    } else {
      Fits(c.(held := c.held + parts[0]), parts[1..]);
      assert c.held + parts[0] + Flatten(parts[1..]) == c.held + (parts[0] + Flatten(parts[1..]));
    }
  }

  /** A FAILURE FORGOTTEN.  Whenever the buffer first fills up within the skip list's part and that write
      fails, the dump goes on, reports success, and the file is not the snapshot. */
  lemma SkipFailureForgotten(off: nat, first: seq<Record>, skip: seq<Record>, docs: seq<Record>,
                             deadlines: map<Id, int>, now: int)
    requires now >= 0
    requires 8 + |Body(first, deadlines, now)| <= CAP
          < 8 + |Body(first, deadlines, now)| + |Body(skip, deadlines, now)|
    ensures var r := Dump(Ctx(Disk([], [-1]), []), off, first, skip, docs, deadlines, now);
      r.rc == 0 && !r.skipOk && r.ctx.disk.file != File(off, first + skip + docs, deadlines, now)
  {
    hide AllParts, Body, Line, AddAll, Le, WriteAll;
    var c := Ctx(Disk([], [-1]), []);
    var f, s, e := AllParts(first, deadlines, now), AllParts(skip, deadlines, now), AllParts(docs, deadlines, now);
    HeaderSize(off);
    FlattenAppend([Le(off, 8)], f);
    One(Le(off, 8));
    FlattenAll(first, deadlines, now);
    FlattenAll(skip, deadlines, now);
    Fits(c, [Le(off, 8)] + f);
    var c1 := AddAll(c, [Le(off, 8)] + f).0;
    Overflows(c1, s);
    var c2 := AddAll(c1, s).0;
    AddAllExact(c2, e);
    var c3 := AddAll(c2, e).0;
    WriteAllExact(c3.disk, c3.held);
    LosesSomething(off, first, skip, docs, deadlines, now);
  }

  lemma LosesSomething(off: nat, first: seq<Record>, skip: seq<Record>, docs: seq<Record>,
                       deadlines: map<Id, int>, now: int)
    requires now >= 0
    ensures var r := Dump(Ctx(Disk([], [-1]), []), off, first, skip, docs, deadlines, now);
      r.rc == 0 && !r.skipOk ==> r.ctx.disk.file != File(off, first + skip + docs, deadlines, now)
  {
    hide Dump, File, AllParts, Longest;
    var f, s, e := AllParts(first, deadlines, now), AllParts(skip, deadlines, now), AllParts(docs, deadlines, now);
    ShorterFile(Disk([], [-1]), off, first, skip, docs, deadlines, now,
                CAP + Longest(f) + Longest(s) + Longest(e));
  }

  /** The length of the longest piece. */
  function Longest(parts: seq<bytes>): (n: nat)
    ensures forall i :: 0 <= i < |parts| ==> |parts[i]| <= n
  {
    if parts == [] then 0
    else
      var m := Longest(parts[1..]);
      if |parts[0]| > m then |parts[0]| else m
  }

  /** Five skip list entries that a client can store, each command within the 1 MiB input buffer, are
      enough. */
  lemma FiveEntries(v: bytes, docs: seq<Record>)
    requires |v| == 1000000 && Text(v) == v
    ensures var skip := seq(5, i requires 0 <= i < 5 => Record(Id(4, [107 + i as byte]), v));
      var r := Dump(Ctx(Disk([], [-1]), []), 0, [], skip, docs, map[], 0);
      r.rc == 0 && !r.skipOk && r.ctx.disk.file != File(0, [] + skip + docs, map[], 0)
  {
    var skip := seq(5, i requires 0 <= i < 5 => Record(Id(4, [107 + i as byte]), v));
    LongBody(skip, v);
    assert |Body([], map[], 0)| == 0;
    SkipFailureForgotten(0, [], skip, docs, map[], 0);
  }

  lemma {:induction false} LongBody(rs: seq<Record>, v: bytes)
    requires Text(v) == v && forall i :: 0 <= i < |rs| ==> rs[i].val == v
    ensures |Body(rs, map[], 0)| >= |rs| * |v|
  {
    hide Le, Text, TtlSec;
    if rs != [] {
      LongBody(rs[1..], v);
      assert |Line(rs[0], map[], 0)| >= |v|;
      assert |rs| * |v| == |rs[1..]| * |v| + |v|;
    }
  }

  /** The dump with the red-black tree's entries apart: its traversal needs a stack of 256 pointers, and
      without one the tree is passed over. */
  function DumpEngines(c: Ctx, off: nat, first: seq<Record>, tree: seq<Record>, stack: bool, skip: seq<Record>,
                       docs: seq<Record>, deadlines: map<Id, int>, now: int): Dumped
    requires now >= 0
  {
    Dump(c, off, first + if stack then tree else [], skip, docs, deadlines, now)
  }

  /** A TREE FORGOTTEN.  When no write fails a dump reports success, stack or no stack; it wrote the snapshot
      if and only if the stack was there or the tree empty. */
  lemma TreeForgotten(d: Disk, off: nat, first: seq<Record>, tree: seq<Record>, stack: bool, skip: seq<Record>,
                      docs: seq<Record>, deadlines: map<Id, int>, now: int)
    requires now >= 0
    ensures var r := DumpEngines(Ctx(d, []), off, first, tree, stack, skip, docs, deadlines, now);
      Good(d, r.ctx.disk) ==>
        && r.rc == 0
        && (r.ctx.disk.file == d.file + File(off, first + tree + skip + docs, deadlines, now)
            <==> stack || tree == [])
  {
    hide Dump, Good, Body;
    var some := first + if stack then tree else [];
    DumpExact(d, off, some, skip, docs, deadlines, now);
    DumpWrites(d, off, some, skip, docs, deadlines, now);
    if stack || tree == [] {
      assert some == first + tree;
    } else {
      assert some == first;
      assert |File(off, first + skip + docs, deadlines, now)|
           < |File(off, first + tree + skip + docs, deadlines, now)| by {
        BodyAppend(first, skip, deadlines, now);
        BodyAppend(first + skip, docs, deadlines, now);
        BodyAppend(first, tree, deadlines, now);
        BodyAppend(first + tree, skip, deadlines, now);
        BodyAppend(first + tree + skip, docs, deadlines, now);
        BodyPositive(tree, deadlines, now);
      }
    }
  }

  lemma BodyPositive(rs: seq<Record>, deadlines: map<Id, int>, now: int)
    requires now >= 0 && rs != []
    ensures |Body(rs, deadlines, now)| > 0
  {
    hide Le, Text, TtlSec;
    assert |Line(rs[0], deadlines, now)| > 0;
  }

  lemma {:induction false} PartsAppend(a: seq<Record>, b: seq<Record>, deadlines: map<Id, int>, now: int)
    requires now >= 0
    ensures AllParts(a + b, deadlines, now) == AllParts(a, deadlines, now) + AllParts(b, deadlines, now)
  {
    hide Parts;
    if a == [] {
      assert a + b == b;
    } else {
      assert (a + b)[1..] == a[1..] + b;
      PartsAppend(a[1..], b, deadlines, now);
    }
  }

  // ---------------------------------------------------------------- in place

  class DumpCtx {
    var disk: Disk
    const buf: array<byte>
    var pos: nat

    ghost predicate Valid()
      reads this
    {
      buf.Length == CAP && pos <= CAP
    }

    ghost function State(): Ctx
      reads this, buf
      requires Valid()
    {
      Ctx(disk, buf[..pos])
    }

    constructor (d: Disk)
      ensures Valid() && State() == Ctx(d, []) && fresh(buf)
    {
      disk, pos := d, 0;
      buf := new byte[CAP];
    }

    /** The `write` loop: goes on after a short write, gives up after an error. */
    method WriteOut(data: bytes) returns (ok: bool)
      requires Valid()
      modifies this`disk
      ensures (disk, ok) == WriteAll(old(disk), data)
    {
      hide Write;
      var off := 0;
      assert data[0..] == data;
      while off < |data|
        invariant off <= |data| && WriteAll(disk, data[off..]) == WriteAll(old(disk), data)
        decreases |data| - off
      {
        var (d, w) := Write(disk, data[off..]);
        disk := d;
        if w <= 0 { return false; }
        assert data[off..][w..] == data[off + w..];
        off := off + w;
      }
      ok := true;
    }

    /** `dump_flush`. */
    method FlushBuf() returns (ok: bool)
      requires Valid()
      modifies this
      ensures Valid() && (State(), ok) == Flush(old(State()))
    {
      hide WriteAll;
      ok := WriteOut(buf[..pos]);
      if ok { pos := 0; }
    }

    /** `dump_write_buf`. */
    method WriteBuf(data: bytes) returns (ok: bool)
      requires Valid()
      modifies this, buf
      ensures Valid() && (State(), ok) == Add(old(State()), data)
    {
      hide WriteAll;
      if pos + |data| > CAP {
        ok := FlushBuf();
        if !ok { return; }
        if |data| > CAP {
          ok := WriteOut(data);
          return;
        }
      }
      ghost var c := State();
      forall i | 0 <= i < |data| { buf[pos + i] := data[i]; }
      assert buf[..pos] == c.held;
      assert buf[..pos + |data|] == c.held + data;
      pos := pos + |data|;
      ok := true;
      assert State() == c.(held := c.held + data);
      assert [] + data == data;
    }

    /** One record, piece by piece. */
    method WriteRecord(r: Record, deadlines: map<Id, int>, now: int) returns (ok: bool)
      requires Valid() && now >= 0
      modifies this, buf
      ensures Valid() && (State(), ok) == AddAll(old(State()), Parts(r, deadlines, now))
    {
      hide Le, Text, TtlSec, Add;
      var k, v, ttl := Text(r.id.key), Text(r.val), TtlSec(deadlines, r.id, now);
      var parts := [[r.id.engine], [if ttl >= 0 then HAS_EXPIRE else 0], Le(|k|, 4), k, Le(|v|, 4), v];
      if ttl >= 0 { parts := parts + [Le(now + ttl * 1000, 8)]; }
      assert parts == Parts(r, deadlines, now);
      ok := WritePieces(parts);
    }

    method WritePieces(parts: seq<bytes>) returns (ok: bool)
      requires Valid()
      modifies this, buf
      ensures Valid() && (State(), ok) == AddAll(old(State()), parts)
    {
      hide Add;
      var i := 0;
      assert parts[0..] == parts;
      while i < |parts|
        invariant i <= |parts| && Valid() && AddAll(State(), parts[i..]) == AddAll(old(State()), parts)
      {
        assert parts[i..][1..] == parts[i + 1..];
        ok := WriteBuf(parts[i]);
        if !ok { return; }
        i := i + 1;
      }
      ok := true;
    }

    /** The entries of an iteration, until one fails. */
    method WriteRecords(rs: seq<Record>, deadlines: map<Id, int>, now: int) returns (ok: bool)
      requires Valid() && now >= 0
      modifies this, buf
      ensures Valid() && (State(), ok) == AddAll(old(State()), AllParts(rs, deadlines, now))
    {
      hide Add, Parts, AddAll;
      var i := 0;
      assert rs[0..] == rs;
      while i < |rs|
        invariant i <= |rs| && Valid()
        invariant AddAll(State(), AllParts(rs[i..], deadlines, now))
          == AddAll(old(State()), AllParts(rs, deadlines, now))
      {
        assert rs[i..][1..] == rs[i + 1..];
        AddAllSplit(State(), Parts(rs[i], deadlines, now), AllParts(rs[i + 1..], deadlines, now));
        ok := WriteRecord(rs[i], deadlines, now);
        if !ok { return; }
        i := i + 1;
      }
      ok := true;
      NoParts(State());
    }

    /** `kvs_dump_to_fd`; `stack` tells whether the traversal's stack could be allocated. */
    method DumpTo(off: nat, first: seq<Record>, tree: seq<Record>, stack: bool, skip: seq<Record>, docs: seq<Record>,
                  deadlines: map<Id, int>, now: int)
      returns (rc: int, ghost skipOk: bool)
      requires Valid() && now >= 0
      modifies this, buf
      ensures Valid()
      ensures Dumped(State(), rc, skipOk)
           == DumpEngines(old(State()), off, first, tree, stack, skip, docs, deadlines, now)
    {
      hide AllParts, AddAll, Flush, Le;
      skipOk := true;
      ghost var some := first + if stack then tree else [];
      PartsAppend(first, if stack then tree else [], deadlines, now);
      AddAllSplit(State(), [Le(off, 8)], AllParts(some, deadlines, now));
      var ok := WritePieces([Le(off, 8)]);
      if !ok { return -1, true; }
      AddAllSplit(State(), AllParts(first, deadlines, now), AllParts(if stack then tree else [], deadlines, now));
      ok := WriteRecords(first, deadlines, now);
      if !ok { return -1, true; }
      if stack {
        ok := WriteRecords(tree, deadlines, now);
        if !ok { return -1, true; }
      } else {
        NoTree(State(), deadlines, now);
      }
      var ignored := WriteRecords(skip, deadlines, now);
      skipOk := ignored;
      ok := WriteRecords(docs, deadlines, now);
      if !ok { return -1, skipOk; }
      ok := FlushBuf();
      rc := if ok then 0 else -1;
    }
  }

  lemma NoTree(c: Ctx, deadlines: map<Id, int>, now: int)
    requires now >= 0
    ensures AddAll(c, AllParts([], deadlines, now)) == (c, true)
  {
  }

  lemma NoParts(c: Ctx)
    ensures AddAll(c, []) == (c, true)
  {
  }
}
