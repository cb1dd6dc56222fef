/** What the two framers guarantee: independence of chunking, and agreement. */
module FramerTheorems {
  import opened Bytes
  import opened Framer

  // ---------------------------------------------------------------- more bytes do not change a decision

  lemma CrlfScanExtend(a: bytes, b: bytes, p: nat)
    requires CrlfScan(a, p) + 1 < |a|
    ensures CrlfScan(a + b, p) == CrlfScan(a, p)
  {
    assert forall i :: 0 <= i && i + 1 < |a| ==> (CrlfAt(a + b, i) <==> CrlfAt(a, i));
    assert CrlfAt(a + b, CrlfScan(a, p));
  }

  lemma LfScanExtend(a: bytes, b: bytes, p: nat)
    requires p <= |a| && LfScan(a, p) < |a|
    ensures LfScan(a + b, p) == LfScan(a, p)
  {
    assert (a + b)[LfScan(a, p)] == LF;
    assert forall i :: 0 <= i < |a| ==> (a + b)[i] == a[i];
  }

  lemma OneBulkExtend(side: Side, a: bytes, b: bytes, q: nat)
    requires !OneBulk(side, a, q).Wait?
    ensures OneBulk(side, a + b, q) == OneBulk(side, a, q)
  {
    hide BulkLen;
    if a[q] == DOLLAR {
      var lp := CrlfScan(a, q + 1);
      CrlfScanExtend(a, b, q + 1);
      assert (a + b)[q + 1..lp] == a[q + 1..lp];
    }
  }

  lemma {:induction false} BulksExtend(side: Side, a: bytes, b: bytes, q: nat, n: nat)
    requires q <= |a| && !Bulks(side, a, q, n).Wait?
    ensures Bulks(side, a + b, q, n) == Bulks(side, a, q, n)
    decreases n
  {
    hide OneBulk;
    if n > 0 {
      OneBulkExtend(side, a, b, q);
      if OneBulk(side, a, q).Take? {
        BulksExtend(side, a, b, OneBulk(side, a, q).next, n - 1);
      }
    }
  }

  lemma ArrayExtend(side: Side, a: bytes, b: bytes, pos: nat)
    requires pos < |a| && !ArrayStep(side, a, pos).Wait?
    ensures ArrayStep(side, a + b, pos) == ArrayStep(side, a, pos)
  {
    hide Argc, BulkLen, Bulks;
    var p := CrlfScan(a, pos + 1);
    CrlfScanExtend(a, b, pos + 1);
    assert (a + b)[pos + 1..p] == a[pos + 1..p];
    if p - (pos + 1) < MAX_NUM_LINE && Argc(side, a[pos + 1..p]).Some? {
      BulksExtend(side, a, b, p + 2, Argc(side, a[pos + 1..p]).value);
    }
  }

  lemma InlineExtend(side: Side, a: bytes, b: bytes, pos: nat)
    requires pos < |a| && !InlineStep(side, a, pos).Wait?
    ensures InlineStep(side, a + b, pos) == InlineStep(side, a, pos)
  {
    hide HasWord;
    LfScanExtend(a, b, pos);
    assert Line(a + b, pos, LfScan(a, pos)) == Line(a, pos, LfScan(a, pos));
  }

  lemma StepExtend(side: Side, a: bytes, b: bytes, pos: nat)
    requires pos < |a|
    requires Step(side, a, pos).Skip? || Step(side, a, pos).Take?
    ensures Step(side, a + b, pos) == Step(side, a, pos)
  {
    hide ArrayStep, InlineStep;
    assert (a + b)[pos] == a[pos];
    if a[pos] == STAR {
      ArrayExtend(side, a, b, pos);
    } else if a[pos] == PLUS {
      CrlfScanExtend(a, b, pos + 1);
    } else {
      InlineExtend(side, a, b, pos);
    }
  }

  // ---------------------------------------------------------------- a step depends only on what follows it

  function Shift(o: Outcome, k: nat): Outcome {
    match o
    case Wait => Wait
    case Stop(n) => Stop(k + n)
    case Skip(n) => Skip(k + n)
    case Take(n) => Take(k + n)
  }

  lemma SliceShift(x: bytes, s: bytes, i: nat, j: nat)
    requires i <= j <= |s|
    ensures (x + s)[|x| + i..|x| + j] == s[i..j]
  {
  }

  lemma {:induction false} CrlfScanShift(x: bytes, s: bytes, p: nat)
    ensures CrlfScan(x + s, |x| + p) == |x| + CrlfScan(s, p)
    decreases |s| - p
  {
    assert CrlfAt(x + s, |x| + p) <==> CrlfAt(s, p);
    if p + 1 < |s| && !CrlfAt(s, p) {
      CrlfScanShift(x, s, p + 1);
    }
  }

  lemma {:induction false} LfScanShift(x: bytes, s: bytes, p: nat)
    requires p <= |s|
    ensures LfScan(x + s, |x| + p) == |x| + LfScan(s, p)
    decreases |s| - p
  {
    if p < |s| && s[p] != LF {
      LfScanShift(x, s, p + 1);
    }
  }

  lemma OneBulkShift(side: Side, x: bytes, s: bytes, q: nat)
    ensures OneBulk(side, x + s, |x| + q) == Shift(OneBulk(side, s, q), |x|)
  {
    hide BulkLen, CrlfScan;
    if q < |s| && s[q] == DOLLAR {
      var lp := CrlfScan(s, q + 1);
      CrlfScanShift(x, s, q + 1);
      if lp + 1 < |s| {
        SliceShift(x, s, q + 1, lp);
      }
    }
  }

  lemma {:induction false} BulksShift(side: Side, x: bytes, s: bytes, q: nat, n: nat)
    requires q <= |s|
    ensures Bulks(side, x + s, |x| + q, n) == Shift(Bulks(side, s, q, n), |x|)
    decreases n
  {
    hide OneBulk;
    if n > 0 {
      OneBulkShift(side, x, s, q);
      if OneBulk(side, s, q).Take? {
        BulksShift(side, x, s, OneBulk(side, s, q).next, n - 1);
      }
    }
  }

  lemma ArrayShift(side: Side, x: bytes, s: bytes, pos: nat)
    requires pos < |s|
    ensures ArrayStep(side, x + s, |x| + pos) == Shift(ArrayStep(side, s, pos), |x|)
  {
    hide Argc, Bulks;
    var p := CrlfScan(s, pos + 1);
    CrlfScanShift(x, s, pos + 1);
    if p + 1 < |s| {
      assert (x + s)[|x| + pos + 1..|x| + p] == s[pos + 1..p];
      if p - (pos + 1) < MAX_NUM_LINE && Argc(side, s[pos + 1..p]).Some? {
        BulksShift(side, x, s, p + 2, Argc(side, s[pos + 1..p]).value);
      }
    }
  }

  lemma LineShift(x: bytes, s: bytes, pos: nat, e: nat)
    requires pos <= e <= |s|
    ensures Line(x + s, |x| + pos, |x| + e) == Line(s, pos, e)
  {
    SliceShift(x, s, pos, e);
    if e > pos {
      assert (x + s)[|x| + e - 1] == s[e - 1];
      SliceShift(x, s, pos, e - 1);
    }
  }

  lemma InlineShift(side: Side, x: bytes, s: bytes, pos: nat)
    requires pos < |s|
    ensures InlineStep(side, x + s, |x| + pos) == Shift(InlineStep(side, s, pos), |x|)
  {
    hide HasWord, LfScan;
    var e := LfScan(s, pos);
    LfScanShift(x, s, pos);
    LineShift(x, s, pos, e);
  }

  lemma StepShift(side: Side, x: bytes, s: bytes, pos: nat)
    requires pos < |s|
    ensures Step(side, x + s, |x| + pos) == Shift(Step(side, s, pos), |x|)
  {
    hide ArrayStep, InlineStep;
    assert (x + s)[|x| + pos] == s[pos];
    if s[pos] == STAR {
      ArrayShift(side, x, s, pos);
    } else if s[pos] == PLUS {
      CrlfScanShift(x, s, pos + 1);
    } else {
      InlineShift(side, x, s, pos);
    }
  }

  lemma {:induction false} RunShift(side: Side, x: bytes, s: bytes, pos: nat)
    requires pos <= |s|
    ensures Run(side, x + s, |x| + pos) == (Run(side, s, pos).0, |x| + Run(side, s, pos).1)
    decreases |s| - pos
  {
    hide Step;
    if pos < |s| {
      StepShift(side, x, s, pos);
      match Step(side, s, pos)
      case Wait =>
      case Stop(n) =>
      case Skip(n) => RunShift(side, x, s, n);
      case Take(n) =>
        RunShift(side, x, s, n);
        assert (x + s)[|x| + pos..|x| + n] == s[pos..n];
    }
  }

  // ---------------------------------------------------------------- chunk independence

  /** No '+' line reaches the master's framer; the proxy's framer has no such restriction. */
  ghost predicate Calm(side: Side, s: bytes, pos: nat)
    requires pos <= |s|
    decreases |s| - pos
  {
    pos == |s| ||
    ((side == Master ==> s[pos] != PLUS) &&
     match Step(side, s, pos)
     case Wait => true
     case Stop(_) => true
     case Skip(n) => Calm(side, s, n)
     case Take(n) => Calm(side, s, n))
  }

  lemma NoStop(side: Side, s: bytes, pos: nat)
    requires pos < |s| && (side == Master ==> s[pos] != PLUS)
    ensures !Step(side, s, pos).Stop?
  {
    hide ArrayStep, InlineStep;
  }

  /** Framing a longer buffer first frames the shorter one and then goes on from its tail. */
  lemma {:induction false} RunExtend(side: Side, a: bytes, b: bytes, pos: nat)
    requires pos <= |a| && Calm(side, a + b, pos)
    ensures var p := Run(side, a, pos).1;
      && Calm(side, a + b, p)
      && Run(side, a + b, pos) == (Run(side, a, pos).0 + Run(side, a + b, p).0, Run(side, a + b, p).1)
    decreases |a| - pos
  {
    hide Step;
    if pos == |a| {
      assert [] + Run(side, a + b, pos).0 == Run(side, a + b, pos).0;
    } else {
      assert (a + b)[pos] == a[pos];
      match Step(side, a, pos)
      case Wait =>
        assert [] + Run(side, a + b, pos).0 == Run(side, a + b, pos).0;
      case Stop(n) =>
        NoStop(side, a, pos);
        assert false;
      case Skip(n) =>
        StepExtend(side, a, b, pos);
        RunExtend(side, a, b, n);
      case Take(n) =>
        StepExtend(side, a, b, pos);
        RunExtend(side, a, b, n);
        assert (a + b)[pos..n] == a[pos..n];
        var p := Run(side, a, pos).1;
        assert [a[pos..n]] + (Run(side, a, n).0 + Run(side, a + b, p).0)
            == [a[pos..n]] + Run(side, a, n).0 + Run(side, a + b, p).0;
    }
  }

  lemma {:induction false} CalmShift(side: Side, x: bytes, s: bytes, pos: nat)
    requires pos <= |s|
    ensures Calm(side, x + s, |x| + pos) == Calm(side, s, pos)
    decreases |s| - pos
  {
    hide Step;
    if pos < |s| {
      StepShift(side, x, s, pos);
      match Step(side, s, pos)
      case Wait =>
      case Stop(n) =>
      case Skip(n) => CalmShift(side, x, s, n);
      case Take(n) => CalmShift(side, x, s, n);
    }
  }

  /** One more chunk `b`: its commands come from the old tail with `b` behind it. */
  lemma RunChunk(side: Side, a: bytes, b: bytes)
    requires Calm(side, a + b, 0)
    ensures Calm(side, Tail(side, a) + b, 0)
    ensures Cmds(side, a + b) == Cmds(side, a) + Cmds(side, Tail(side, a) + b)
    ensures Tail(side, a + b) == Tail(side, Tail(side, a) + b)
  {
    hide Run, Calm;
    var p := Run(side, a, 0).1;
    var s := a[p..] + b;
    RunExtend(side, a, b, 0);
    assert a + b == a[..p] + s && |a[..p]| == p;
    RunShift(side, a[..p], s, 0);
    CalmShift(side, a[..p], s, 0);
    var q := Run(side, s, 0).1;
    assert (a[..p] + s)[p + q..] == s[q..];
  }

  /** However the bytes are cut into receives, the same commands are framed and the same tail is
      left as when they all arrive at once. */
  lemma {:induction false} ChunkIndependence(side: Side, buf: bytes, chunks: seq<bytes>)
    requires Run(side, buf, 0) == ([], 0)
    requires Calm(side, buf + Flatten(chunks), 0)
    ensures var s := buf + Flatten(chunks);
      Feed(side, buf, chunks) == (Cmds(side, s), Tail(side, s))
    decreases |chunks|
  {
    hide Step, Calm;
    if chunks == [] {
      assert buf + Flatten(chunks) == buf;
    } else {
      var a := buf + chunks[0];
      var b := Flatten(chunks[1..]);
      assert buf + Flatten(chunks) == a + b;
      RunChunk(side, a, b);
      CalmPrefix(side, a, b, 0);
      RunTail(side, a, 0);
      ChunkIndependence(side, Tail(side, a), chunks[1..]);
    }
  }

  lemma CalmPrefix(side: Side, a: bytes, b: bytes, pos: nat)
    requires pos <= |a| && Calm(side, a + b, pos)
    ensures Calm(side, a, pos)
    decreases |a| - pos
  {
    hide Step;
    if pos < |a| {
      assert (a + b)[pos] == a[pos];
      match Step(side, a, pos)
      case Wait =>
      case Stop(n) =>
      case Skip(n) => StepExtend(side, a, b, pos); CalmPrefix(side, a, b, n);
      case Take(n) => StepExtend(side, a, b, pos); CalmPrefix(side, a, b, n);
    }
  }

  /** What is left after framing holds no complete command. */
  lemma {:induction false} RunTail(side: Side, s: bytes, pos: nat)
    requires pos <= |s| && Calm(side, s, pos)
    ensures Run(side, s[Run(side, s, pos).1..], 0) == ([], 0)
    decreases |s| - pos
  {
    hide Step;
    var p := Run(side, s, pos).1;
    if pos < |s| {
      match Step(side, s, pos)
      case Wait =>
        assert s[..pos] + s[pos..] == s;
        StepShift(side, s[..pos], s[pos..], 0);
      case Stop(n) =>
        NoStop(side, s, pos);
        assert false;
      case Skip(n) => RunTail(side, s, n);
      case Take(n) => RunTail(side, s, n);
    }
  }
}
