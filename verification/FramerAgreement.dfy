/** Where the two framers agree, and exactly where they do not. */
module FramerAgreement {
  import opened Bytes
  import opened Framer
  import opened FramerTheorems

  // ---------------------------------------------------------------- number lines

  /** A NUL right behind the digits: the end of the string for the master only. */
  predicate NulHidden(line: bytes) {
    var d := DigitPrefix(line);
    d < |line| && line[d] == 0
  }

  function Digits(line: bytes): bytes {
    line[..DigitPrefix(line)]
  }

  lemma WrapSmall(x: int, modulus: nat)
    requires 0 <= x && 2 * x < modulus
    ensures Wrap(x, modulus) == x
  {
  }

  lemma {:induction false} WrapDecExact(s: bytes, modulus: nat)
    requires forall i :: 0 <= i < |s| ==> IsDigit(s[i])
    requires 2 * Dec(s) < modulus
    ensures WrapDec(s, modulus) == Dec(s)
  {
    if s != [] {
      WrapDecExact(s[..|s| - 1], modulus);
      WrapSmall(Dec(s), modulus);
    }
  }

  /** On a header number that fits an `int`, the framers differ exactly when a NUL hides the rest
      of a line whose digits announce 1 to 32 arguments. */
  lemma ArgcExact(line: bytes)
    requires Dec(Digits(line)) <= INT_MAX
    ensures Argc(Master, line) == Argc(Proxy, line)
       <==> !(NulHidden(line) && 0 < Dec(Digits(line)) <= MAX_ARGC)
  {
    WrapDecExact(Digits(line), INT_MAX * 2 + 2);
    if DigitPrefix(line) == |line| {
      assert Digits(line) == line;
    }
  }

  /** On a length that fits a `long`, the framers differ exactly on a hidden NUL and on a length
      over the proxy's cap. */
  lemma BulkLenExact(line: bytes)
    requires Dec(Digits(line)) <= LONG_MAX
    ensures BulkLen(Master, line) == BulkLen(Proxy, line)
       <==> !NulHidden(line) && (DigitPrefix(line) == |line| ==> Dec(line) <= PROXY_BULK_CAP)
  {
    WrapDecExact(Digits(line), LONG_MAX * 2 + 2);
    if DigitPrefix(line) == |line| {
      assert Digits(line) == line;
    }
  }

  /** The index of the first byte that is not white space. */
  function FirstWord(line: bytes): (f: nat)
    ensures f <= |line|
    ensures forall i :: 0 <= i < f ==> IsSpace(line[i])
    ensures f < |line| ==> !IsSpace(line[f])
  {
    if line == [] || !IsSpace(line[0]) then 0 else 1 + FirstWord(line[1..])
  }

  /** Inline lines differ exactly when their first word starts with a NUL. */
  lemma HasWordExact(line: bytes)
    ensures HasWord(Master, line) == HasWord(Proxy, line)
       <==> !(FirstWord(line) < |line| && line[FirstWord(line)] == 0)
  {
    var f := FirstWord(line);
    if f < |line| {
      assert HasWord(Proxy, line);
      if line[f] == 0 {
        forall i | 0 <= i < |line| && !IsSpace(line[i]) ensures f <= i {}
        assert !HasWord(Master, line);
      }
    }
  }

  // ---------------------------------------------------------------- one bulk string

  predicate CleanArgc(line: bytes) {
    !NulHidden(line) && (DigitPrefix(line) == |line| ==> Dec(line) <= INT_MAX)
  }

  predicate CleanLen(line: bytes) {
    !NulHidden(line) && (DigitPrefix(line) == |line| ==> Dec(line) <= PROXY_BULK_CAP)
  }

  /** The length line at `q` is not visible yet, is rejected for its shape, or is clean. */
  predicate CleanBulk(s: bytes, q: nat) {
    q < |s| && s[q] == DOLLAR ==>
      var lp := CrlfScan(s, q + 1);
      lp + 1 < |s| && lp - (q + 1) < MAX_NUM_LINE ==> CleanLen(s[q + 1..lp])
  }

  predicate CleanBulks(s: bytes, q: nat, n: nat)
    requires q <= |s|
    decreases n
  {
    n > 0 ==>
      CleanBulk(s, q) &&
      (OneBulk(Proxy, s, q).Take? ==> CleanBulks(s, OneBulk(Proxy, s, q).next, n - 1))
  }

  lemma CleanLenAgree(line: bytes)
    requires CleanLen(line)
    ensures BulkLen(Master, line) == BulkLen(Proxy, line)
  {
    if DigitPrefix(line) == |line| {
      assert Digits(line) == line;
      BulkLenExact(line);
    }
  }

  lemma CleanArgcAgree(line: bytes)
    requires CleanArgc(line)
    ensures Argc(Master, line) == Argc(Proxy, line)
  {
    if DigitPrefix(line) == |line| {
      assert Digits(line) == line;
      ArgcExact(line);
    }
  }

  /** The digits of the length line at `q`, when it is visible, fit a C `long`. */
  predicate LenFits(s: bytes, q: nat) {
    q < |s| && CrlfScan(s, q + 1) + 1 < |s| ==> Dec(Digits(s[q + 1..CrlfScan(s, q + 1)])) <= LONG_MAX
  }

  /** A bulk string is framed alike exactly when its length line is clean. */
  lemma OneBulkExact(s: bytes, q: nat)
    requires LenFits(s, q)
    ensures OneBulk(Master, s, q) == OneBulk(Proxy, s, q) <==> CleanBulk(s, q)
  {
    hide BulkLen, NulHidden, Dec;
    if q < |s| && s[q] == DOLLAR && CrlfScan(s, q + 1) + 1 < |s| {
      BulkLenExact(s[q + 1..CrlfScan(s, q + 1)]);
      UncleanLen(s[q + 1..CrlfScan(s, q + 1)]);
    }
  }

  /** Where the lengths differ it is the master that accepts. */
  lemma UncleanLen(line: bytes)
    requires Dec(Digits(line)) <= LONG_MAX
    ensures BulkLen(Master, line) == BulkLen(Proxy, line) ||
            (BulkLen(Master, line).Some? && BulkLen(Proxy, line).None?)
  {
    WrapDecExact(Digits(line), LONG_MAX * 2 + 2);
    if DigitPrefix(line) == |line| {
      assert Digits(line) == line;
    }
  }

  lemma CleanBulkAgree(s: bytes, q: nat)
    requires CleanBulk(s, q)
    ensures OneBulk(Master, s, q) == OneBulk(Proxy, s, q)
  {
    hide BulkLen, CleanLen;
    if q < |s| && s[q] == DOLLAR {
      var lp := CrlfScan(s, q + 1);
      if lp + 1 < |s| && lp - (q + 1) < MAX_NUM_LINE {
        CleanLenAgree(s[q + 1..lp]);
      }
    }
  }

  lemma {:induction false} CleanBulksAgree(s: bytes, q: nat, n: nat)
    requires q <= |s| && CleanBulks(s, q, n)
    ensures Bulks(Master, s, q, n) == Bulks(Proxy, s, q, n)
    decreases n
  {
    hide OneBulk, CleanBulk;
    if n > 0 {
      CleanBulkAgree(s, q);
      if OneBulk(Proxy, s, q).Take? {
        CleanBulksAgree(s, OneBulk(Proxy, s, q).next, n - 1);
      }
    }
  }

  lemma CleanBulkPrefix(a: bytes, b: bytes, q: nat)
    requires CleanBulk(a + b, q)
    ensures CleanBulk(a, q)
  {
    hide CleanLen;
    if q < |a| && a[q] == DOLLAR && CrlfScan(a, q + 1) + 1 < |a| {
      CrlfScanExtend(a, b, q + 1);
      var lp := CrlfScan(a, q + 1);
      assert (a + b)[q + 1..lp] == a[q + 1..lp];
    }
  }

  lemma {:induction false} CleanBulksPrefix(a: bytes, b: bytes, q: nat, n: nat)
    requires q <= |a| && CleanBulks(a + b, q, n)
    ensures CleanBulks(a, q, n)
    decreases n
  {
    hide OneBulk, CleanBulk;
    if n > 0 {
      CleanBulkPrefix(a, b, q);
      if OneBulk(Proxy, a, q).Take? {
        OneBulkExtend(Proxy, a, b, q);
        CleanBulksPrefix(a, b, OneBulk(Proxy, a, q).next, n - 1);
      }
    }
  }

  // ---------------------------------------------------------------- one step

  predicate CleanArray(s: bytes, pos: nat)
    requires pos < |s|
  {
    var p := CrlfScan(s, pos + 1);
    p + 1 < |s| && p - (pos + 1) < MAX_NUM_LINE ==>
      var line := s[pos + 1..p];
      CleanArgc(line) &&
      (Argc(Proxy, line).Some? ==> CleanBulks(s, p + 2, Argc(Proxy, line).value))
  }

  predicate CleanInline(s: bytes, pos: nat)
    requires pos < |s|
  {
    var e := LfScan(s, pos);
    e < |s| ==>
      var line := Line(s, pos, e);
      FirstWord(line) < |line| ==> line[FirstWord(line)] != 0
  }

  /** Neither side can misread what starts at `pos`: no '+' line, no hidden NUL, no number out of
      range among the lines the framers get to read. */
  predicate CleanStep(s: bytes, pos: nat)
    requires pos < |s|
  {
    if s[pos] == STAR then CleanArray(s, pos)
    else s[pos] != PLUS && CleanInline(s, pos)
  }

  lemma CleanArrayAgree(s: bytes, pos: nat)
    requires pos < |s| && CleanArray(s, pos)
    ensures ArrayStep(Master, s, pos) == ArrayStep(Proxy, s, pos)
  {
    hide Argc, CleanArgc, Bulks, CleanBulks;
    var p := CrlfScan(s, pos + 1);
    if p + 1 < |s| && p - (pos + 1) < MAX_NUM_LINE {
      var line := s[pos + 1..p];
      CleanArgcAgree(line);
      if Argc(Proxy, line).Some? {
        CleanBulksAgree(s, p + 2, Argc(Proxy, line).value);
      }
    }
  }

  lemma CleanStepAgree(s: bytes, pos: nat)
    requires pos < |s| && CleanStep(s, pos)
    ensures Step(Master, s, pos) == Step(Proxy, s, pos)
  {
    hide ArrayStep, CleanArray, HasWord;
    if s[pos] == STAR {
      CleanArrayAgree(s, pos);
    } else if LfScan(s, pos) < |s| {
      HasWordExact(Line(s, pos, LfScan(s, pos)));
    }
  }

  // ---------------------------------------------------------------- exactly when one step agrees

  /** The length lines the proxy gets to read fit a C `long`. */
  predicate LensFit(s: bytes, q: nat, n: nat)
    requires q <= |s|
    decreases n
  {
    n > 0 ==>
      LenFits(s, q) && (OneBulk(Proxy, s, q).Take? ==> LensFit(s, OneBulk(Proxy, s, q).next, n - 1))
  }

  /** An unclean length line: the proxy gives up at once, the master does not. */
  lemma UncleanBulk(s: bytes, q: nat)
    requires LenFits(s, q) && !CleanBulk(s, q)
    ensures OneBulk(Proxy, s, q) == Skip(q) && OneBulk(Master, s, q) != Skip(q)
  {
    hide BulkLen, NulHidden, Dec;
    BulkLenExact(s[q + 1..CrlfScan(s, q + 1)]);
    UncleanLen(s[q + 1..CrlfScan(s, q + 1)]);
  }

  /** A framer that gives up at the first bulk string does so there. */
  lemma BulksSkip(side: Side, s: bytes, q: nat, n: nat)
    requires q <= |s| && n > 0
    ensures Bulks(side, s, q, n) == Skip(q) <==> OneBulk(side, s, q) == Skip(q)
  {
    hide BulkLen;
  }

  /** The bulk strings of a command are framed alike exactly when their length lines are clean. */
  lemma {:induction false} BulksExact(s: bytes, q: nat, n: nat)
    requires q <= |s| && LensFit(s, q, n)
    ensures Bulks(Master, s, q, n) == Bulks(Proxy, s, q, n) <==> CleanBulks(s, q, n)
    decreases n
  {
    hide OneBulk, CleanBulk, LenFits;
    if n > 0 {
      OneBulkExact(s, q);
      if !CleanBulk(s, q) {
        UncleanBulk(s, q);
        BulksSkip(Master, s, q, n);
      } else if OneBulk(Proxy, s, q).Take? {
        BulksExact(s, OneBulk(Proxy, s, q).next, n - 1);
      }
    }
  }

  /** Only the master accepts the header line. */
  predicate HiddenArgc(line: bytes) {
    NulHidden(line) && 0 < Dec(Digits(line)) <= MAX_ARGC
  }

  /** No bulk string the master would read: another byte than the dollar sign, or a complete length line that
      is too long, or not digits up to its end or a NUL, or a number that wraps around to a negative one. */
  predicate NoBulkAt(s: bytes, q: nat) {
    && q < |s|
    && (s[q] == DOLLAR ==>
          var lp := CrlfScan(s, q + 1);
          && lp + 1 < |s|
          && (lp - (q + 1) < MAX_NUM_LINE ==>
                var line := s[q + 1..lp];
                !MasterNumber(line) || WrapDec(Digits(line), LONG_MAX * 2 + 2) < 0))
  }

  lemma NoBulkExact(s: bytes, q: nat)
    requires q <= |s|
    ensures OneBulk(Master, s, q) == Skip(q) <==> NoBulkAt(s, q)
  {
    hide MasterNumber, WrapDec;
  }

  /** What decides whether an array is framed alike: after a header only the master accepts there must be no
      bulk string it would read; after any other header the length lines must be clean. */
  predicate AlikeArray(s: bytes, pos: nat)
    requires pos < |s|
  {
    var p := CrlfScan(s, pos + 1);
    p + 1 < |s| && p - (pos + 1) < MAX_NUM_LINE ==>
      var line := s[pos + 1..p];
      if HiddenArgc(line) then NoBulkAt(s, p + 2)
      else Argc(Proxy, line).Some? ==> CleanBulks(s, p + 2, Argc(Proxy, line).value)
  }

  /** The numbers on the way fit. */
  predicate ArrayFits(s: bytes, pos: nat)
    requires pos < |s|
  {
    var p := CrlfScan(s, pos + 1);
    p + 1 < |s| ==>
      var line := s[pos + 1..p];
      && Dec(Digits(line)) <= INT_MAX
      && (Argc(Proxy, line).Some? ==> LensFit(s, p + 2, Argc(Proxy, line).value))
  }

  lemma ArrayExact(s: bytes, pos: nat)
    requires pos < |s| && ArrayFits(s, pos)
    ensures ArrayStep(Master, s, pos) == ArrayStep(Proxy, s, pos) <==> AlikeArray(s, pos)
  {
    hide OneBulk, Bulks, CleanBulks, LensFit, NoBulkAt, NulHidden, Argc, Dec, Digits;
    var p := CrlfScan(s, pos + 1);
    if p + 1 < |s| && p - (pos + 1) < MAX_NUM_LINE {
      var line := s[pos + 1..p];
      ArgcExact(line);
      HeaderSides(line);
      if HiddenArgc(line) {
        BulksSkip(Master, s, p + 2, Argc(Master, line).value);
        NoBulkExact(s, p + 2);
      } else if Argc(Proxy, line).Some? {
        BulksExact(s, p + 2, Argc(Proxy, line).value);
      }
    }
  }

  /** Where the headers differ it is the master that accepts. */
  lemma HeaderSides(line: bytes)
    requires Dec(Digits(line)) <= INT_MAX
    ensures HiddenArgc(line) ==> Argc(Master, line).Some? && Argc(Master, line).value > 0 && Argc(Proxy, line).None?
  {
    WrapDecExact(Digits(line), INT_MAX * 2 + 2);
  }

  predicate AlikeStep(s: bytes, pos: nat)
    requires pos < |s|
  {
    if s[pos] == STAR then AlikeArray(s, pos)
    else if s[pos] == PLUS then CrlfScan(s, pos + 1) + 1 < |s|
    else CleanInline(s, pos)
  }

  /** WHERE THEY AGREE, EXACTLY.  On numbers that fit, the two framers take the same step if and only if: an
      array is alike as above, a control line ends in the buffer, the first word of an inline line does
      not start with a NUL. */
  lemma StepExact(s: bytes, pos: nat)
    requires pos < |s| && (s[pos] == STAR ==> ArrayFits(s, pos))
    ensures Step(Master, s, pos) == Step(Proxy, s, pos) <==> AlikeStep(s, pos)
  {
    hide ArrayStep, AlikeArray, ArrayFits, HasWord;
    if s[pos] == STAR {
      ArrayExact(s, pos);
    } else if s[pos] != PLUS && LfScan(s, pos) < |s| {
      HasWordExact(Line(s, pos, LfScan(s, pos)));
    }
  }

  /** A step both framers take alike with the numbers in range, and so on to the end of the buffer. */
  ghost predicate AlikeRun(s: bytes, pos: nat)
    requires pos <= |s|
    decreases |s| - pos
  {
    pos < |s| ==>
      && (s[pos] == STAR ==> ArrayFits(s, pos)) && AlikeStep(s, pos)
      && match Step(Proxy, s, pos)
         case Skip(n) => AlikeRun(s, n)
         case Take(n) => AlikeRun(s, n)
         case _ => true
  }

  /** A buffer is framed alike when each of its steps is. */
  lemma {:induction false} AlikeRuns(s: bytes, pos: nat)
    requires pos <= |s| && AlikeRun(s, pos)
    ensures Run(Master, s, pos) == Run(Proxy, s, pos)
    decreases |s| - pos
  {
    hide Step, AlikeStep, ArrayFits;
    if pos < |s| {
      StepExact(s, pos);
      match Step(Proxy, s, pos)
      case Skip(n) => AlikeRuns(s, n);
      case Take(n) => AlikeRuns(s, n);
      case _ =>
    }
  }

  lemma CleanArrayPrefix(a: bytes, b: bytes, pos: nat)
    requires pos < |a| && CleanArray(a + b, pos)
    ensures CleanArray(a, pos)
  {
    hide Argc, CleanArgc, CleanBulks;
    var p := CrlfScan(a, pos + 1);
    if p + 1 < |a| && p - (pos + 1) < MAX_NUM_LINE {
      CrlfScanExtend(a, b, pos + 1);
      assert (a + b)[pos + 1..p] == a[pos + 1..p];
      if Argc(Proxy, a[pos + 1..p]).Some? {
        CleanBulksPrefix(a, b, p + 2, Argc(Proxy, a[pos + 1..p]).value);
      }
    }
  }

  lemma CleanStepPrefix(a: bytes, b: bytes, pos: nat)
    requires pos < |a| && CleanStep(a + b, pos)
    ensures CleanStep(a, pos)
  {
    hide CleanArray, FirstWord;
    assert (a + b)[pos] == a[pos];
    if a[pos] == STAR {
      CleanArrayPrefix(a, b, pos);
    } else if LfScan(a, pos) < |a| {
      LfScanExtend(a, b, pos);
      assert Line(a + b, pos, LfScan(a, pos)) == Line(a, pos, LfScan(a, pos));
    }
  }

  // ---------------------------------------------------------------- streams

  /** Every step of the run over `s` from `pos` is clean. */
  ghost predicate CleanRun(s: bytes, pos: nat)
    requires pos <= |s|
    decreases |s| - pos
  {
    pos == |s| ||
    (CleanStep(s, pos) &&
     match Step(Proxy, s, pos)
     case Wait => true
     case Stop(_) => true
     case Skip(n) => CleanRun(s, n)
     case Take(n) => CleanRun(s, n))
  }

  lemma {:induction false} CleanRunAgree(s: bytes, pos: nat)
    requires pos <= |s| && CleanRun(s, pos)
    ensures Calm(Master, s, pos) && Calm(Proxy, s, pos)
    ensures Run(Master, s, pos) == Run(Proxy, s, pos)
    decreases |s| - pos
  {
    hide Step, CleanArray, CleanInline;
    if pos < |s| {
      CleanStepAgree(s, pos);
      NoStop(Proxy, s, pos);
      match Step(Proxy, s, pos)
      case Wait =>
      case Stop(n) => assert false;
      case Skip(n) => CleanRunAgree(s, n);
      case Take(n) => CleanRunAgree(s, n);
    }
  }

  lemma {:induction false} CleanRunPrefix(a: bytes, b: bytes, pos: nat)
    requires pos <= |a| && CleanRun(a + b, pos)
    ensures CleanRun(a, pos)
    decreases |a| - pos
  {
    hide Step, CleanStep;
    if pos < |a| {
      CleanStepPrefix(a, b, pos);
      match Step(Proxy, a, pos)
      case Wait =>
      case Stop(n) =>
      case Skip(n) => StepExtend(Proxy, a, b, pos); CleanRunPrefix(a, b, n);
      case Take(n) => StepExtend(Proxy, a, b, pos); CleanRunPrefix(a, b, n);
    }
  }

  /** The commands of a prefix are a prefix of the commands. */
  lemma CmdsPrefix(side: Side, a: bytes, s: bytes)
    requires a <= s && Calm(side, s, 0)
    ensures Cmds(side, a) <= Cmds(side, s)
  {
    hide Run, Calm;
    assert a + s[|a|..] == s;
    RunExtend(side, a, s[|a|..], 0);
  }

  /** What either side frames from any part of a clean stream, cut in any way. */
  lemma FeedClean(side: Side, stream: bytes, chunks: seq<bytes>)
    requires CleanRun(stream, 0) && Flatten(chunks) <= stream
    ensures Feed(side, [], chunks) == (Cmds(Master, Flatten(chunks)), Tail(Master, Flatten(chunks)))
    ensures Cmds(Master, Flatten(chunks)) <= Cmds(Master, stream)
  {
    hide Run, Calm, CleanRun;
    var a := Flatten(chunks);
    assert a + stream[|a|..] == stream && [] + a == a;
    CleanRunPrefix(a, stream[|a|..], 0);
    CleanRunAgree(a, 0);
    CleanRunAgree(stream, 0);
    EmptyRun(side);
    ChunkIndependence(side, [], chunks);
    CmdsPrefix(Master, a, stream);
  }

  lemma EmptyRun(side: Side)
    ensures Run(side, [], 0) == ([], 0)
  {
  }

  /** AGREEMENT.  Over a clean stream, however each side's receives cut it and however far each
      side has read, the k-th command the proxy frames is the k-th command the master numbers, and
      sides that have read equally far have framed the same commands and hold the same tail. */
  lemma Agreement(stream: bytes, master: seq<bytes>, proxy: seq<bytes>)
    requires CleanRun(stream, 0)
    requires Flatten(master) <= stream && Flatten(proxy) <= stream
    ensures var m, x := Feed(Master, [], master), Feed(Proxy, [], proxy);
      && (forall k :: 0 <= k < |m.0| && k < |x.0| ==> m.0[k] == x.0[k])
      && m.0 <= Cmds(Master, stream) && x.0 <= Cmds(Master, stream)
      && (Flatten(master) == Flatten(proxy) ==> m == x)
  {
    hide Run, CleanRun, Feed;
    FeedClean(Master, stream, master);
    FeedClean(Proxy, stream, proxy);
  }
}
