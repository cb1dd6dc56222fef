/** The framing loops as the two programs run them, each proved against `Framer.Step`. */
module FramerLoops {
  import opened Bytes
  import opened Framer
  import opened FramerAgreement

  lemma {:induction false} DecMonotone(s: bytes, i: nat)
    requires forall k :: 0 <= k < |s| ==> IsDigit(s[k])
    requires i <= |s|
    ensures Dec(s[..i]) <= Dec(s)
  {
    if i == |s| {
      assert s[..i] == s;
    } else {
      assert IsDigit(s[|s| - 1]);
      assert s[..|s| - 1][..i] == s[..i];
      DecMonotone(s[..|s| - 1], i);
    }
  }

  lemma DigitPrefixStop(s: bytes, d: nat)
    requires d <= |s| && (forall k :: 0 <= k < d ==> IsDigit(s[k]))
    requires d < |s| ==> !IsDigit(s[d])
    ensures DigitPrefix(s) == d
  {
  }

  /** `while (p + 1 < len && !(buf[p] == '\r' && buf[p + 1] == '\n')) p++;` */
  method ScanCrlf(s: bytes, start: nat) returns (p: nat)
    ensures p == CrlfScan(s, start)
  {
    p := start;
    while p + 1 < |s| && !(s[p] == CR && s[p + 1] == LF)
      invariant start <= p
      invariant CrlfScan(s, start) == CrlfScan(s, p)
      decreases |s| - p
    {
      p := p + 1;
    }
  }

  method ScanLf(s: bytes, start: nat) returns (e: nat)
    requires start <= |s|
    ensures e == LfScan(s, start)
  {
    e := start;
    while e < |s| && s[e] != LF
      invariant start <= e <= |s|
      invariant LfScan(s, start) == LfScan(s, e)
      decreases |s| - e
    {
      e := e + 1;
    }
  }

  // ---------------------------------------------------------------- proxy

  /** The proxy's digit loop: gives up on a byte that is no digit or a value over `limit`. */
  method ProxyNumber(line: bytes, limit: nat) returns (ok: bool, v: nat)
    ensures ok <==> DigitPrefix(line) == |line| && Dec(line) <= limit
    ensures ok ==> v == Dec(line)
  {
    v := 0;
    var i := 0;
    assert line[..0] == [];
    while i < |line|
      invariant i <= |line| && forall k :: 0 <= k < i ==> IsDigit(line[k])
      invariant v == Dec(line[..i]) <= limit
    {
      if !IsDigit(line[i]) {
        DigitPrefixStop(line, i);
        return false, v;
      }
      assert line[..i + 1][..i] == line[..i];
      v := v * 10 + (line[i] - ZERO);
      i := i + 1;
      if v > limit {
        if DigitPrefix(line) == |line| {
          DecMonotone(line, i);
        }
        return false, v;
      }
    }
    assert line[..i] == line;
    DigitPrefixStop(line, i);
    ok := true;
  }

  method ProxyHasWord(line: bytes) returns (argc: nat)
    ensures argc > 0 <==> HasWord(Proxy, line)
  {
    argc := 0;
    var x := 0;
    while x < |line|
      invariant x <= |line|
      invariant argc > 0 <==> exists i :: 0 <= i < x && !IsSpace(line[i])
    {
      ghost var x0 := x;
      while x < |line| && IsSpace(line[x])
        invariant x0 <= x <= |line|
        invariant forall i :: x0 <= i < x ==> IsSpace(line[i])
      {
        x := x + 1;
      }
      if x >= |line| { break; }
      argc := argc + 1;
      ghost var w := x;
      while x < |line| && !IsSpace(line[x])
        invariant w <= x <= |line|
        invariant x == w ==> !IsSpace(line[w])
        invariant x > w ==> !IsSpace(line[w])
        decreases |line| - x
      {
        x := x + 1;
      }
      assert !IsSpace(line[w]) && w < x;
    }
    assert HasWord(Proxy, line) <==> exists i :: 0 <= i < |line| && !IsSpace(line[i]);
  }

  method ProxyBulk(s: bytes, q: nat) returns (o: Outcome)
    ensures o == OneBulk(Proxy, s, q)
  {
    if q >= |s| { return Wait; }
    if s[q] != DOLLAR { return Skip(q); }
    var lp := ScanCrlf(s, q + 1);
    if lp + 1 >= |s| { return Wait; }
    if lp - (q + 1) >= MAX_NUM_LINE { return Skip(q); }
    var ok, len := ProxyNumber(s[q + 1..lp], PROXY_BULK_CAP);
    if !ok { return Skip(q); }
    var e := lp + 2;
    if e + len + 2 > |s| { return Wait; }
    e := e + len;
    if !(s[e] == CR && s[e + 1] == LF) { return Skip(e); }
    o := Take(e + 2);
  }

  method ProxyBulks(s: bytes, start: nat, argc: nat) returns (o: Outcome)
    requires start <= |s|
    ensures o == Bulks(Proxy, s, start, argc)
  {
    hide OneBulk;
    var q: nat := start;
    for i := 0 to argc
      invariant q <= |s|
      invariant Bulks(Proxy, s, start, argc) == Bulks(Proxy, s, q, argc - i)
    {
      o := ProxyBulk(s, q);
      if !o.Take? { return; }
      q := o.next;
    }
    o := Take(q);
  }

  /** One turn of `pc_frame_ctx`'s loop. */
  method ProxyStep(s: bytes, pos: nat) returns (o: Outcome)
    requires pos < |s|
    ensures o == Step(Proxy, s, pos)
  {
    hide ArrayStep, InlineStep;
    if s[pos] == STAR {
      o := ProxyArray(s, pos);
    } else if s[pos] == PLUS {
      var p := ScanCrlf(s, pos + 1);
      if p + 1 >= |s| { return Wait; }
      o := Skip(p + 2);
    } else {
      o := ProxyInline(s, pos);
    }
  }

  method ProxyArray(s: bytes, pos: nat) returns (o: Outcome)
    requires pos < |s|
    ensures o == ArrayStep(Proxy, s, pos)
  {
    hide CrlfScan, Bulks;
    var p := ScanCrlf(s, pos + 1);
    if p + 1 >= |s| { return Wait; }
    if p - (pos + 1) >= MAX_NUM_LINE { return Skip(p + 2); }
    var ok, argc := ProxyNumber(s[pos + 1..p], 1000000);
    if !ok || argc == 0 || argc > MAX_ARGC { return Skip(p + 2); }
    o := ProxyBulks(s, p + 2, argc);
  }

  method ProxyInline(s: bytes, pos: nat) returns (o: Outcome)
    requires pos < |s|
    ensures o == InlineStep(Proxy, s, pos)
  {
    hide LfScan, HasWord;
    var e := ScanLf(s, pos);
    if e >= |s| { return Wait; }
    var len := e - pos;
    if len > 0 && s[pos + len - 1] == CR { len := len - 1; }
    var argc := ProxyHasWord(s[pos..pos + len]);
    o := if argc > 0 then Take(e + 1) else Skip(e + 1);
  }

  // ---------------------------------------------------------------- master

  /** The master's digit loop over the NUL-terminated copy, in a signed word. */
  method MasterNumberLoop(line: bytes, modulus: nat) returns (ok: bool, v: int)
    requires modulus > 0
    ensures ok <==> MasterNumber(line)
    ensures v == WrapDec(Digits(line), modulus)
  {
    var copy := line + [0];
    v := 0;
    var i := 0;
    assert line[..0] == [];
    while IsDigit(copy[i])
      invariant i <= |line| && forall k :: 0 <= k < i ==> IsDigit(line[k])
      invariant v == WrapDec(line[..i], modulus)
      decreases |line| - i
    {
      assert line[..i + 1][..i] == line[..i];
      v := Wrap(v * 10 + (copy[i] - ZERO), modulus);
      i := i + 1;
    }
    DigitPrefixStop(line, i);
    ok := copy[i] == 0;
  }

  /** `split_inline_argv` with room for `maxargc` words. */
  method SplitInline(line: bytes, maxargc: nat) returns (argc: nat)
    requires maxargc > 0
    ensures argc <= maxargc
    ensures argc > 0 <==> HasWord(Master, line)
  {
    var copy := line + [0];
    argc := 0;
    var p := 0;
    while copy[p] != 0 && argc < maxargc
      invariant p <= |line| && argc <= maxargc
      invariant argc > 0 ==> HasWord(Master, line)
      invariant argc == 0 ==> forall i :: 0 <= i < p ==> IsSpace(line[i])
      decreases |line| - p
    {
      ghost var p0 := p;
      while copy[p] != 0 && IsSpace(copy[p])
        invariant p0 <= p <= |line|
        invariant argc == 0 ==> forall i :: 0 <= i < p ==> IsSpace(line[i])
        decreases |line| - p
      {
        p := p + 1;
      }
      if copy[p] == 0 { break; }
      if argc == 0 {
        assert !IsSpace(line[p]) && forall j :: 0 <= j <= p ==> line[j] != 0;
      }
      argc := argc + 1;
      ghost var w := p;
      while copy[p] != 0 && !IsSpace(copy[p])
        invariant w <= p <= |line|
        decreases |line| - p
      {
        p := p + 1;
      }
      if copy[p] == 0 { break; }
      p := p + 1;
    }
    if argc == 0 {
      forall i | 0 <= i < |line| && !IsSpace(line[i]) ensures exists j :: 0 <= j <= i && line[j] == 0 {
        assert p <= i && line[p] == 0;
      }
    }
  }

  method MasterBulk(s: bytes, q: nat) returns (o: Outcome)
    ensures o == OneBulk(Master, s, q)
  {
    if q >= |s| { return Wait; }
    if s[q] != DOLLAR { return Skip(q); }
    var lp := ScanCrlf(s, q + 1);
    if lp + 1 >= |s| { return Wait; }
    if lp - (q + 1) >= MAX_NUM_LINE { return Skip(q); }
    var ok, len := MasterNumberLoop(s[q + 1..lp], LONG_MAX * 2 + 2);
    if !ok { len := -1; }
    if len < 0 { return Skip(q); }
    var e := lp + 2;
    if e + len + 2 > |s| { return Wait; }
    e := e + len;
    if !(s[e] == CR && s[e + 1] == LF) { return Skip(e); }
    o := Take(e + 2);
  }

  method MasterBulks(s: bytes, start: nat, argc: nat) returns (o: Outcome)
    requires start <= |s|
    ensures o == Bulks(Master, s, start, argc)
  {
    hide OneBulk;
    var q: nat := start;
    for i := 0 to argc
      invariant q <= |s|
      invariant Bulks(Master, s, start, argc) == Bulks(Master, s, q, argc - i)
    {
      o := MasterBulk(s, q);
      if !o.Take? { return; }
      q := o.next;
    }
    o := Take(q);
  }

  /** One turn of `parse_resp_stream`'s loop on a client connection. */
  method MasterStep(s: bytes, pos: nat) returns (o: Outcome)
    requires pos < |s|
    ensures o == Step(Master, s, pos)
  {
    hide ArrayStep, InlineStep, ControlStep;
    if s[pos] == PLUS {
      o := MasterControl(s, pos);
    } else if s[pos] != STAR {
      o := MasterInline(s, pos);
    } else {
      o := MasterArray(s, pos);
    }
  }

  method MasterControl(s: bytes, pos: nat) returns (o: Outcome)
    requires pos < |s| && s[pos] == PLUS
    ensures o == ControlStep(Master, s, pos)
  {
    var p := pos;
    while p + 1 < |s| && !(s[p] == CR && s[p + 1] == LF)
      invariant pos <= p < |s|
      invariant p == pos || CrlfScan(s, pos + 1) == CrlfScan(s, p)
      decreases |s| - p
    {
      p := p + 1;
    }
    if p + 1 >= |s| { return Stop(p); }
    o := Skip(p + 2);
  }

  method MasterInline(s: bytes, pos: nat) returns (o: Outcome)
    requires pos < |s|
    ensures o == InlineStep(Master, s, pos)
  {
    hide LfScan;
    var e := ScanLf(s, pos);
    if e >= |s| { return Wait; }
    var len := e - pos;
    if len > 0 && s[pos + len - 1] == CR { len := len - 1; }
    if len == 0 { return Skip(e + 1); }
    var argc := SplitInline(s[pos..pos + len], MAX_ARGC);
    o := if argc > 0 then Take(e + 1) else Skip(e + 1);
  }

  method MasterArray(s: bytes, pos: nat) returns (o: Outcome)
    requires pos < |s|
    ensures o == ArrayStep(Master, s, pos)
  {
    hide CrlfScan, Bulks;
    var p := ScanCrlf(s, pos + 1);
    if p + 1 >= |s| { return Wait; }
    if p - (pos + 1) >= MAX_NUM_LINE { return Skip(p + 2); }
    var ok, argc := MasterNumberLoop(s[pos + 1..p], INT_MAX * 2 + 2);
    if !ok || argc <= 0 || argc > MAX_ARGC { return Skip(p + 2); }
    o := MasterBulks(s, p + 2, argc);
  }

  /** `parse_resp_stream` as a framer: the commands it dispatches and the bytes it keeps. */
  method MasterFrame(s: bytes) returns (cmds: seq<bytes>, rest: bytes)
    ensures cmds == Cmds(Master, s) && rest == Tail(Master, s)
  {
    var pos := 0;
    cmds := [];
    assert [] + Run(Master, s, 0).0 == Run(Master, s, 0).0;
    while pos < |s|
      invariant pos <= |s|
      invariant Run(Master, s, 0) == (cmds + Run(Master, s, pos).0, Run(Master, s, pos).1)
      decreases |s| - pos
    {
      var o := MasterStep(s, pos);
      match o {
        case Wait =>
          assert cmds + [] == cmds;
          break;
        case Stop(n) =>
          assert cmds + [] == cmds;
          pos := n;
          break;
        case Skip(n) => pos := n;
        case Take(n) =>
          assert cmds + ([s[pos..n]] + Run(Master, s, n).0) == cmds + [s[pos..n]] + Run(Master, s, n).0;
          cmds, pos := cmds + [s[pos..n]], n;
      }
    }
    rest := s[pos..];
  }
}
