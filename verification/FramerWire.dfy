/** The RESP encoding of a command, what the framers make of it, and the streams that part them. */
module FramerWire {
  import opened Bytes
  import opened Framer
  import opened FramerTheorems
  import opened FramerAgreement

  const CRLF: bytes := [CR, LF]

  function EncodeNum(n: nat): (s: bytes)
    ensures s != [] && forall i :: 0 <= i < |s| ==> IsDigit(s[i])
  {
    if n < 10 then [ZERO + n] else EncodeNum(n / 10) + [ZERO + n % 10]
  }

  function EncodeBulk(arg: bytes): bytes {
    [DOLLAR] + EncodeNum(|arg|) + CRLF + arg + CRLF
  }

  function EncodeBulks(args: seq<bytes>): bytes {
    if args == [] then [] else EncodeBulk(args[0]) + EncodeBulks(args[1..])
  }

  /** A client's command: the array of its arguments as bulk strings. */
  function EncodeCmd(args: seq<bytes>): bytes {
    [STAR] + EncodeNum(|args|) + CRLF + EncodeBulks(args)
  }

  /** What a client may send: 1 to 32 arguments, each within the proxy's cap. */
  ghost predicate Sendable(args: seq<bytes>) {
    0 < |args| <= MAX_ARGC && forall i :: 0 <= i < |args| ==> |args[i]| <= PROXY_BULK_CAP
  }

  lemma {:induction false} DecEncode(n: nat)
    ensures Dec(EncodeNum(n)) == n
  {
    if n >= 10 {
      DecEncode(n / 10);
      assert EncodeNum(n)[..|EncodeNum(n)| - 1] == EncodeNum(n / 10);
    } else {
      assert EncodeNum(n)[..0] == [];
      assert Dec(EncodeNum(n)) == 10 * Dec([]) + n;
    }
  }

  function Pow10(k: nat): nat {
    if k == 0 then 1 else 10 * Pow10(k - 1)
  }

  lemma {:induction false} EncodeShort(n: nat, k: nat)
    requires k > 0 && n < Pow10(k)
    ensures |EncodeNum(n)| <= k
  {
    if n >= 10 {
      EncodeShort(n / 10, k - 1);
    }
  }

  lemma CapShort(n: nat)
    requires n <= PROXY_BULK_CAP
    ensures |EncodeNum(n)| < MAX_NUM_LINE
  {
    assert Pow10(2) == 100 && Pow10(4) == 10000 && Pow10(6) == 1000000 && Pow10(7) == 10000000;
    EncodeShort(n, 7);
  }

  lemma {:induction false} DigitPrefixFull(s: bytes)
    requires forall i :: 0 <= i < |s| ==> IsDigit(s[i])
    ensures DigitPrefix(s) == |s|
  {
  }

  lemma NumberRead(side: Side, n: nat)
    requires n <= PROXY_BULK_CAP
    ensures BulkLen(side, EncodeNum(n)) == Some(n)
    ensures 0 < n <= MAX_ARGC ==> Argc(side, EncodeNum(n)) == Some(n)
  {
    var s := EncodeNum(n);
    DecEncode(n);
    DigitPrefixFull(s);
    assert s[..|s|] == s;
    WrapDecExact(s, LONG_MAX * 2 + 2);
    WrapDecExact(s, INT_MAX * 2 + 2);
  }

  /** A CRLF behind digits is the first one. */
  lemma CrlfBehind(x: bytes, num: bytes, rest: bytes)
    requires forall i :: 0 <= i < |num| ==> IsDigit(num[i])
    ensures CrlfScan(x + num + CRLF + rest, |x|) == |x| + |num|
  {
    var s := x + num + CRLF + rest;
    assert CrlfAt(s, |x| + |num|);
    forall i | |x| <= i < |x| + |num| ensures !CrlfAt(s, i) {
      assert s[i] == num[i - |x|];
    }
  }

  lemma BulkFramed(side: Side, x: bytes, arg: bytes, rest: bytes)
    requires |arg| <= PROXY_BULK_CAP
    ensures OneBulk(side, x + EncodeBulk(arg) + rest, |x|) == Take(|x| + |EncodeBulk(arg)|)
  {
    hide BulkLen, CrlfScan, EncodeNum;
    var num := EncodeNum(|arg|);
    var s := x + EncodeBulk(arg) + rest;
    assert s == (x + [DOLLAR]) + num + CRLF + (arg + CRLF + rest);
    CrlfBehind(x + [DOLLAR], num, arg + CRLF + rest);
    assert s[|x|] == DOLLAR && |x + [DOLLAR]| == |x| + 1;
    assert s[|x| + 1..|x| + 1 + |num|] == num;
    NumberRead(side, |arg|);
    CapShort(|arg|);
    assert CrlfAt(s, |x| + 1 + |num| + 2 + |arg|);
  }

  lemma {:induction false} BulksFramed(side: Side, x: bytes, args: seq<bytes>, rest: bytes)
    requires forall i :: 0 <= i < |args| ==> |args[i]| <= PROXY_BULK_CAP
    ensures Bulks(side, x + EncodeBulks(args) + rest, |x|, |args|) == Take(|x| + |EncodeBulks(args)|)
    decreases |args|
  {
    hide OneBulk, EncodeBulk;
    if args != [] {
      var x', more := x + EncodeBulk(args[0]), EncodeBulks(args[1..]);
      assert x + EncodeBulks(args) + rest == x + EncodeBulk(args[0]) + (more + rest);
      assert x + EncodeBulks(args) + rest == x' + more + rest;
      BulkFramed(side, x, args[0], more + rest);
      BulksFramed(side, x', args[1..], rest);
    }
  }

  /** Both framers take an encoded command whole, whatever follows it. */
  lemma CommandFramed(side: Side, args: seq<bytes>, rest: bytes)
    requires Sendable(args)
    ensures Step(side, EncodeCmd(args) + rest, 0) == Take(|EncodeCmd(args)|)
  {
    hide Argc, Bulks, CrlfScan, EncodeNum, EncodeBulks;
    var num, body := EncodeNum(|args|), EncodeBulks(args);
    var s := EncodeCmd(args) + rest;
    assert s == [STAR] + num + CRLF + (body + rest);
    CrlfBehind([STAR], num, body + rest);
    assert s[1..1 + |num|] == num;
    NumberRead(side, |args|);
    CapShort(|args|);
    var x := [STAR] + num + CRLF;
    assert s == x + body + rest && |x| == 1 + |num| + 2;
    BulksFramed(side, x, args, rest);
  }

  // ---------------------------------------------------------------- everything a client may send

  function Ending(crlf: bool): bytes {
    if crlf then CRLF else [LF]
  }

  /** What a stream is made of: commands as arrays or as inline lines, and lines that are no command. */
  datatype Item =
    | Array(args: seq<bytes>)
    | Inline(line: bytes, crlf: bool)
    | Blank(line: bytes, crlf: bool)
    | Control(text: bytes)
    | BadHeader(text: bytes)

  function Encode(item: Item): bytes {
    match item
    case Array(args) => EncodeCmd(args)
    case Inline(line, crlf) => line + Ending(crlf)
    case Blank(line, crlf) => line + Ending(crlf)
    case Control(text) => [PLUS] + text + CRLF
    case BadHeader(text) => [STAR] + text + CRLF
  }

  predicate IsCommand(item: Item) {
    item.Array? || item.Inline?
  }

  predicate NoCrlf(text: bytes) {
    forall i :: 0 <= i < |text| ==> !CrlfAt(text, i)
  }

  /** No count of 1 to 32 arguments: too long, not digits, or a number outside that range. */
  predicate NoCount(text: bytes) {
    || |text| >= MAX_NUM_LINE
    || !MasterNumber(text)
    || (DigitPrefix(text) == |text| && Dec(text) <= INT_MAX && !(0 < Dec(text) <= MAX_ARGC))
  }

  ghost predicate WellFormed(item: Item) {
    match item
    case Array(args) => Sendable(args)
    case Inline(line, _) =>
      && LF !in line && NulFree(line) && (exists i :: 0 <= i < |line| && !IsSpace(line[i]))
      && line[0] != STAR && line[0] != PLUS
    case Blank(line, _) => LF !in line && forall i :: 0 <= i < |line| ==> IsSpace(line[i])
    case Control(text) => NoCrlf(text)
    case BadHeader(text) => NoCrlf(text) && NoCount(text)
  }

  function EncodeAll(items: seq<Item>): bytes {
    if items == [] then [] else Encode(items[0]) + EncodeAll(items[1..])
  }

  /** The encodings of the commands among the items. */
  function Commands(items: seq<Item>): seq<bytes> {
    if items == [] then []
    else (if IsCommand(items[0]) then [Encode(items[0])] else []) + Commands(items[1..])
  }

  /** The first LF is the one that ends the line, and the line is what is before it. */
  lemma LineScan(line: bytes, crlf: bool, rest: bytes)
    requires LF !in line
    ensures var s, e := line + Ending(crlf) + rest, |line| + |Ending(crlf)| - 1;
      && LfScan(s, 0) == e
      && Line(s, 0, e) == if crlf || line == [] || line[|line| - 1] != CR then line else line[..|line| - 1]
  {
    var s, e := line + Ending(crlf) + rest, |line| + |Ending(crlf)| - 1;
    assert s[e] == LF;
    forall i | 0 <= i < e ensures s[i] != LF { if i < |line| { assert s[i] == line[i]; } }
    assert LfScan(s, 0) == e;
    assert s[0..|line|] == line;
    if !crlf && line != [] { assert s[e - 1] == line[|line| - 1]; }
  }

  /** Both framers take an inline command with its line ending, whatever follows it. */
  lemma InlineFramed(side: Side, line: bytes, crlf: bool, rest: bytes)
    requires WellFormed(Inline(line, crlf))
    ensures Step(side, line + Ending(crlf) + rest, 0) == Take(|line| + |Ending(crlf)|)
  {
    hide LfScan, Line;
    var s, e := line + Ending(crlf) + rest, |line| + |Ending(crlf)| - 1;
    LineScan(line, crlf, rest);
    assert s[0] == line[0];
    var i :| 0 <= i < |line| && !IsSpace(line[i]);
    var seen := Line(s, 0, e);
    assert seen <= line && i < |seen| && seen[i] == line[i];
    assert HasWord(side, seen);
  }

  lemma BlankFramed(side: Side, line: bytes, crlf: bool, rest: bytes)
    requires WellFormed(Blank(line, crlf))
    ensures Step(side, line + Ending(crlf) + rest, 0) == Skip(|line| + |Ending(crlf)|)
  {
    hide LfScan, Line;
    var s, e := line + Ending(crlf) + rest, |line| + |Ending(crlf)| - 1;
    LineScan(line, crlf, rest);
    assert s[0] == if line == [] then Ending(crlf)[0] else line[0];
    assert !HasWord(side, Line(s, 0, e));
  }

  /** The first CRLF is the one that ends the line. */
  lemma TextScan(mark: byte, text: bytes, rest: bytes)
    requires NoCrlf(text)
    ensures CrlfScan([mark] + text + CRLF + rest, 1) == 1 + |text|
    ensures ([mark] + text + CRLF + rest)[1..1 + |text|] == text
  {
    var s := [mark] + text + CRLF + rest;
    assert CrlfAt(s, 1 + |text|);
    forall i | 1 <= i < 1 + |text| ensures !CrlfAt(s, i) {
      assert s[i] == text[i - 1] && !CrlfAt(text, i - 1);
      if i < |text| { assert s[i + 1] == text[i]; }
    }
  }

  lemma HeaderRefused(side: Side, text: bytes)
    requires NoCount(text) && |text| < MAX_NUM_LINE
    ensures Argc(side, text) == None
  {
    if DigitPrefix(text) == |text| && Dec(text) <= INT_MAX {
      assert text[..|text|] == text;
      WrapDecExact(text, INT_MAX * 2 + 2);
    }
  }

  /** A line that is no command is passed over whole. */
  lemma TextFramed(side: Side, item: Item, rest: bytes)
    requires WellFormed(item) && (item.Control? || item.BadHeader?)
    ensures Step(side, Encode(item) + rest, 0) == Skip(|Encode(item)|)
  {
    hide CrlfScan, Argc, NoCount;
    var mark := if item.Control? then PLUS else STAR;
    var s := [mark] + item.text + CRLF + rest;
    assert Encode(item) + rest == s;
    TextScan(mark, item.text, rest);
    if item.BadHeader? && |item.text| < MAX_NUM_LINE { HeaderRefused(side, item.text); }
  }

  lemma ItemFramed(side: Side, item: Item, rest: bytes)
    requires WellFormed(item)
    ensures Encode(item) != []
    ensures Step(side, Encode(item) + rest, 0)
         == if IsCommand(item) then Take(|Encode(item)|) else Skip(|Encode(item)|)
  {
    hide Step, EncodeCmd, Sendable;
    match item
    case Array(args) => CommandFramed(side, args, rest); EncodedStarts(args);
    case Inline(line, crlf) => InlineFramed(side, line, crlf, rest);
    case Blank(line, crlf) => BlankFramed(side, line, crlf, rest);
    case Control(_) => TextFramed(side, item, rest);
    case BadHeader(_) => TextFramed(side, item, rest);
  }

  lemma EncodedStarts(args: seq<bytes>)
    ensures EncodeCmd(args) != []
  {
  }

  /** The framer's run over an item and what follows it. */
  lemma ItemRun(side: Side, item: Item, more: bytes)
    requires WellFormed(item)
    ensures var (cmds, n) := Run(side, more, 0);
      Run(side, Encode(item) + more, 0)
        == ((if IsCommand(item) then [Encode(item)] else []) + cmds, |Encode(item)| + n)
  {
    hide Step, Encode, WellFormed;
    var c := Encode(item);
    ItemFramed(side, item, more);
    RunShift(side, c, more, 0);
    assert (c + more)[0..|c|] == c;
    assert [] + Run(side, more, 0).0 == Run(side, more, 0).0;
  }

  lemma {:induction false} ItemsRun(side: Side, items: seq<Item>)
    requires forall i :: 0 <= i < |items| ==> WellFormed(items[i])
    ensures Run(side, EncodeAll(items), 0) == (Commands(items), |EncodeAll(items)|)
    decreases |items|
  {
    hide Run, Encode, WellFormed;
    if items == [] {
      NothingToFrame(side);
    } else {
      ItemsRun(side, items[1..]);
      ItemRun(side, items[0], EncodeAll(items[1..]));
    }
  }

  lemma NothingToFrame(side: Side)
    ensures Run(side, [], 0) == ([], 0)
  {
  }

  /** ROUND TRIP.  From any sequence of commands - arrays of bulk strings or inline lines with either ending -
      mixed with blank lines, control lines and headers that announce no count, either framer takes exactly
      the commands, byte for byte and in order, with nothing left over. */
  lemma RoundTrip(side: Side, items: seq<Item>)
    requires forall i :: 0 <= i < |items| ==> WellFormed(items[i])
    ensures Cmds(side, EncodeAll(items)) == Commands(items)
    ensures Tail(side, EncodeAll(items)) == []
  {
    hide Run, WellFormed;
    ItemsRun(side, items);
  }

  // ---------------------------------------------------------------- where a broken array is left

  /** Where a bulk string breaks off: at once, at a byte other than the dollar sign or at a complete length line
      that is too long or no number; behind its bytes, when no CRLF follows them. */
  lemma BreaksOff(side: Side, text: bytes, arg: bytes, rest: bytes)
    ensures rest != [] && rest[0] != DOLLAR ==> OneBulk(side, rest, 0) == Skip(0)
    ensures NoCrlf(text) && (|text| >= MAX_NUM_LINE || !MasterNumber(text)) ==>
      OneBulk(side, [DOLLAR] + text + CRLF + rest, 0) == Skip(0)
    ensures |arg| <= PROXY_BULK_CAP && |rest| >= 2 && !CrlfAt(rest, 0) ==>
      OneBulk(side, [DOLLAR] + EncodeNum(|arg|) + CRLF + arg + rest, 0)
        == Skip(1 + |EncodeNum(|arg|)| + 2 + |arg|)
  {
    hide CrlfScan, BulkLen, EncodeNum;
    if NoCrlf(text) && (|text| >= MAX_NUM_LINE || !MasterNumber(text)) {
      TextScan(DOLLAR, text, rest);
      LengthRefused(side, text);
    }
    if |arg| <= PROXY_BULK_CAP && |rest| >= 2 && !CrlfAt(rest, 0) { NoTrailer(side, arg, rest); }
  }

  lemma LengthRefused(side: Side, text: bytes)
    requires !MasterNumber(text) || |text| >= MAX_NUM_LINE
    ensures |text| < MAX_NUM_LINE ==> BulkLen(side, text) == None
  {
  }

  lemma NoTrailer(side: Side, arg: bytes, rest: bytes)
    requires |arg| <= PROXY_BULK_CAP && |rest| >= 2 && !CrlfAt(rest, 0)
    ensures OneBulk(side, [DOLLAR] + EncodeNum(|arg|) + CRLF + arg + rest, 0)
         == Skip(1 + |EncodeNum(|arg|)| + 2 + |arg|)
  {
    hide CrlfScan, BulkLen, EncodeNum;
    var num := EncodeNum(|arg|);
    var s, e := [DOLLAR] + num + CRLF + arg + rest, 1 + |num| + 2 + |arg|;
    assert s == [DOLLAR] + num + CRLF + (arg + rest);
    CrlfBehind([DOLLAR], num, arg + rest);
    assert s[1..1 + |num|] == num;
    NumberRead(side, |arg|);
    CapShort(|arg|);
    assert s[e] == rest[0] && s[e + 1] == rest[1];
  }

  /** A BROKEN ARRAY.  After some of its bulk strings an array breaks off: both framers go on exactly where it
      does, and what follows is read on its own. */
  lemma BrokenArray(side: Side, n: nat, args: seq<bytes>, rest: bytes, k: nat)
    requires |args| < n <= MAX_ARGC && forall i :: 0 <= i < |args| ==> |args[i]| <= PROXY_BULK_CAP
    requires OneBulk(side, rest, 0) == Skip(k)
    ensures var front := [STAR] + EncodeNum(n) + CRLF + EncodeBulks(args);
      Step(side, front + rest, 0) == Skip(|front| + k)
  {
    hide Argc, Bulks, CrlfScan, EncodeNum, EncodeBulks, OneBulk;
    var num, body := EncodeNum(n), EncodeBulks(args);
    var x := [STAR] + num + CRLF;
    var s := x + body + rest;
    assert s == [STAR] + num + CRLF + (body + rest);
    CrlfBehind([STAR], num, body + rest);
    assert s[1..1 + |num|] == num;
    NumberRead(side, n);
    CapShort(n);
    BulksBroken(side, x, n, args, rest, k);
  }

  lemma {:induction false} BulksBroken(side: Side, x: bytes, n: nat, args: seq<bytes>, rest: bytes, k: nat)
    requires |args| < n && forall i :: 0 <= i < |args| ==> |args[i]| <= PROXY_BULK_CAP
    requires OneBulk(side, rest, 0) == Skip(k)
    ensures Bulks(side, x + EncodeBulks(args) + rest, |x|, n) == Skip(|x| + |EncodeBulks(args)| + k)
    decreases |args|
  {
    hide OneBulk, EncodeBulk;
    if args == [] {
      assert x + [] + rest == x + rest;
      OneBulkShift(side, x, rest, 0);
    } else {
      var x', more := x + EncodeBulk(args[0]), EncodeBulks(args[1..]);
      assert x + EncodeBulks(args) + rest == x + EncodeBulk(args[0]) + (more + rest);
      assert x + EncodeBulks(args) + rest == x' + more + rest;
      BulkFramed(side, x, args[0], more + rest);
      BulksBroken(side, x', n - 1, args[1..], rest, k);
    }
  }

  // ---------------------------------------------------------------- streams that part the framers

  /** "*1\0\r\n$4\r\nPING\r\n" */
  const NUL_HEADER: bytes := [STAR, 49, 0, CR, LF, DOLLAR, 52, CR, LF, 80, 73, 78, 71, CR, LF]

  /** A NUL behind a header's digits: the master takes the whole array as one command, the proxy
      skips the header and numbers two inline commands instead. */
  lemma NulHeaderParts()
    ensures Step(Master, NUL_HEADER, 0) == Take(15)
    ensures Step(Proxy, NUL_HEADER, 0) == Skip(5)
    ensures Cmds(Master, NUL_HEADER) == [NUL_HEADER]
    ensures NUL_HEADER !in Cmds(Proxy, NUL_HEADER)
  {
    hide Argc, CrlfScan, Bulks, EncodeNum;
    var s, line: bytes, ping: bytes := NUL_HEADER, [49, 0], [80, 73, 78, 71];
    var args: seq<bytes> := [ping];
    var x := [STAR] + line + CRLF;
    NulCount();
    assert EncodeNum(4) == [52] by { FourDigit(); }
    assert EncodeBulk(ping) == [DOLLAR, 52, CR, LF, 80, 73, 78, 71, CR, LF];
    assert s == x + EncodeBulk(ping);
    TextScan(STAR, line, EncodeBulk(ping));
    assert EncodeBulks(args) == EncodeBulk(ping) by {
      assert args[1..] == [] && EncodeBulk(ping) + [] == EncodeBulk(ping);
    }
    assert x + EncodeBulks(args) + [] == s;
    BulksFramed(Master, x, args, []);
    hide Step;
    assert s[0..15] == s && Run(Master, s, 15) == ([], 15);
    assert Run(Master, s, 0).0 == [s] + [];
    assert Run(Proxy, s, 0) == Run(Proxy, s, 5);
    RunTakesFrom(Proxy, s, 5);
  }

  lemma FourDigit()
    ensures EncodeNum(4) == [52]
  {
  }

  /** One digit and a NUL: a count for the master only. */
  lemma NulCount()
    ensures Argc(Master, [49, 0]) == Some(1) && Argc(Proxy, [49, 0]) == None
  {
    var line: bytes := [49, 0];
    assert line[1..] == [0];
    assert DigitPrefix(line) == 1;
    assert line[..1] == [49];
    assert WrapDec([49], INT_MAX * 2 + 2) == Wrap(1, INT_MAX * 2 + 2) by {
      assert [49][..0] == [];
    }
  }

  /** Commands framed from `pos` on cannot be longer than what is left. */
  lemma {:induction false} RunTakesFrom(side: Side, s: bytes, pos: nat)
    requires pos <= |s|
    ensures forall k :: 0 <= k < |Run(side, s, pos).0| ==> |Run(side, s, pos).0[k]| <= |s| - pos
    decreases |s| - pos
  {
    hide Step;
    if pos < |s| {
      match Step(side, s, pos)
      case Wait =>
      case Stop(_) =>
      case Skip(n) => RunTakesFrom(side, s, n);
      case Take(n) => RunTakesFrom(side, s, n);
    }
  }

  /** "+A" followed by "\r\n": one control line cut in two receives. */
  const PLUS_HEAD: bytes := [PLUS, 65]
  const PLUS_REST: bytes := [CR, LF]

  lemma FeedOne(side: Side, buf: bytes, chunk: bytes)
    ensures Feed(side, buf, [chunk]) == (Cmds(side, buf + chunk), Tail(side, buf + chunk))
  {
    hide Cmds, Tail;
    assert [chunk][1..] == [];
    assert Feed(side, Tail(side, buf + chunk), []) == ([], Tail(side, buf + chunk));
    assert Cmds(side, buf + chunk) + [] == Cmds(side, buf + chunk);
  }

  lemma FeedTwo(side: Side, a: bytes, b: bytes)
    ensures Feed(side, [], [a, b]).0 == Cmds(side, a) + Cmds(side, Tail(side, a) + b)
  {
    hide Cmds, Tail;
    assert [] + a == a && [a, b][1..] == [b];
    FeedOne(side, Tail(side, a), b);
  }

  lemma OneItem(side: Side, item: Item)
    requires WellFormed(item)
    ensures Cmds(side, Encode(item)) == if IsCommand(item) then [Encode(item)] else []
  {
    hide Cmds, Tail, Encode, WellFormed;
    var items := [item];
    assert items[1..] == [] && Encode(item) + [] == Encode(item);
    RoundTrip(side, items);
  }

  /** The master has moved past the '+' of an unfinished control line, the proxy has not. */
  lemma CutHead()
    ensures Cmds(Master, PLUS_HEAD) == [] && Tail(Master, PLUS_HEAD) == [65]
    ensures Cmds(Proxy, PLUS_HEAD) == [] && Tail(Proxy, PLUS_HEAD) == PLUS_HEAD
  {
    assert Step(Master, PLUS_HEAD, 0) == Stop(1) && Step(Proxy, PLUS_HEAD, 0) == Wait;
    assert Run(Master, PLUS_HEAD, 0) == ([], 1) && Run(Proxy, PLUS_HEAD, 0) == ([], 0);
    assert PLUS_HEAD[1..] == [65] && PLUS_HEAD[0..] == PLUS_HEAD;
  }

  /** A '+' line cut by a receive: whole, it is no command for either side; cut, the master drops
      the '+' and dispatches the rest as an inline command, the proxy still dispatches nothing. */
  lemma CutControlLineParts()
    ensures Feed(Master, [], [PLUS_HEAD + PLUS_REST]).0 == []
    ensures Feed(Master, [], [PLUS_HEAD, PLUS_REST]).0 == [[65, CR, LF]]
    ensures Feed(Proxy, [], [PLUS_HEAD, PLUS_REST]).0 == []
  {
    hide Feed, Cmds, Tail;
    var s, t: bytes := PLUS_HEAD + PLUS_REST, [65] + PLUS_REST;
    assert s == Encode(Control([65])) && t == Encode(Inline([65], true)) && t == [65, CR, LF];
    assert WellFormed(Inline([65], true)) by { assert !IsSpace([65][0]); }
    OneItem(Master, Control([65]));
    OneItem(Proxy, Control([65]));
    OneItem(Master, Inline([65], true));
    CutHead();
    assert [] + s == s;
    FeedOne(Master, [], s);
    FeedTwo(Master, PLUS_HEAD, PLUS_REST);
    FeedTwo(Proxy, PLUS_HEAD, PLUS_REST);
  }
}
