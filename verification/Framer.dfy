/** The two RESP framers: the master's (`parse_resp_stream`, client path) and the proxy's
    (`pc_frame_ctx`).  One step looks at an unconsumed position of a receive buffer and says
    whether to wait for bytes, to skip some, or to take a command. */
module Framer {
  import opened Bytes

  datatype Side = Master | Proxy

  datatype Outcome =
    | Wait               // not enough bytes: leave the buffer as it is
    | Stop(next: nat)    // stop, but everything before `next` is gone (master, '+' lines only)
    | Skip(next: nat)    // no command; go on at `next`
    | Take(next: nat)    // the command is buf[pos..next]; go on at `next`

  const MAX_ARGC := 32
  const MAX_NUM_LINE := 32
  const PROXY_BULK_CAP := 2 * 1024 * 1024
  const INT_MAX := 0x7fff_ffff
  const LONG_MAX := 0x7fff_ffff_ffff_ffff

  // ---------------------------------------------------------------- lines

  predicate CrlfAt(s: bytes, p: nat) {
    p + 1 < |s| && s[p] == CR && s[p + 1] == LF
  }

  /** Where the scan for CRLF that starts at `p` ends; `r + 1 < |s|` says it found one. */
  function CrlfScan(s: bytes, p: nat): (r: nat)
    ensures p <= r
    ensures r + 1 < |s| ==> CrlfAt(s, r)
    ensures forall i :: p <= i < r ==> !CrlfAt(s, i)
    decreases |s| - p
  {
    if p + 1 < |s| && !CrlfAt(s, p) then CrlfScan(s, p + 1) else p
  }

  function LfScan(s: bytes, p: nat): (r: nat)
    requires p <= |s|
    ensures p <= r <= |s|
    ensures r < |s| ==> s[r] == LF
    ensures forall i :: p <= i < r ==> s[i] != LF
    decreases |s| - p
  {
    if p < |s| && s[p] != LF then LfScan(s, p + 1) else p
  }

  // ---------------------------------------------------------------- numbers

  /** Value of a digit string, unbounded. */
  function Dec(s: bytes): nat
    requires forall i :: 0 <= i < |s| ==> IsDigit(s[i])
  {
    if s == [] then 0
    else
      assert IsDigit(s[|s| - 1]);
      10 * Dec(s[..|s| - 1]) + (s[|s| - 1] - ZERO)
  }

  function DigitPrefix(s: bytes): (d: nat)
    ensures d <= |s| && forall i :: 0 <= i < d ==> IsDigit(s[i])
    ensures d < |s| ==> !IsDigit(s[d])
  {
    if s != [] && IsDigit(s[0]) then 1 + DigitPrefix(s[1..]) else 0
  }

  /** Two's complement truncation to a signed word of size `modulus`. */
  function Wrap(x: int, modulus: nat): int
    requires modulus > 0
  {
    var m := x % modulus;
    if 2 * m < modulus then m else m - modulus
  }

  /** `v = v * 10 + digit` repeated over a digit string in a signed word. */
  function WrapDec(s: bytes, modulus: nat): int
    requires modulus > 0
    requires forall i :: 0 <= i < |s| ==> IsDigit(s[i])
  {
    if s == [] then 0 else Wrap(10 * WrapDec(s[..|s| - 1], modulus) + (s[|s| - 1] - ZERO), modulus)
  }

  /** The master copies the line to a NUL-terminated buffer and reads digits up to the first
      other byte, which has to be a NUL: the terminator or one inside the line. */
  predicate MasterNumber(line: bytes) {
    var d := DigitPrefix(line);
    d == |line| || line[d] == 0
  }

  /** The number of arguments a header line announces, when the framer accepts the line. */
  function Argc(side: Side, line: bytes): Option<nat> {
    var d := DigitPrefix(line);
    match side
    case Master =>
      var v := WrapDec(line[..d], INT_MAX * 2 + 2);
      if MasterNumber(line) && 0 < v <= MAX_ARGC then Some(v) else None
    case Proxy =>
      if d == |line| && 0 < Dec(line) <= MAX_ARGC then Some(Dec(line)) else None
  }

  /** The length a '$' line announces, when the framer accepts the line. */
  function BulkLen(side: Side, line: bytes): Option<nat> {
    var d := DigitPrefix(line);
    match side
    case Master =>
      var v := WrapDec(line[..d], LONG_MAX * 2 + 2);
      if MasterNumber(line) && 0 <= v then Some(v) else None
    case Proxy =>
      if d == |line| && Dec(line) <= PROXY_BULK_CAP then Some(Dec(line)) else None
  }

  // ---------------------------------------------------------------- one step

  /** One bulk string starting at `q`. */
  function OneBulk(side: Side, s: bytes, q: nat): (o: Outcome)
    ensures !o.Stop?
    ensures o.Skip? || o.Take? ==> q <= o.next <= |s|
  {
    if q >= |s| then Wait
    else if s[q] != DOLLAR then Skip(q)
    else
      var lp := CrlfScan(s, q + 1);
      if lp + 1 >= |s| then Wait
      else if lp - (q + 1) >= MAX_NUM_LINE then Skip(q)
      else match BulkLen(side, s[q + 1..lp])
        case None => Skip(q)
        case Some(len) =>
          var e := lp + 2 + len;
          if e + 2 > |s| then Wait
          else if !CrlfAt(s, e) then Skip(e)
          else Take(e + 2)
  }

  /** `n` bulk strings starting at `q`. */
  function Bulks(side: Side, s: bytes, q: nat, n: nat): (o: Outcome)
    requires q <= |s|
    ensures !o.Stop?
    ensures o.Skip? || o.Take? ==> q <= o.next <= |s|
    decreases n
  {
    if n == 0 then Take(q)
    else match OneBulk(side, s, q)
      case Take(e) => Bulks(side, s, e, n - 1)
      case o => o
  }

  function ArrayStep(side: Side, s: bytes, pos: nat): (o: Outcome)
    requires pos < |s|
    ensures !o.Stop?
    ensures o.Skip? || o.Take? ==> pos < o.next <= |s|
  {
    var p := CrlfScan(s, pos + 1);
    if p + 1 >= |s| then Wait
    else if p - (pos + 1) >= MAX_NUM_LINE then Skip(p + 2)
    else match Argc(side, s[pos + 1..p])
      case None => Skip(p + 2)
      case Some(n) => Bulks(side, s, p + 2, n)
  }

  /** A '+' control line.  The master moves its read position while it looks for CRLF, so an
      unfinished line loses everything but its last byte. */
  function ControlStep(side: Side, s: bytes, pos: nat): (o: Outcome)
    requires pos < |s|
    ensures o.Skip? || o.Take? ==> pos < o.next <= |s|
    ensures o.Stop? ==> pos <= o.next < |s|
  {
    var p := CrlfScan(s, pos + 1);
    if p + 1 < |s| then Skip(p + 2)
    else match side
      case Master => Stop(|s| - 1)
      case Proxy => Wait
  }

  /** The inline line of length `len`, without the optional CR. */
  function Line(s: bytes, pos: nat, e: nat): (line: bytes)
    requires pos <= e <= |s|
  {
    if e > pos && s[e - 1] == CR then s[pos..e - 1] else s[pos..e]
  }

  /** Whether an inline line holds a word, as each side counts its arguments: the master's copy
      ends at the first NUL. */
  ghost predicate HasWord(side: Side, line: bytes) {
    exists i :: 0 <= i < |line| && !IsSpace(line[i]) &&
                (side == Master ==> forall j :: 0 <= j <= i ==> line[j] != 0)
  }

  ghost function InlineStep(side: Side, s: bytes, pos: nat): (o: Outcome)
    requires pos < |s|
    ensures !o.Stop?
    ensures o.Skip? || o.Take? ==> pos < o.next <= |s|
  {
    var e := LfScan(s, pos);
    if e >= |s| then Wait
    else if HasWord(side, Line(s, pos, e)) then Take(e + 1)
    else Skip(e + 1)
  }

  ghost function Step(side: Side, s: bytes, pos: nat): (o: Outcome)
    requires pos < |s|
    ensures o.Skip? || o.Take? ==> pos < o.next <= |s|
    ensures o.Stop? ==> pos <= o.next < |s|
  {
    if s[pos] == STAR then ArrayStep(side, s, pos)
    else if s[pos] == PLUS then ControlStep(side, s, pos)
    else InlineStep(side, s, pos)
  }

  // ---------------------------------------------------------------- a whole buffer

  /** The commands a framer takes from a buffer, in order, and where its unconsumed tail starts. */
  ghost function Run(side: Side, s: bytes, pos: nat): (r: (seq<bytes>, nat))
    requires pos <= |s|
    ensures pos <= r.1 <= |s|
    decreases |s| - pos
  {
    if pos == |s| then ([], pos)
    else match Step(side, s, pos)
      case Wait => ([], pos)
      case Stop(n) => ([], n)
      case Skip(n) => Run(side, s, n)
      case Take(n) => ([s[pos..n]] + Run(side, s, n).0, Run(side, s, n).1)
  }

  ghost function Cmds(side: Side, s: bytes): seq<bytes> {
    Run(side, s, 0).0
  }

  ghost function Tail(side: Side, s: bytes): bytes {
    s[Run(side, s, 0).1..]
  }

  /** The commands taken when the bytes arrive in `chunks` on top of `buf`, and the final tail. */
  ghost function Feed(side: Side, buf: bytes, chunks: seq<bytes>): (seq<bytes>, bytes)
    decreases |chunks|
  {
    if chunks == [] then ([], buf)
    else
      var s := buf + chunks[0];
      var (more, rest) := Feed(side, Tail(side, s), chunks[1..]);
      (Cmds(side, s) + more, rest)
  }
}
