/** The KVSD snapshot: what the writer puts into the file and what the loader makes of it. */
module Kvsd {
  import opened Bytes

  const DOC: byte := 5
  const HAS_EXPIRE: byte := 1

  /** A key of one engine. */
  datatype Id = Id(engine: byte, key: bytes)

  /** A key and value as an engine's iteration yields them. */
  datatype Record = Record(id: Id, val: bytes)

  /** The string engines' contents and the expiry index. */
  datatype Store = Store(data: map<Id, bytes>, deadlines: map<Id, int>)

  // ---------------------------------------------------------------- strings

  /** A buffer read as a C string. */
  function CStr(s: bytes): (r: bytes)
    ensures NulFree(r) && r <= s
  {
    if s == [] || s[0] == 0 then [] else [s[0]] + CStr(s[1..])
  }

  lemma {:induction false} CStrWhole(s: bytes)
    ensures CStr(s) == s <==> NulFree(s)
  {
    if s != [] && s[0] != 0 {
      CStrWhole(s[1..]);
      assert s == [s[0]] + s[1..];
      if NulFree(s[1..]) {
        forall i | 0 <= i < |s| ensures s[i] != 0 { if i > 0 { assert s[i] == s[1..][i - 1]; } }
      }
      if NulFree(s) {
        forall i | 0 <= i < |s[1..]| ensures s[1..][i] != 0 { assert s[1..][i] == s[i + 1]; }
      }
    }
  }

  /** What the writer copies of a string: up to the NUL, and no more than its 32-bit length counts. */
  function Text(s: bytes): (r: bytes)
    ensures |r| < WORD && NulFree(r) && r <= s
  {
    CStr(s)[..|CStr(s)| % WORD]
  }

  lemma TextWhole(s: bytes)
    ensures Text(s) == s <==> NulFree(s) && |s| < WORD
  {
    CStrWhole(s);
  }

  // ---------------------------------------------------------------- deadlines

  /** `kvs_expire_ttl`: seconds left, rounded up; -1 without a deadline, -2 past it. */
  function TtlSec(deadlines: map<Id, int>, id: Id, now: int): int {
    if id !in deadlines then -1
    else if now >= deadlines[id] then -2
    else
      var left := deadlines[id] - now;
      left / 1000 + if left % 1000 != 0 then 1 else 0
  }

  /** The deadline the writer stores. */
  function Stored(d: int, now: int): int
    requires now < d
  {
    var left := d - now;
    now + (left / 1000 + if left % 1000 != 0 then 1 else 0) * 1000
  }

  lemma StoredClose(d: int, now: int)
    requires now < d
    ensures d <= Stored(d, now) <= d + 999
  {
  }

  // ---------------------------------------------------------------- writing

  function Line(r: Record, deadlines: map<Id, int>, now: int): bytes
    requires now >= 0
  {
    var k, v, ttl := Text(r.id.key), Text(r.val), TtlSec(deadlines, r.id, now);
    [r.id.engine] + [if ttl >= 0 then HAS_EXPIRE else 0] + Le(|k|, 4) + k + Le(|v|, 4) + v
    + (if ttl >= 0 then Le(now + ttl * 1000, 8) else [])
  }

  function Body(rs: seq<Record>, deadlines: map<Id, int>, now: int): bytes
    requires now >= 0
  {
    if rs == [] then [] else Line(rs[0], deadlines, now) + Body(rs[1..], deadlines, now)
  }

  function File(off: nat, rs: seq<Record>, deadlines: map<Id, int>, now: int): bytes
    requires now >= 0
  {
    Le(off, 8) + Body(rs, deadlines, now)
  }

  // ---------------------------------------------------------------- reading

  datatype Due = Never | Until(ms: nat) | Torn

  datatype Parsed = Stop | Item(id: Id, val: bytes, due: Due, rest: bytes)

  /** One record at the front of what is left of the file. */
  function ReadRecord(b: bytes): (p: Parsed)
    ensures p.Item? ==> |p.rest| < |b|
  {
    if |b| < 6 || b[0] < 1 || b[0] > DOC then Stop
    else
      var klen := UnLe(b[2..6]);
      if |b| < 6 + klen + 4 then Stop
      else
        var vlen := UnLe(b[6 + klen..10 + klen]);
        if |b| < 10 + klen + vlen then Stop
        else
          var id := Id(b[0], CStr(b[6..6 + klen]));
          var val := CStr(b[10 + klen..10 + klen + vlen]);
          var rest := b[10 + klen + vlen..];
          if b[1] % 2 == 0 then Item(id, val, Never, rest)
          else if |rest| < 8 then Item(id, val, Torn, [])
          else Item(id, val, Until(UnLe(rest[..8])), rest[8..])
  }

  /** The 64-bit pattern as a signed number. */
  function Signed(x: nat): int {
    if x < LONG / 2 then x else x - LONG
  }

  /** The engine's set, then the deadline if it lies ahead. */
  function Apply(st: Store, id: Id, val: bytes, due: Due, now: int): Store {
    var data := if id.engine == DOC then st.data else st.data[id := val];
    Store(data, if due.Until? && Signed(due.ms) > now then st.deadlines[id := Signed(due.ms)] else st.deadlines)
  }

  function Load(b: bytes, st: Store, now: int): Store
    decreases |b|
  {
    match ReadRecord(b)
    case Stop => st
    case Item(id, val, due, rest) => Load(rest, Apply(st, id, val, due, now), now)
  }

  function LoadFile(b: bytes, st: Store, now: int): (nat, Store) {
    if |b| < 8 then (0, st) else (UnLe(b[..8]), Load(b[8..], st, now))
  }

  /** `replay_dump_file`. */
  method ReplayDump(b: bytes, st0: Store, now: int) returns (off: nat, st: Store)
    ensures (off, st) == LoadFile(b, st0, now)
  {
    hide ReadRecord, Load, Apply;
    st := st0;
    if 8 > |b| { return 0, st0; }
    off := UnLe(b[..8]);
    var pos := 8;
    while pos + 2 + 4 <= |b|
      invariant 8 <= pos <= |b|
      invariant Load(b[pos..], st, now) == Load(b[8..], st0, now)
      decreases |b| - pos
    {
      var engine, klen := b[pos], UnLe(b[pos + 2..pos + 6]);
      ghost var rest := b[pos..];
      assert rest[2..6] == b[pos + 2..pos + 6];
      if engine < 1 || engine > DOC { NoEngine(rest, st, now); return; }
      var at := pos + 6;
      if at + klen > |b| { CutKey(rest, st, now, klen); return; }
      var key := b[at..at + klen];
      at := at + klen;
      if at + 4 > |b| { CutKey(rest, st, now, klen); return; }
      var vlen := UnLe(b[at..at + 4]);
      assert rest[6 + klen..10 + klen] == b[at..at + 4];
      at := at + 4;
      if at + vlen > |b| { CutValue(rest, st, now, klen, vlen); return; }
      var value := b[at..at + vlen];
      at := at + vlen;
      var id := Id(engine, CStr(key));
      WholeItem(b, pos, klen, vlen, st, now);
      if b[pos + 1] % 2 == 1 {
        if at + 8 > |b| { st := Apply(st, id, CStr(value), Torn, now); return; }
        st := Apply(st, id, CStr(value), Until(UnLe(b[at..at + 8])), now);
        at := at + 8;
      } else {
        st := Apply(st, id, CStr(value), Never, now);
      }
      pos := at;
    }
    ShortTail(b[pos..], st, now);
  }

  lemma NoEngine(b: bytes, st: Store, now: int)
    requires |b| >= 6 && (b[0] < 1 || b[0] > DOC)
    ensures Load(b, st, now) == st
  {
  }

  lemma ShortTail(b: bytes, st: Store, now: int)
    requires |b| < 6
    ensures Load(b, st, now) == st
  {
  }

  lemma CutKey(b: bytes, st: Store, now: int, klen: nat)
    requires |b| >= 6 && klen == UnLe(b[2..6]) && |b| < 6 + klen + 4
    ensures Load(b, st, now) == st
  {
  }

  lemma CutValue(b: bytes, st: Store, now: int, klen: nat, vlen: nat)
    requires |b| >= 6 && klen == UnLe(b[2..6]) && 6 + klen + 4 <= |b|
    requires vlen == UnLe(b[6 + klen..10 + klen]) && |b| < 10 + klen + vlen
    ensures Load(b, st, now) == st
  {
  }

  /** A record that is there up to its value. */
  lemma WholeItem(b: bytes, pos: nat, klen: nat, vlen: nat, st: Store, now: int)
    requires pos + 6 <= |b| && 1 <= b[pos] <= DOC && klen == UnLe(b[pos + 2..pos + 6]) && pos + 10 + klen <= |b|
    requires vlen == UnLe(b[pos + 6 + klen..pos + 10 + klen]) && pos + 10 + klen + vlen <= |b|
    ensures var at := pos + 10 + klen + vlen;
      var id, val := Id(b[pos], CStr(b[pos + 6..pos + 6 + klen])), CStr(b[pos + 10 + klen..at]);
      Load(b[pos..], st, now) ==
      if b[pos + 1] % 2 == 0 then Load(b[at..], Apply(st, id, val, Never, now), now)
      else if at + 8 > |b| then Apply(st, id, val, Torn, now)
      else Load(b[at + 8..], Apply(st, id, val, Until(UnLe(b[at..at + 8])), now), now)
  {
    hide Apply, UnLe, CStr;
    var at := pos + 10 + klen + vlen;
    var r := b[pos..];
    assert r[2..6] == b[pos + 2..pos + 6];
    assert r[6 + klen..10 + klen] == b[pos + 6 + klen..pos + 10 + klen];
    assert r[6..6 + klen] == b[pos + 6..pos + 6 + klen];
    assert r[10 + klen..10 + klen + vlen] == b[pos + 10 + klen..at];
    assert r[10 + klen + vlen..] == b[at..];
    if at + 8 <= |b| {
      assert b[at..][..8] == b[at..at + 8] && b[at..][8..] == b[at + 8..];
    }
  }
}
