/** The replication backlog: a ring buffer of the newest bytes of the write stream, and the test that
    decides whether a replica may continue from an offset. */
module Backlog {
  import opened Bytes

  /** An index that has gone at most once around a ring. */
  function Wrap(x: nat, cap: nat): (r: nat)
    requires x < 2 * cap
    ensures r < cap && r == if x < cap then x else x - cap
  {
    Around(x, cap);
    x % cap
  }

  lemma Around(x: nat, cap: nat)
    requires x < 2 * cap
    ensures x % cap == if x < cap then x else x - cap
  {
    if x >= cap {
      var q := x / cap;
      assert x == q * cap + x % cap;
      if q == 1 {
        assert q * cap == cap;
      }
    }
  }

  /** The n bytes of a ring that start at index `head`. */
  function Ring(buf: bytes, head: nat, n: nat): (r: bytes)
    requires head < |buf| && n <= |buf|
    ensures |r| == n
  {
    seq(n, i requires 0 <= i < n => buf[Wrap(head + i, |buf|)])
  }

  function Last(s: bytes, n: nat): bytes
    requires n <= |s|
  {
    s[|s| - n..]
  }

  /** The buffer after `data` was written from index `tail` on, wrapping around. */
  ghost predicate Written(old': bytes, new': bytes, tail: nat, data: bytes)
    requires tail < |old'| && |data| <= |old'|
  {
    && |new'| == |old'|
    && (forall j {:trigger data[j]} :: 0 <= j < |data| ==> new'[Wrap(tail + j, |old'|)] == data[j])
    && (forall p :: 0 <= p < |old'| && (if p >= tail then p - tail else p + |old'| - tail) >= |data| ==>
          new'[p] == old'[p])
  }

  /** Writing behind the ring's bytes makes it hold the newest bytes. */
  lemma FeedRing(old': bytes, new': bytes, head: nat, n: nat, data: bytes, head': nat, n': nat)
    requires head < |old'| && n <= |old'| && |data| < |old'| && Written(old', new', Wrap(head + n, |old'|), data)
    requires n' == (if n + |data| <= |old'| then n + |data| else |old'|)
    requires head' == (if n + |data| <= |old'| then head else Wrap(head + (n + |data| - |old'|), |old'|))
    ensures Ring(new', head', n') == Last(Ring(old', head, n) + data, n')
  {
    hide Wrap;
    var cap, skip, tail := |old'|, n + |data| - n', Wrap(head + n, |old'|);
    var all := Ring(old', head, n) + data;
    forall i | 0 <= i < n' ensures Ring(new', head', n')[i] == all[skip + i] {
      var v := skip + i;
      if v >= n {
        assert new'[Wrap(tail + (v - n), cap)] == data[v - n];
        assert Wrap(head' + i, cap) == Wrap(tail + (v - n), cap);
      } else {
        assert Wrap(head' + i, cap) == Wrap(head + v, cap);
      }
    }
  }

  lemma RingWhole(buf: bytes)
    requires |buf| > 0
    ensures Ring(buf, 0, |buf|) == buf
  {
    forall i | 0 <= i < |buf| ensures Ring(buf, 0, |buf|)[i] == buf[i] {
      assert Wrap(0 + i, |buf|) == i;
    }
  }

  class Ringbuf {
    const cap: nat
    var ready: bool
    const buf: array<byte>
    var head: nat
    var histlen: nat
    var start: nat
    var end: nat
    var contiguous: bool
    var master: nat
    /** Every byte of the write stream. */
    ghost var stream: bytes
    /** The bytes fed since the history began: at stream position `origin`, under the label `base`. */
    ghost var fed: bytes
    ghost var origin: nat
    ghost var base: nat
    /** Bytes that a write longer than the ring did not count. */
    ghost var lost: nat

    /** How many of n bytes fed the ring keeps: as many as fit. */
    function Kept(n: nat): nat {
      if n < cap then n else cap
    }

    ghost predicate Valid()
      reads this, buf
    {
      && cap > 0 && buf.Length == cap && master == |stream|
      && (ready ==>
            && head < cap && histlen == Kept(|fed|) && histlen + lost <= |fed|
            && end == base + |fed| - lost && start == end - histlen && base <= origin
            && Ring(buf[..], head, histlen) == Last(fed, histlen)
            && (contiguous ==> origin <= |stream| && fed == stream[origin..]))
    }

    constructor (size: nat)
      requires size > 0
      ensures Valid() && cap == size && stream == [] && contiguous && !ready && fresh(buf)
    {
      cap, ready, head, histlen, start, end, contiguous, master := size, false, 0, 0, 0, 0, true, 0;
      buf := new byte[size](_ => 0);
      stream, fed, origin, base, lost := [], [], 0, 0, 0;
    }

    /** `ensure_repl_backlog`. */
    method Ensure(alloc: bool) returns (ok: bool)
      requires Valid()
      modifies this
      ensures Valid() && unchanged(`stream, `master, `contiguous) && ok == ready && (old(ready) ==> unchanged(this))
      ensures ok <==> old(ready) || alloc
      ensures !old(ready) && ok ==> histlen == 0 && start == end == master && lost == 0 && base == origin == |stream|
      ensures !ok ==> unchanged(this)
    {
      if ready { return true; }
      if !alloc { return false; }
      ready := true;
      histlen, head := 0, 0;
      start, end := master, master;
      fed, origin, base, lost := [], |stream|, master, 0;
      assert Last(fed, 0) == [] && stream[origin..] == [];
      return true;
    }

    /** The two `memcpy` of a feed that fits. */
    method CopyIn(data: bytes)
      requires cap > 0 && buf.Length == cap && head < cap && histlen <= cap && 0 < |data| < cap
      modifies buf
      ensures Written(old(buf[..]), buf[..], Wrap(head + histlen, cap), data)
    {
      hide Wrap;
      var tail := Wrap(head + histlen, cap);
      var first := cap - tail;
      if first > |data| { first := |data|; }
      forall i | 0 <= i < first { buf[tail + i] := data[i]; }
      if |data| > first {
        forall i | 0 <= i < |data| - first { buf[i] := data[first + i]; }
      }
    }

    /** A write that fills the whole ring: its last bytes stay, and only they are counted. */
    method FeedLong(data: bytes)
      requires Valid() && ready && |data| >= cap
      modifies this, buf
      ensures unchanged(`stream, `master, `contiguous, `ready, `base, `origin) && Fed(data)
      ensures lost == old(lost) + |data| - cap
    {
      var tail := data[|data| - cap..];
      forall i | 0 <= i < cap { buf[i] := tail[i]; }
      head, histlen := 0, cap;
      end := end + cap;
      start := end - histlen;
      lost := lost + (|data| - cap);
      RingWhole(buf[..]);
      assert buf[..] == tail;
      assert Last(fed + data, cap) == tail;
      fed := fed + data;
    }

    /** A write that fits goes behind the bytes that are there; the oldest make room. */
    method FeedShort(data: bytes)
      requires Valid() && ready && 0 < |data| < cap
      modifies this, buf
      ensures unchanged(`stream, `master, `contiguous, `ready, `base, `origin) && Fed(data) && lost == old(lost)
    {
      hide Ring, Last, Wrap, Written;
      ghost var was, head0, n0 := buf[..], head, histlen;
      CopyIn(data);
      if histlen + |data| <= cap {
        histlen := histlen + |data|;
      } else {
        var overflow := histlen + |data| - cap;
        head := Wrap(head + overflow, cap);
        histlen := cap;
      }
      end := end + |data|;
      start := end - histlen;
      FeedRing(was, buf[..], head0, n0, data, head, histlen);
      LastOf(fed, n0, data, histlen);
      fed := fed + data;
    }

    /** `repl_backlog_feed`; a write with no replica connected is not fed and breaks the history. */
    method Feed(data: bytes, replicas: bool, alloc: bool)
      requires Valid()
      modifies this, buf
      ensures cap > 0 && buf.Length == cap && master == |stream| && unchanged(`stream, `master)
      ensures Fed(data)
      ensures old(ready) ==> ready && (Exact() <==> old(Exact()) && (data == [] || (replicas && |data| <= cap)))
      ensures !old(ready) ==> (ready <==> data != [] && replicas && alloc)
      ensures !old(ready) && ready ==> (Exact() <==> old(contiguous) && |data| <= cap)
      ensures origin == if !old(ready) && ready then |old(stream)| else old(origin)
    {
      if |data| == 0 { return; }
      if !replicas {
        contiguous := false;
        return;
      }
      var ok := Ensure(alloc);
      if !ok { return; }
      if |data| >= cap { FeedLong(data); } else { FeedShort(data); }
    }

    /** The state between feeding a write and counting it. */
    ghost predicate Fed(data: bytes)
      reads this, buf
    {
      ready ==>
        && cap > 0 && buf.Length == cap && head < cap && histlen == Kept(|fed|) && histlen + lost <= |fed|
        && end == base + |fed| - lost && start == end - histlen && base <= origin
        && Ring(buf[..], head, histlen) == Last(fed, histlen)
        && (contiguous ==> origin <= |stream| && fed == stream[origin..] + data)
    }

    /** The master's write path: feed, then count.  The history stays exact exactly when the write
        was fed and is no longer than the ring. */
    method Write(data: bytes, replicas: bool, alloc: bool)
      requires Valid()
      modifies this, buf
      ensures Valid() && stream == old(stream) + data
      ensures old(ready) ==> ready && (Exact() <==> old(Exact()) && (data == [] || (replicas && |data| <= cap)))
      ensures !old(ready) ==> (ready <==> data != [] && replicas && alloc)
      ensures !old(ready) && ready ==> (Exact() <==> old(contiguous) && |data| <= cap)
      ensures origin == if !old(ready) && ready then |old(stream)| else old(origin)
    {
      Feed(data, replicas, alloc);
      ghost var s := stream;
      master := master + |data|;
      stream := stream + data;
      assert origin <= |s| ==> stream[origin..] == s[origin..] + data;
    }

    /** `repl_backlog_reset`: a full resync starts a new history at `at`. */
    method Reset(at: nat)
      requires Valid() && at <= master
      modifies this
      ensures Valid() && contiguous && unchanged(`stream, `master, `ready)
      ensures ready ==> histlen == 0 && start == end == at && (Exact() <==> at == master)
      ensures origin == master
    {
      if ready { head, histlen := 0, 0; }
      start, end, contiguous := at, at, true;
      fed, origin, base, lost := [], |stream|, at, 0;
      assert stream[origin..] == [];
    }

    /** An offset of the stream not before the history began, and at most the ring's size behind the master's. */
    ghost predicate Reaches(offset: nat)
      reads this
    {
      origin <= offset <= master && master - offset <= cap
    }

    /** `repl_backlog_can_continue`; `same` says whether the replica names this master's history. */
    method CanContinue(same: bool, offset: nat) returns (ok: bool)
      requires Valid()
      ensures ok <==> same && ready && Exact() && Reaches(offset)
    {
      if !same || !ready || !contiguous { return false; }
      if end < master { return false; }
      if offset > end { return false; }
      return offset >= start;
    }

    /** Every write since the history began was fed and counted in full, from the current offset on. */
    ghost predicate Exact()
      reads this
    {
      contiguous && lost == 0 && base == origin
    }

    /** The ring's bytes from the label `offset` up to `upto`, in one piece or two. */
    method Slice(offset: nat, upto: nat) returns (r: bytes)
      requires Valid() && ready && start <= offset <= upto <= end
      ensures r == Last(fed, histlen)[offset - start..upto - start]
    {
      hide Wrap, Ring, Last;
      var delta := offset - start;
      var n := upto - offset;
      if n == 0 { return []; }
      var index := Wrap(head + delta, cap);
      if index + n <= cap {
        r := buf[index..index + n];
      } else {
        var part1 := cap - index;
        r := buf[index..] + buf[..n - part1];
      }
      SliceRing(buf[..], head, histlen, delta, n, index, r);
    }

    /** `repl_backlog_copy_range`. */
    method CopyRange(offset: nat) returns (r: Option<bytes>)
      requires Valid()
      ensures r.Some? <==> ready && start <= offset <= end
      ensures ready && Exact() ==> (r.Some? <==> Reaches(offset))
      ensures r.Some? && Exact() ==> end == master && r.value == stream[offset..]
    {
      if !ready { return None; }
      if offset < start || offset > end { return None; }
      var bytes' := Slice(offset, end);
      HistoryAt(stream, origin, fed, histlen, start, offset, end);
      return Some(bytes');
    }

    /** `repl_backlog_send_continue_upto`: the announced end and the bytes that follow it. */
    method ContinueUpto(offset: nat, upto: nat) returns (r: Option<(nat, bytes)>)
      requires Valid()
      ensures r.Some? <==> ready && start <= offset <= end
      ensures ready && Exact() ==> (r.Some? <==> Reaches(offset))
      ensures r.Some? ==> r.value.0 == if upto > end then end else if upto < offset then offset else upto
      ensures r.Some? && Exact() ==> offset <= r.value.0 <= master && r.value.1 == stream[offset..r.value.0]
    {
      hide Ring, Last;
      if !ready { return None; }
      if offset < start || offset > end { return None; }
      var last := upto;
      if last > end { last := end; }
      if last < offset { last := offset; }
      var bytes' := Slice(offset, last);
      HistoryAt(stream, origin, fed, histlen, start, offset, last);
      return Some((last, bytes'));
    }

    /** PARTIAL RESYNC.  If the test accepts an offset, then what is replayed up to the master's
        offset is exactly the stream from there to its end. */
    method Resync(same: bool, offset: nat) returns (r: Option<bytes>)
      requires Valid()
      ensures r.Some? <==> same && ready && Exact() && Reaches(offset)
      ensures r.Some? ==> end == master && offset <= |stream| && r.value == stream[offset..]
    {
      var ok := CanContinue(same, offset);
      if !ok { return None; }
      var sent := ContinueUpto(offset, master);
      assert stream[offset..|stream|] == stream[offset..];
      return Some(sent.value.1);
    }
  }

  lemma LastOf(fed: bytes, n: nat, data: bytes, n': nat)
    requires n <= |fed| && n' <= n + |data|
    ensures Last(Last(fed, n) + data, n') == Last(fed + data, n')
  {
  }

  /** A slice of a ring is at most two slices of its buffer. */
  lemma SliceRing(buf: bytes, head: nat, histlen: nat, delta: nat, n: nat, index: nat, r: bytes)
    requires head < |buf| && histlen <= |buf| && delta + n <= histlen && 0 < n
    requires index == Wrap(head + delta, |buf|)
    requires r == if index + n <= |buf| then buf[index..index + n] else buf[index..] + buf[..n - (|buf| - index)]
    ensures r == Ring(buf, head, histlen)[delta..delta + n]
  {
    hide Wrap;
    forall i | 0 <= i < n ensures r[i] == Ring(buf, head, histlen)[delta + i] {
      assert Wrap(head + (delta + i), |buf|) == Wrap(index + i, |buf|);
    }
  }

  /** In an exact history labels are stream positions. */
  lemma HistoryAt(stream: bytes, origin: nat, fed: bytes, histlen: nat, start: nat, from: nat, to: nat)
    requires histlen <= |fed| && start <= from <= to <= start + histlen
    ensures origin <= |stream| && fed == stream[origin..] && start + histlen == |stream| ==>
      Last(fed, histlen)[from - start..to - start] == stream[from..to]
  {
  }
}
