/** The proxy's sender: a batch of nodes through `writev`, short writes and errors included. */
module ProxySend {
  import opened Bytes

  /** What a `writev` call comes back with: some bytes taken, a transient refusal that is waited out, or
      an error (a closed peer counts as one). */
  datatype Answer = Took(n: nat) | Again | Error

  /** Of the bytes offered, how many a call takes: never more than there are. */
  function Taken(a: Answer, offered: nat): (w: nat)
    ensures w <= offered
  {
    if a.Took? then (if a.n > offered then offered else a.n) else 0
  }

  /** NOTHING LOST, NOTHING TWICE.  Whatever the kernel answers, what was written followed by what goes
      to the cache is the batch, byte for byte and in order; without an error nothing goes to the cache;
      while the proxy buffers everything does. */
  method SendBatch(batch: seq<bytes>, forwarding: bool, answers: seq<Answer>)
    returns (wire: bytes, requeued: seq<bytes>, gaveUp: bool)
    ensures wire + Flatten(requeued) == Flatten(batch)
    ensures forwarding && !gaveUp ==> requeued == []
    ensures !forwarding ==> wire == [] && requeued == batch && !gaveUp
    ensures gaveUp ==> exists i :: 0 <= i < |answers| && (answers[i].Error? || answers[i] == Took(0))
  {
    wire, requeued, gaveUp := [], [], false;
    if !forwarding {
      requeued := batch;
      return;
    }
    var iov, idx := batch, 0;
    var total := TotalOf(batch);
    var sent, k := 0, 0;
    assert iov[0..] == batch;
    while idx < |batch| && sent < total && !gaveUp
      invariant 0 <= idx <= |iov| == |batch| && k <= |answers| && sent == |wire| <= total == |Flatten(batch)|
      invariant wire + Flatten(iov[idx..]) == Flatten(batch)
      invariant forall i :: idx < i < |batch| ==> iov[i] == batch[i]
      invariant gaveUp ==> exists i :: 0 <= i < |answers| && (answers[i].Error? || answers[i] == Took(0))
      decreases |answers| - k, total - sent, !gaveUp
    {
      var a := if k < |answers| then answers[k] else Took(total);
      if k < |answers| { k := k + 1; }
      if a.Again? { continue; }
      ghost var rest := Flatten(iov[idx..]);
      var w := Taken(a, total - sent);
      if w == 0 {
        gaveUp := true;
        assert answers[k - 1] == a;
      } else {
        wire := wire + FirstBytes(iov[idx..], w);
        assert wire + rest[w..] == Flatten(batch) by { assert rest == rest[..w] + rest[w..]; }
        sent := sent + w;
        iov, idx := Advance(iov, idx, w);
      }
    }
    if sent < total {
      if idx < |batch| {
        requeued := [iov[idx]];
        assert [iov[idx]] + batch[idx + 1..] == iov[idx..];
        requeued := requeued + batch[idx + 1..];
      }
    } else {
      assert Flatten(iov[idx..]) == [];
    }
  }

  /** The first bytes of the pieces on offer. */
  function FirstBytes(iov: seq<bytes>, w: nat): bytes
    requires w <= |Flatten(iov)|
  {
    Flatten(iov)[..w]
  }

  /** Moves past w written bytes: whole pieces first, then into the next one. */
  method Advance(iov: seq<bytes>, from: nat, w: nat) returns (next: seq<bytes>, idx: nat)
    requires from <= |iov| && w <= |Flatten(iov[from..])|
    ensures from <= idx <= |next| == |iov| && Flatten(next[idx..]) == Flatten(iov[from..])[w..]
    ensures forall i :: idx < i < |iov| ==> next[i] == iov[i]
  {
    var left := w;
    next, idx := iov, from;
    ghost var rest := Flatten(iov[from..]);
    while idx < |next| && left >= |next[idx]|
      invariant from <= idx <= |next| && next == iov && 0 <= left <= |Flatten(next[idx..])|
      invariant Flatten(next[idx..])[left..] == rest[w..]
      decreases |next| - idx
    {
      TailPast(next[idx..], left);
      assert next[idx..][1..] == next[idx + 1..];
      left := left - |next[idx]|;
      idx := idx + 1;
    }
    if idx < |next| && left > 0 {
      ghost var tail := next[idx + 1..];
      assert next[idx..] == [next[idx]] + tail;
      ghost var piece := next[idx];
      next := next[idx := next[idx][left..]];
      assert next[idx..] == [piece[left..]] + tail;
      assert (piece + Flatten(tail))[left..] == piece[left..] + Flatten(tail);
    } else {
      assert left == 0;
    }
  }

  lemma TailPast(parts: seq<bytes>, left: nat)
    requires parts != [] && |parts[0]| <= left <= |Flatten(parts)|
    ensures Flatten(parts)[left..] == Flatten(parts[1..])[left - |parts[0]|..]
  {
  }

  method TotalOf(batch: seq<bytes>) returns (n: nat)
    ensures n == |Flatten(batch)|
  {
    n := 0;
    var i := 0;
    assert batch[0..] == batch;
    while i < |batch|
      invariant i <= |batch| && n + |Flatten(batch[i..])| == |Flatten(batch)|
    {
      assert batch[i..][1..] == batch[i + 1..];
      n := n + |batch[i]|;
      i := i + 1;
    }
  }
}
