/** Chained hash tables as values: where each node belongs, what a lookup finds, and what two tables
    store together. */
module HashModel {
  import opened Bytes

  /** A chain node; `hv` is the cached hash of its key. */
  datatype Node = Node(hv: nat, key: bytes, val: bytes)

  type Chain = seq<Node>

  type Chains = seq<Chain>

  /** The hash function: any function of the key. */
  type HashFn = bytes -> nat

  /** The first node of a chain with a given key. */
  function Find(c: Chain, k: bytes): Option<bytes> {
    if c == [] then None else if c[0].key == k then Some(c[0].val) else Find(c[1..], k)
  }

  /** No key occurs twice in a chain. */
  predicate Distinct(c: Chain) {
    c == [] || (Find(c[1..], c[0].key) == None && Distinct(c[1..]))
  }

  /** What a table answers for a key. */
  function Look(h: HashFn, s: Chains, k: bytes): Option<bytes> {
    if |s| == 0 then None else Find(s[h(k) % |s|], k)
  }

  /** The node carries its key's hash and stands in that hash's bucket. */
  predicate Belongs(h: HashFn, n: Node, size: nat, i: int)
    requires size > 0
  {
    n.hv == h(n.key) && n.hv % size == i
  }

  ghost predicate ChainOk(h: HashFn, c: Chain, size: nat, i: int)
    requires size > 0
  {
    Distinct(c) && forall n :: n in c ==> Belongs(h, n, size, i)
  }

  ghost predicate TableOk(h: HashFn, s: Chains) {
    forall i :: 0 <= i < |s| ==> ChainOk(h, s[i], |s|, i)
  }

  function Total(s: Chains): nat {
    if s == [] then 0 else |s[0]| + Total(s[1..])
  }

  function Opt(view: map<bytes, bytes>, k: bytes): Option<bytes> {
    if k in view then Some(view[k]) else None
  }

  /** A key is in at most one of two tables, and the map has what is found. */
  predicate Agrees(h: HashFn, s0: Chains, s1: Chains, view: map<bytes, bytes>, k: bytes) {
    var a, b := Look(h, s0, k), Look(h, s1, k);
    (a == None || b == None) && Opt(view, k) == if a.Some? then a else b
  }

  ghost predicate Stores(h: HashFn, s0: Chains, s1: Chains, view: map<bytes, bytes>) {
    forall k :: Agrees(h, s0, s1, view, k)
  }

  // ---------------------------------------------------------------- chains

  lemma LookUpdate(h: HashFn, s: Chains, i: nat, c: Chain, k: bytes)
    requires i < |s|
    ensures Look(h, s[i := c], k) == if h(k) % |s| == i then Find(c, k) else Look(h, s, k)
  {
  }

  lemma TableUpdate(h: HashFn, s: Chains, i: nat, c: Chain)
    requires i < |s| && TableOk(h, s) && ChainOk(h, c, |s|, i)
    ensures TableOk(h, s[i := c])
  {
    hide ChainOk;
  }

  lemma {:induction false} TotalUpdate(s: Chains, i: nat, c: Chain)
    requires i < |s|
    ensures Total(s[i := c]) + |s[i]| == Total(s) + |c|
  {
    if i == 0 {
      assert s[0 := c][1..] == s[1..];
    } else {
      assert s[i := c][1..] == s[1..][i - 1 := c];
      TotalUpdate(s[1..], i - 1, c);
    }
  }

  lemma {:induction false} TotalZero(s: Chains)
    ensures Total(s) == 0 <==> forall i :: 0 <= i < |s| ==> s[i] == []
  {
    if s != [] {
      TotalZero(s[1..]);
      if Total(s) == 0 {
        forall i | 0 <= i < |s| ensures s[i] == [] { if i > 0 { assert s[1..][i - 1] == s[i]; } }
      }
    }
  }

  /** A table without nodes answers nothing. */
  lemma LookNothing(h: HashFn, s: Chains, k: bytes)
    requires Total(s) == 0
    ensures Look(h, s, k) == None
  {
    TotalZero(s);
  }

  lemma {:induction false} FindIn(c: Chain, k: bytes)
    ensures Find(c, k) == None <==> forall n :: n in c ==> n.key != k
  {
    if c != [] {
      FindIn(c[1..], k);
      assert forall n :: n in c <==> n == c[0] || n in c[1..];
    }
  }

  /** The part of a chain before its j-th node does not have that node's key. */
  lemma {:induction false} FindAt(c: Chain, j: nat)
    requires Distinct(c) && j < |c|
    ensures Find(c, c[j].key) == Some(c[j].val)
    decreases j
  {
    if j > 0 {
      FindAt(c[1..], j - 1);
      FindIn(c[1..], c[0].key);
      assert c[1..][j - 1] == c[j];
      assert c[j] in c[1..];
    }
  }

  /** Another value in the j-th node. */
  lemma {:induction false} FindChange(c: Chain, j: nat, val: bytes, k: bytes)
    requires Distinct(c) && j < |c|
    ensures Find(c[j := c[j].(val := val)], k) == if k == c[j].key then Some(val) else Find(c, k)
    ensures Distinct(c[j := c[j].(val := val)])
    decreases j
  {
    var c1 := c[j := c[j].(val := val)];
    if j == 0 {
      assert c1[1..] == c[1..];
    } else {
      assert c1[1..] == c[1..][j - 1 := c[1..][j - 1].(val := val)];
      FindChange(c[1..], j - 1, val, k);
      FindChange(c[1..], j - 1, val, c[0].key);
      FindIn(c[1..], c[0].key);
      assert c[j] in c[1..];
    }
  }

  /** The chain without its j-th node. */
  lemma {:induction false} FindDrop(c: Chain, j: nat, k: bytes)
    requires Distinct(c) && j < |c|
    ensures Find(c[..j] + c[j + 1..], k) == if k == c[j].key then None else Find(c, k)
    ensures Distinct(c[..j] + c[j + 1..])
    decreases j
  {
    var c1 := c[..j] + c[j + 1..];
    if j == 0 {
      assert c1 == c[1..];
    } else {
      assert c1[1..] == c[1..][..j - 1] + c[1..][j..];
      FindDrop(c[1..], j - 1, k);
      FindDrop(c[1..], j - 1, c[0].key);
      FindIn(c[1..], c[0].key);
      assert c[j] in c[1..];
    }
  }

  // ---------------------------------------------------------------- changes of two tables

  /** The head of chain i of the old table moves to the head of its chain of the new one. */
  lemma MoveNode(h: HashFn, s0: Chains, s1: Chains, view: map<bytes, bytes>, i: nat)
    requires TableOk(h, s0) && TableOk(h, s1) && Stores(h, s0, s1, view) && i < |s0| && s0[i] != [] && |s1| > 0
    ensures var n := s0[i][0];
      var j := n.hv % |s1|;
      var t0, t1 := s0[i := s0[i][1..]], s1[j := [n] + s1[j]];
      && TableOk(h, t0) && TableOk(h, t1) && Stores(h, t0, t1, view)
      && Total(t0) + 1 == Total(s0) && Total(t1) == Total(s1) + 1
  {
    var n := s0[i][0];
    var j := n.hv % |s1|;
    var c0, c1 := s0[i][1..], [n] + s1[j];
    var t0, t1 := s0[i := c0], s1[j := c1];
    assert n in s0[i] && ChainOk(h, s0[i], |s0|, i);
    assert Belongs(h, n, |s0|, i);
    assert c1[1..] == s1[j];
    TotalUpdate(s0, i, c0);
    TotalUpdate(s1, j, c1);
    assert Agrees(h, s0, s1, view, n.key);
    assert Look(h, s0, n.key) == Some(n.val);
    assert ChainOk(h, c1, |s1|, j) by { assert ChainOk(h, s1[j], |s1|, j); }
    TableUpdate(h, s0, i, c0);
    TableUpdate(h, s1, j, c1);
    forall k ensures Agrees(h, t0, t1, view, k) {
      assert Agrees(h, s0, s1, view, k);
      LookUpdate(h, s0, i, c0, k);
      LookUpdate(h, s1, j, c1, k);
    }
  }

  /** A new node at the head of its chain; the other table does not have its key. */
  lemma AddNode(h: HashFn, s: Chains, other: Chains, view: map<bytes, bytes>, n: Node)
    requires TableOk(h, s) && |s| > 0 && n.hv == h(n.key) && n.key !in view
    requires Stores(h, other, s, view) || Stores(h, s, other, view)
    ensures var j := n.hv % |s|;
      var t := s[j := [n] + s[j]];
      && TableOk(h, t) && Total(t) == Total(s) + 1
      && (Stores(h, other, s, view) ==> Stores(h, other, t, view[n.key := n.val]))
      && (Stores(h, s, other, view) ==> Stores(h, t, other, view[n.key := n.val]))
  {
    var j := n.hv % |s|;
    var c := [n] + s[j];
    assert c[1..] == s[j];
    TotalUpdate(s, j, c);
    if Stores(h, s, other, view) {
      assert Agrees(h, s, other, view, n.key);
    } else {
      assert Agrees(h, other, s, view, n.key);
    }
    assert ChainOk(h, c, |s|, j) by { assert ChainOk(h, s[j], |s|, j); }
    TableUpdate(h, s, j, c);
    AddAgrees(h, s, other, view, n);
  }

  lemma AddAgrees(h: HashFn, s: Chains, other: Chains, view: map<bytes, bytes>, n: Node)
    requires |s| > 0 && n.hv == h(n.key) && n.key !in view
    ensures var t := s[n.hv % |s| := [n] + s[n.hv % |s|]];
      && (Stores(h, other, s, view) ==> Stores(h, other, t, view[n.key := n.val]))
      && (Stores(h, s, other, view) ==> Stores(h, t, other, view[n.key := n.val]))
  {
    var j := n.hv % |s|;
    var c := [n] + s[j];
    assert c[1..] == s[j];
    var t, view1 := s[j := c], view[n.key := n.val];
    if Stores(h, other, s, view) {
      forall k ensures Agrees(h, other, t, view1, k) {
        assert Agrees(h, other, s, view, k);
        LookUpdate(h, s, j, c, k);
      }
    }
    if Stores(h, s, other, view) {
      forall k ensures Agrees(h, t, other, view1, k) {
        assert Agrees(h, s, other, view, k);
        LookUpdate(h, s, j, c, k);
      }
    }
  }

  /** A chain that answers like before, but for one key. */
  lemma Replace(h: HashFn, s: Chains, other: Chains, view: map<bytes, bytes>, i: nat, c: Chain, key: bytes,
                v: Option<bytes>)
    requires i < |s| && h(key) % |s| == i && Find(s[i], key).Some?
    requires forall k :: Find(c, k) == if k == key then v else Find(s[i], k)
    ensures var view1 := if v.Some? then view[key := v.value] else view - {key};
      && (Stores(h, other, s, view) ==> Stores(h, other, s[i := c], view1))
      && (Stores(h, s, other, view) ==> Stores(h, s[i := c], other, view1))
  {
    var t := s[i := c];
    var view1 := if v.Some? then view[key := v.value] else view - {key};
    if Stores(h, other, s, view) {
      forall k ensures Agrees(h, other, t, view1, k) {
        assert Agrees(h, other, s, view, k);
        LookUpdate(h, s, i, c, k);
      }
    }
    if Stores(h, s, other, view) {
      forall k ensures Agrees(h, t, other, view1, k) {
        assert Agrees(h, s, other, view, k);
        LookUpdate(h, s, i, c, k);
      }
    }
  }

  // ---------------------------------------------------------------- buckets still to move

  /** Buckets of s from i on that hold something. */
  function Busy(s: Chains, i: nat): nat
    requires i <= |s|
    decreases |s| - i
  {
    if i == |s| then 0 else (if s[i] != [] then 1 else 0) + Busy(s, i + 1)
  }

  lemma {:induction false} BusyBound(s: Chains, i: nat)
    requires i <= |s|
    ensures Busy(s, i) <= |s| - i
    decreases |s| - i
  {
    if i < |s| { BusyBound(s, i + 1); }
  }

  /** A bucket outside the part that counts, or one that only got shorter. */
  lemma {:induction false} BusyUpdate(s: Chains, i: nat, j: nat, c: Chain)
    requires i <= |s| && j < |s|
    ensures j < i ==> Busy(s[j := c], i) == Busy(s, i)
    ensures |c| <= |s[j]| ==> Busy(s[j := c], i) <= Busy(s, i)
    decreases |s| - i
  {
    if i < |s| { BusyUpdate(s, i + 1, j, c); }
  }
}
