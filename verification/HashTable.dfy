/** The hash engine: two bucket arrays, and a rehash that every operation moves a little further. */
module HashTable {
  import opened Bytes
  import opened HashModel

  const INIT_SIZE := 4096
  const LOAD_FACTOR := 2
  const STEP_BUCKETS := 10

  /** Both tables in order, counted, and storing `view` with every key once. */
  ghost predicate Core(h: HashFn, s0: Chains, c0: nat, s1: Chains, c1: nat, view: map<bytes, bytes>) {
    && TableOk(h, s0) && TableOk(h, s1) && Stores(h, s0, s1, view)
    && c0 == Total(s0) && c1 == Total(s1) && |view| == c0 + c1
  }

  /** How a rehash began: with how many entries, from and to which size. */
  predicate Began(entries: nat, from: nat, to: nat) {
    || (to == 2 * from && entries <= LOAD_FACTOR * from + 1)
    || (to >= from / 2 && entries <= from / 8)
  }

  /** The chain's node with the key, or the chain's length. */
  method ScanChain(c: Chain, key: bytes) returns (j: nat)
    ensures j <= |c| && (j < |c| ==> c[j].key == key) && (j == |c| ==> Find(c, key) == None)
  {
    j := 0;
    assert c[0..] == c;
    while j < |c| && c[j].key != key
      invariant j <= |c| && Find(c, key) == Find(c[j..], key)
    {
      assert c[j..][1..] == c[j + 1..];
      j := j + 1;
    }
  }

  /** More entries than the load factor allows. */
  predicate Crowded(entries: int, size: nat) {
    entries > size * LOAD_FACTOR
  }

  /** A grown table with at most one entry to eight buckets. */
  predicate Sparse(entries: int, size: nat) {
    size > INIT_SIZE && entries <= size / 8
  }

  class Hash {
    const h: HashFn
    var nodes0: array<Chain>
    var nodes1: array<Chain>
    var count0: nat
    var count1: nat
    /** The next bucket to move, or -1. */
    var idx: int
    ghost var view: map<bytes, bytes>
    /** Operations since the running rehash began, and the entries there were then. */
    ghost var steps: nat
    ghost var began: nat
    /** A bucket array could not be allocated. */
    ghost var starved: bool

    ghost predicate Moving()
      reads this, nodes0, nodes1
    {
      && 0 <= idx <= nodes0.Length && nodes1.Length >= INIT_SIZE
      && (forall i :: 0 <= i < idx ==> nodes0[i] == [])
      && count0 + count1 <= began + steps
      && (!starved ==> Began(began, nodes0.Length, nodes1.Length))
    }

    ghost predicate Valid()
      reads this, nodes0, nodes1
    {
      && nodes0 != nodes1 && nodes0.Length >= INIT_SIZE
      && Core(h, nodes0[..], count0, nodes1[..], count1, view)
      && if idx == -1 then nodes1.Length == 0 && (!starved ==> count0 <= LOAD_FACTOR * nodes0.Length)
         else Moving() && idx < nodes0.Length && Busy(nodes0[..], idx) + STEP_BUCKETS * steps <= nodes0.Length
    }

    constructor (h: HashFn)
      ensures Valid() && view == map[] && fresh(nodes0) && fresh(nodes1)
    {
      this.h := h;
      nodes0 := new Chain[INIT_SIZE](_ => []);
      nodes1 := new Chain[0];
      count0, count1, idx, view, steps, began, starved := 0, 0, -1, map[], 0, 0, false;
      new;
      TotalZero(nodes0[..]);
      forall k ensures Agrees(h, nodes0[..], nodes1[..], view, k) { LookNothing(h, nodes0[..], k); }
    }

    /** Moves the whole chain of bucket `idx` to the new table. */
    method MoveBucket()
      requires nodes0 != nodes1 && Core(h, nodes0[..], count0, nodes1[..], count1, view)
      requires 0 <= idx < nodes0.Length && nodes1.Length > 0
      modifies this`count0, this`count1, nodes0, nodes1
      ensures Core(h, nodes0[..], count0, nodes1[..], count1, view) && count0 + count1 == old(count0 + count1)
      ensures nodes0[..] == old(nodes0[..])[idx := []]
    {
      hide Core;
      while |nodes0[idx]| > 0
        invariant Core(h, nodes0[..], count0, nodes1[..], count1, view) && count0 + count1 == old(count0 + count1)
        invariant forall i :: 0 <= i < nodes0.Length && i != idx ==> nodes0[i] == old(nodes0[i])
        decreases |nodes0[idx]|
      {
        var node := nodes0[idx][0];
        var j := node.hv % nodes1.Length;
        ghost var s0, s1 := nodes0[..], nodes1[..];
        CoreMove(h, s0, count0, s1, count1, view, idx);
        nodes0[idx] := nodes0[idx][1..];
        nodes1[j] := [node] + nodes1[j];
        count1 := count1 + 1;
        count0 := count0 - 1;
        assert nodes0[..] == s0[idx := s0[idx][1..]];
        assert nodes1[..] == s1[j := [node] + s1[j]];
      }
    }

    /** `_rehash_step`: up to ten non-empty buckets move; empty ones cost nothing. */
    method RehashStep()
      requires Valid()
      modifies this, nodes0, nodes1
      ensures Valid() && view == old(view) && starved == old(starved) && count0 + count1 == old(count0 + count1)
      ensures old(idx) == -1 ==> idx == -1 && nodes0 == old(nodes0)
      ensures old(idx) >= 0 && idx == -1 ==> nodes0 == old(nodes1)
      ensures idx >= -1 && old(nodes0 != nodes1)
      ensures nodes0 in {old(nodes0), old(nodes1)} && (nodes1 == old(nodes1) || fresh(nodes1))
      ensures idx >= 0 ==> nodes0 == old(nodes0) && steps == old(steps) + 1 && count0 + count1 < began + steps
    {
      hide Core, Began;
      if idx < 0 { return; }
      var remaining := STEP_BUCKETS;
      while remaining > 0 && idx < nodes0.Length
        invariant nodes0 == old(nodes0) && nodes1 == old(nodes1)
        invariant nodes0 != nodes1 && unchanged(`view, `starved, `steps, `began)
        invariant 0 <= remaining <= STEP_BUCKETS && Moving() && nodes0.Length >= INIT_SIZE
        invariant Core(h, nodes0[..], count0, nodes1[..], count1, view) && count0 + count1 == old(count0 + count1)
        invariant Busy(nodes0[..], idx) + (STEP_BUCKETS - remaining) == old(Busy(nodes0[..], idx))
        decreases nodes0.Length - idx
      {
        ghost var s0 := nodes0[..];
        if |nodes0[idx]| > 0 {
          MoveBucket();
          BusyUpdate(s0, idx + 1, idx, []);
          remaining := remaining - 1;
        }
        idx := idx + 1;
      }
      if idx >= nodes0.Length {
        BeganFits(began, steps, nodes0.Length, nodes1.Length, old(Busy(nodes0[..], idx)));
        CoreSwap(h, nodes0[..], count0, nodes1[..], count1, view);
        nodes0 := nodes1;
        count0 := count1;
        nodes1 := new Chain[0];
        count1 := 0;
        idx := -1;
        assert nodes1[..] == [];
      } else {
        steps := steps + 1;
      }
    }

    /** `_find_node`: which table, bucket and position, or table -1. */
    method FindNode(key: bytes) returns (t: int, i: nat, j: nat)
      requires Valid()
      ensures t in {-1, 0, 1}
      ensures t == -1 ==> key !in view
      ensures t == 0 ==> i < nodes0.Length && i == h(key) % nodes0.Length && j < |nodes0[i]| && nodes0[i][j].key == key
      ensures t == 1 ==>
        idx >= 0 && i < nodes1.Length && i == h(key) % nodes1.Length && j < |nodes1[i]| && nodes1[i][j].key == key
    {
      assert Agrees(h, nodes0[..], nodes1[..], view, key);
      if count0 > 0 {
        i := h(key) % nodes0.Length;
        j := ScanChain(nodes0[i], key);
        if j < |nodes0[i]| { return 0, i, j; }
      } else {
        LookNothing(h, nodes0[..], key);
      }
      if idx >= 0 && count1 > 0 {
        i := h(key) % nodes1.Length;
        j := ScanChain(nodes1[i], key);
        if j < |nodes1[i]| { return 1, i, j; }
      } else {
        assert Total(nodes1[..]) == 0 by { if idx == -1 { assert nodes1[..] == []; } }
        LookNothing(h, nodes1[..], key);
      }
      return -1, 0, 0;
    }

    /** `_maybe_expand`: a rehash to twice the size begins exactly when there are more than `LOAD_FACTOR` entries
        to a bucket, none runs and the new table can be allocated. */
    method MaybeExpand(alloc: bool)
      requires nodes0 != nodes1 && nodes0.Length >= INIT_SIZE && Core(h, nodes0[..], count0, nodes1[..], count1, view)
      requires idx == -1 ==> nodes1.Length == 0 && (!starved ==> count0 <= LOAD_FACTOR * nodes0.Length + 1)
      requires idx != -1 ==> Valid()
      modifies this
      ensures Valid() && unchanged(`view, `nodes0) && (nodes1 == old(nodes1) || fresh(nodes1))
      ensures starved ==> old(starved) || !alloc
      ensures old(idx) >= 0 ==> unchanged(this)
      ensures old(idx) == -1 ==>
        idx == (if alloc && Crowded(count0, nodes0.Length) then 0 else -1) && count0 == old(count0)
      ensures old(idx) == -1 && idx == 0 ==> nodes1.Length == 2 * nodes0.Length
    {
      hide Core;
      if idx >= 0 { return; }
      if count0 <= nodes0.Length * LOAD_FACTOR { return; }
      if !alloc {
        starved := true;
        return;
      }
      BeginRehash(nodes0.Length * 2);
    }

    /** `_maybe_shrink`: a rehash to half the size, at least the initial one, begins exactly when at most one
        bucket in eight could be used, none runs and the new table can be allocated. */
    method MaybeShrink(alloc: bool)
      requires Valid()
      modifies this
      ensures Valid() && unchanged(`view, `nodes0, `starved) && (nodes1 == old(nodes1) || fresh(nodes1))
      ensures old(idx) >= 0 ==> unchanged(this)
      ensures old(idx) == -1 ==>
        idx == (if alloc && Sparse(count0, nodes0.Length) then 0 else -1) && count0 == old(count0)
      ensures old(idx) == -1 && idx == 0 ==>
        nodes1.Length == if nodes0.Length / 2 < INIT_SIZE then INIT_SIZE else nodes0.Length / 2
    {
      hide Core;
      if idx >= 0 { return; }
      if nodes0.Length <= INIT_SIZE { return; }
      if count0 > nodes0.Length / 8 { return; }
      var size := nodes0.Length / 2;
      if size < INIT_SIZE { size := INIT_SIZE; }
      if !alloc { return; }
      BeginRehash(size);
    }

    /** A new table, empty, and bucket 0 the first to move. */
    method BeginRehash(size: nat)
      requires nodes0 != nodes1 && nodes0.Length >= INIT_SIZE && Core(h, nodes0[..], count0, nodes1[..], count1, view)
      requires idx == -1 && nodes1.Length == 0 && size >= INIT_SIZE
      requires !starved ==> Began(count0, nodes0.Length, size)
      modifies this
      ensures Valid() && idx == 0 && unchanged(`view, `nodes0, `starved, `count0) && fresh(nodes1) && steps == 0
      ensures nodes1.Length == size
    {
      hide Core, Began;
      assert nodes1[..] == [];
      nodes1 := new Chain[size](_ => []);
      CoreFresh(h, nodes0[..], count0, count1, nodes1[..], view);
      count1 := 0;
      idx, steps, began := 0, 0, count0;
      BusyBound(nodes0[..], 0);
    }

    // ---------------------------------------------------------------- commands

    /** `kvs_hash_get`: the value, or None. */
    method Get(key: bytes) returns (r: Option<bytes>)
      requires Valid()
      modifies this, nodes0, nodes1
      ensures Valid() && view == old(view) && r == Opt(view, key) && starved == old(starved)
      ensures nodes0 in {old(nodes0), old(nodes1)} && (nodes1 == old(nodes1) || fresh(nodes1))
      ensures old(idx) >= 0 && nodes0 == old(nodes0) ==> idx >= 0 && steps == old(steps) + 1
    {
      hide Core, Moving, Began;
      RehashStep();
      var t, i, j := FindNode(key);
      CoreLook(h, nodes0[..], count0, nodes1[..], count1, view, key);
      if t == 0 {
        CoreFound(h, nodes0[..], count0, nodes1[..], count1, view, true, i, j);
        return Some(nodes0[i][j].val);
      }
      if t == 1 {
        CoreFound(h, nodes0[..], count0, nodes1[..], count1, view, false, i, j);
        return Some(nodes1[i][j].val);
      }
      return None;
    }

    /** `_overwrite_value` in the node that was found. */
    method Overwrite(t: int, i: nat, j: nat, key: bytes, val: bytes)
      requires Valid()
      requires t == 0 ==> i < nodes0.Length && j < |nodes0[i]| && nodes0[i][j].key == key
      requires t == 1 ==> idx >= 0 && i < nodes1.Length && j < |nodes1[i]| && nodes1[i][j].key == key
      requires t == 0 || t == 1
      modifies this`view, nodes0, nodes1
      ensures Valid() && key in old(view) && view == old(view)[key := val]
    {
      hide Core, Began;
      ghost var s0, s1 := nodes0[..], nodes1[..];
      CoreChange(h, s0, count0, s1, count1, view, t == 0, i, j, val);
      if t == 0 {
        nodes0[i] := nodes0[i][j := nodes0[i][j].(val := val)];
        assert nodes0[..] == s0[i := s0[i][j := s0[i][j].(val := val)]];
        if idx >= 0 { BusyUpdate(s0, idx, i, nodes0[i]); }
      } else {
        nodes1[i] := nodes1[i][j := nodes1[i][j].(val := val)];
        assert nodes1[..] == s1[i := s1[i][j := s1[i][j].(val := val)]];
      }
      view := view[key := val];
    }

    /** `kvs_hash_set` and `kvs_hash_set_len`; `memory` says whether what the entry needs can be allocated,
        `alloc` whether a bucket array can. */
    method Set(key: bytes, val: bytes, memory: bool, alloc: bool) returns (rc: int)
      requires Valid()
      modifies this, nodes0, nodes1
      ensures Valid() && rc == (if memory then 0 else -2) && (starved ==> old(starved) || !alloc)
      ensures view == if memory then old(view)[key := val] else old(view)
      ensures nodes0 in {old(nodes0), old(nodes1)} && (nodes1 == old(nodes1) || fresh(nodes1))
      ensures old(idx) >= 0 && nodes0 == old(nodes0) ==> idx >= 0 && steps == old(steps) + 1
      ensures old(idx) == -1 ==> (idx == 0 <==>
        memory && key !in old(view) && alloc && Crowded(|view|, old(nodes0.Length)))
    {
      hide Core, Moving, Began;
      RehashStep();
      var t, i, j := FindNode(key);
      if t == 0 { CoreFound(h, nodes0[..], count0, nodes1[..], count1, view, true, i, j); }
      if t == 1 { CoreFound(h, nodes0[..], count0, nodes1[..], count1, view, false, i, j); }
      if !memory { return -2; }
      rc := 0;
      if t >= 0 {
        Overwrite(t, i, j, key, val);
        return;
      }
      var hv := h(key);
      AddNew(hv, key, val);
      MaybeExpand(alloc);
    }

    /** A new node goes to the new table while a rehash runs, else to the only one. */
    method AddNew(hv: nat, key: bytes, val: bytes)
      requires Valid() && key !in view && hv == h(key) && (idx >= 0 ==> count0 + count1 < began + steps)
      modifies this`view, this`count0, this`count1, nodes0, nodes1
      ensures nodes0.Length >= INIT_SIZE && Core(h, nodes0[..], count0, nodes1[..], count1, view)
      ensures view == old(view)[key := val]
      ensures idx == -1 ==> count0 == |view|
      ensures idx == -1 ==> nodes1.Length == 0 && (!starved ==> count0 <= LOAD_FACTOR * nodes0.Length + 1)
      ensures idx != -1 ==> Valid()
    {
      hide Core, Began;
      ghost var s0, s1 := nodes0[..], nodes1[..];
      CoreAdd(h, s0, count0, s1, count1, view, idx >= 0, Node(hv, key, val));
      if idx >= 0 {
        var i := hv % nodes1.Length;
        nodes1[i] := [Node(hv, key, val)] + nodes1[i];
        assert nodes1[..] == s1[i := [Node(hv, key, val)] + s1[i]];
        count1 := count1 + 1;
      } else {
        var i := hv % nodes0.Length;
        nodes0[i] := [Node(hv, key, val)] + nodes0[i];
        assert nodes0[..] == s0[i := [Node(hv, key, val)] + s0[i]];
        count0 := count0 + 1;
      }
      view := view[key := val];
      CoreCount(h, nodes0[..], count0, nodes1[..], count1, view);
    }

    /** `kvs_hash_mod`. */
    method Mod(key: bytes, val: bytes, memory: bool) returns (rc: int)
      requires Valid()
      modifies this, nodes0, nodes1
      ensures Valid() && rc == (if key !in old(view) then 1 else if memory then 0 else -2) && starved == old(starved)
      ensures view == if rc == 0 then old(view)[key := val] else old(view)
      ensures nodes0 in {old(nodes0), old(nodes1)} && (nodes1 == old(nodes1) || fresh(nodes1))
      ensures old(idx) >= 0 && nodes0 == old(nodes0) ==> idx >= 0 && steps == old(steps) + 1
    {
      hide Core, Moving, Began;
      RehashStep();
      var t, i, j := FindNode(key);
      if t < 0 { return 1; }
      if t == 0 { CoreFound(h, nodes0[..], count0, nodes1[..], count1, view, true, i, j); }
      if t == 1 { CoreFound(h, nodes0[..], count0, nodes1[..], count1, view, false, i, j); }
      if !memory { return -2; }
      Overwrite(t, i, j, key, val);
      rc := 0;
    }

    /** Unlinks a node that was found. */
    method Unlink(t: int, i: nat, j: nat, key: bytes)
      requires Valid()
      requires t == 0 ==> i < nodes0.Length && j < |nodes0[i]| && nodes0[i][j].key == key
      requires t == 1 ==> idx >= 0 && i < nodes1.Length && j < |nodes1[i]| && nodes1[i][j].key == key
      requires t == 0 || t == 1
      modifies this`view, this`count0, this`count1, nodes0, nodes1
      ensures Valid() && key in old(view) && view == old(view) - {key}
      ensures idx == -1 ==> count0 == |view|
    {
      hide Core, Began;
      ghost var s0, s1 := nodes0[..], nodes1[..];
      CoreDrop(h, s0, count0, s1, count1, view, t == 0, i, j);
      if t == 0 {
        nodes0[i] := nodes0[i][..j] + nodes0[i][j + 1..];
        assert nodes0[..] == s0[i := s0[i][..j] + s0[i][j + 1..]];
        if idx >= 0 { BusyUpdate(s0, idx, i, nodes0[i]); }
        if count0 > 0 { count0 := count0 - 1; }
      } else {
        nodes1[i] := nodes1[i][..j] + nodes1[i][j + 1..];
        assert nodes1[..] == s1[i := s1[i][..j] + s1[i][j + 1..]];
        if count1 > 0 { count1 := count1 - 1; }
      }
      view := view - {key};
      CoreCount(h, nodes0[..], count0, nodes1[..], count1, view);
    }

    /** A node that was found leaves, and the table may shrink. */
    method Remove(t: int, i: nat, j: nat, key: bytes, alloc: bool)
      requires Valid()
      requires t == 0 ==> i < nodes0.Length && j < |nodes0[i]| && nodes0[i][j].key == key
      requires t == 1 ==> idx >= 0 && i < nodes1.Length && j < |nodes1[i]| && nodes1[i][j].key == key
      requires t == 0 || t == 1
      modifies this, nodes0, nodes1
      ensures Valid() && key in old(view) && view == old(view) - {key} && unchanged(`nodes0, `starved)
      ensures (nodes1 == old(nodes1) || fresh(nodes1)) && (old(idx) >= 0 ==> unchanged(`idx, `steps))
      ensures old(idx) == -1 ==> idx == if alloc && Sparse(|view|, nodes0.Length) then 0 else -1
    {
      hide Core, Moving, Began, Sparse;
      Unlink(t, i, j, key);
      MaybeShrink(alloc);
    }

    /** `kvs_hash_del`. */
    method Del(key: bytes, alloc: bool) returns (rc: int)
      requires Valid()
      modifies this, nodes0, nodes1
      ensures Valid() && rc == (if key in old(view) then 0 else 1)
      ensures view == old(view) - {key} && starved == old(starved)
      ensures nodes0 in {old(nodes0), old(nodes1)} && (nodes1 == old(nodes1) || fresh(nodes1))
      ensures old(idx) >= 0 && nodes0 == old(nodes0) ==> idx >= 0 && steps == old(steps) + 1
      ensures old(idx) == -1 ==>
        (idx == 0 <==> rc == 0 && alloc && Sparse(|view|, old(nodes0.Length)))
    {
      hide Core, Moving, Began, Sparse;
      RehashStep();
      var t, i, j := FindNode(key);
      if t < 0 {
        assert view - {key} == view;
        return 1;
      }
      Remove(t, i, j, key, alloc);
      rc := 0;
    }
  }

  /** The counters count the map's entries, an empty table none. */
  lemma CoreCount(h: HashFn, s0: Chains, c0: nat, s1: Chains, c1: nat, view: map<bytes, bytes>)
    requires Core(h, s0, c0, s1, c1, view)
    ensures |view| == c0 + c1 && (s1 == [] ==> c1 == 0)
  {
    TotalZero(s1);
  }

  lemma CoreMove(h: HashFn, s0: Chains, c0: nat, s1: Chains, c1: nat, view: map<bytes, bytes>, i: nat)
    requires Core(h, s0, c0, s1, c1, view) && i < |s0| && s0[i] != [] && |s1| > 0
    ensures c0 > 0
    ensures var n := s0[i][0];
      var j := n.hv % |s1|;
      Core(h, s0[i := s0[i][1..]], c0 - 1, s1[j := [n] + s1[j]], c1 + 1, view)
  {
    hide TableOk, Stores;
    TotalZero(s0);
    MoveNode(h, s0, s1, view, i);
  }

  /** An empty second table changes nothing. */
  lemma CoreFresh(h: HashFn, s0: Chains, c0: nat, c1: nat, s1: Chains, view: map<bytes, bytes>)
    requires Core(h, s0, c0, [], c1, view) && forall i :: 0 <= i < |s1| ==> s1[i] == []
    ensures c1 == 0 && Core(h, s0, c0, s1, 0, view)
  {
    TotalZero(s1);
    forall k ensures Agrees(h, s0, s1, view, k) {
      assert Agrees(h, s0, [], view, k);
      LookNothing(h, s1, k);
    }
  }

  /** When every bucket has been moved the new table alone stores the map. */
  lemma CoreSwap(h: HashFn, s0: Chains, c0: nat, s1: Chains, c1: nat, view: map<bytes, bytes>)
    requires Core(h, s0, c0, s1, c1, view) && forall i :: 0 <= i < |s0| ==> s0[i] == []
    ensures c0 == 0 && Core(h, s1, c1, [], 0, view)
  {
    TotalZero(s0);
    forall k ensures Agrees(h, s1, [], view, k) {
      assert Agrees(h, s0, s1, view, k);
      LookNothing(h, s0, k);
    }
  }

  /** REHASH BOUND.  A rehash of `from` buckets that has not moved them after `steps` operations has
      had at most from / 10 of them, and the entries that came meanwhile fit the new table. */
  lemma BeganFits(entries: nat, steps: nat, from: nat, to: nat, busy: nat)
    requires from >= INIT_SIZE && busy + STEP_BUCKETS * steps <= from
    ensures steps <= from / STEP_BUCKETS
    ensures Began(entries, from, to) ==> entries + steps <= LOAD_FACTOR * to
  {
  }

  // ---------------------------------------------------------------- commands on both tables

  lemma CoreLook(h: HashFn, s0: Chains, c0: nat, s1: Chains, c1: nat, view: map<bytes, bytes>, key: bytes)
    requires Core(h, s0, c0, s1, c1, view)
    ensures Agrees(h, s0, s1, view, key)
  {
  }

  /** A node that was found holds the map's value for its key. */
  lemma CoreFound(h: HashFn, s0: Chains, c0: nat, s1: Chains, c1: nat, view: map<bytes, bytes>, first: bool, i: nat,
                  j: nat)
    requires Core(h, s0, c0, s1, c1, view)
    requires if first then i < |s0| && j < |s0[i]| else i < |s1| && j < |s1[i]|
    ensures var s: Chains := if first then s0 else s1;
      && h(s[i][j].key) % |s| == i && Find(s[i], s[i][j].key) == Some(s[i][j].val)
      && Opt(view, s[i][j].key) == Some(s[i][j].val)
  {
    var s: Chains := if first then s0 else s1;
    assert ChainOk(h, s[i], |s|, i) && s[i][j] in s[i];
    FindAt(s[i], j);
    assert Agrees(h, s0, s1, view, s[i][j].key);
  }

  lemma CoreChange(h: HashFn, s0: Chains, c0: nat, s1: Chains, c1: nat, view: map<bytes, bytes>, first: bool, i: nat,
                   j: nat, val: bytes)
    requires Core(h, s0, c0, s1, c1, view)
    requires if first then i < |s0| && j < |s0[i]| else i < |s1| && j < |s1[i]|
    ensures var s: Chains := if first then s0 else s1;
      var t := s[i := s[i][j := s[i][j].(val := val)]];
      && s[i][j].key in view
      && Core(h, if first then t else s0, c0, if first then s1 else t, c1, view[s[i][j].key := val])
  {
    var s: Chains := if first then s0 else s1;
    var other: Chains := if first then s1 else s0;
    var n := s[i][j];
    var c := s[i][j := n.(val := val)];
    CoreFound(h, s0, c0, s1, c1, view, first, i, j);
    assert ChainOk(h, s[i], |s|, i);
    forall k ensures Find(c, k) == if k == n.key then Some(val) else Find(s[i], k) { FindChange(s[i], j, val, k); }
    FindChange(s[i], j, val, n.key);
    ChangeBelongs(h, s[i], |s|, i, j, val);
    TableUpdate(h, s, i, c);
    TotalUpdate(s, i, c);
    hide TableOk, Stores, ChainOk;
    Replace(h, s, other, view, i, c, n.key, Some(val));
    assert view[n.key := val].Keys == view.Keys;
  }

  lemma ChangeBelongs(h: HashFn, c: Chain, size: nat, i: int, j: nat, val: bytes)
    requires size > 0 && ChainOk(h, c, size, i) && j < |c| && Distinct(c[j := c[j].(val := val)])
    ensures ChainOk(h, c[j := c[j].(val := val)], size, i)
  {
    var c1 := c[j := c[j].(val := val)];
    forall n | n in c1 ensures Belongs(h, n, size, i) {
      if n !in c { assert n == c[j].(val := val) && c[j] in c; }
    }
  }

  lemma CoreDrop(h: HashFn, s0: Chains, c0: nat, s1: Chains, c1: nat, view: map<bytes, bytes>, first: bool, i: nat,
                 j: nat)
    requires Core(h, s0, c0, s1, c1, view)
    requires if first then i < |s0| && j < |s0[i]| else i < |s1| && j < |s1[i]|
    ensures var s: Chains := if first then s0 else s1;
      var t := s[i := s[i][..j] + s[i][j + 1..]];
      && s[i][j].key in view && (if first then c0 > 0 else c1 > 0)
      && Core(h, if first then t else s0, if first then c0 - 1 else c0,
                 if first then s1 else t, if first then c1 else c1 - 1, view - {s[i][j].key})
  {
    var s: Chains := if first then s0 else s1;
    var other: Chains := if first then s1 else s0;
    var n := s[i][j];
    var c := s[i][..j] + s[i][j + 1..];
    CoreFound(h, s0, c0, s1, c1, view, first, i, j);
    assert ChainOk(h, s[i], |s|, i);
    forall k ensures Find(c, k) == if k == n.key then None else Find(s[i], k) { FindDrop(s[i], j, k); }
    FindDrop(s[i], j, n.key);
    assert ChainOk(h, c, |s|, i) by { assert forall m :: m in c ==> m in s[i]; }
    TableUpdate(h, s, i, c);
    TotalUpdate(s, i, c);
    TotalZero(s);
    hide TableOk, Stores, ChainOk;
    Replace(h, s, other, view, i, c, n.key, None);
    assert (view - {n.key}).Keys == view.Keys - {n.key};
  }

  lemma CoreAdd(h: HashFn, s0: Chains, c0: nat, s1: Chains, c1: nat, view: map<bytes, bytes>, second: bool, n: Node)
    requires Core(h, s0, c0, s1, c1, view) && n.hv == h(n.key) && n.key !in view
    requires if second then |s1| > 0 else |s0| > 0
    ensures var s: Chains := if second then s1 else s0;
      var t := s[n.hv % |s| := [n] + s[n.hv % |s|]];
      Core(h, if second then s0 else t, if second then c0 else c0 + 1,
              if second then t else s1, if second then c1 + 1 else c1, view[n.key := n.val])
  {
    hide TableOk, Stores;
    if second { AddNode(h, s1, s0, view, n); } else { AddNode(h, s0, s1, view, n); }
    assert view[n.key := n.val].Keys == view.Keys + {n.key};
  }

  // ---------------------------------------------------------------- sequences of commands

  datatype Op = GetOp(key: bytes) | SetOp(key: bytes, val: bytes) | ModOp(key: bytes, val: bytes) | DelOp(key: bytes)

  function Apply(view: map<bytes, bytes>, op: Op): map<bytes, bytes> {
    match op
    case GetOp(_) => view
    case SetOp(k, v) => view[k := v]
    case ModOp(k, v) => if k in view then view[k := v] else view
    case DelOp(k) => view - {k}
  }

  function ApplyAll(view: map<bytes, bytes>, ops: seq<Op>): map<bytes, bytes>
    decreases |ops|
  {
    if ops == [] then view else ApplyAll(Apply(view, ops[0]), ops[1..])
  }

  lemma {:induction false} ApplyAllSnoc(view: map<bytes, bytes>, ops: seq<Op>, op: Op)
    ensures ApplyAll(view, ops + [op]) == Apply(ApplyAll(view, ops), op)
    decreases |ops|
  {
    if ops == [] {
      assert ops + [op] == [op] && [op][1..] == [];
    } else {
      assert (ops + [op])[1..] == ops[1..] + [op];
      ApplyAllSnoc(Apply(view, ops[0]), ops[1..], op);
    }
  }

  method Perform(t: Hash, op: Op)
    requires t.Valid()
    modifies t, t.nodes0, t.nodes1
    ensures t.Valid() && t.view == Apply(old(t.view), op) && (t.starved ==> old(t.starved))
    ensures t.nodes0 in {old(t.nodes0), old(t.nodes1)} && (t.nodes1 == old(t.nodes1) || fresh(t.nodes1))
    ensures old(t.idx) >= 0 && t.nodes0 == old(t.nodes0) ==> t.idx >= 0 && t.steps == old(t.steps) + 1
  {
    match op {
      case GetOp(k) => var _ := t.Get(k);
      case SetOp(k, v) => var _ := t.Set(k, v, true, true);
      case ModOp(k, v) => var _ := t.Mod(k, v, true);
      case DelOp(k) => var _ := t.Del(k, true);
    }
  }

  /** EVERY SEQUENCE.  With bucket arrays to be had, any sequence of commands leaves the map those
      commands make; whenever no rehash runs there are at most twice as many entries as buckets; and
      a rehash is over after a tenth of its buckets' number of commands and one more. */
  method PerformAll(t: Hash, ops: seq<Op>)
    requires t.Valid() && !t.starved
    modifies t, t.nodes0, t.nodes1
    ensures t.Valid() && t.view == ApplyAll(old(t.view), ops)
    ensures t.idx == -1 ==> |t.view| <= LOAD_FACTOR * t.nodes0.Length
    ensures old(t.idx) >= 0 && |ops| > old(t.nodes0.Length) / STEP_BUCKETS ==> t.nodes0 != old(t.nodes0)
  {
    var i := 0;
    while i < |ops|
      invariant i <= |ops| && t.Valid() && !t.starved && t.view == ApplyAll(old(t.view), ops[..i])
      invariant t.nodes0 == old(t.nodes0) || t.nodes0 == old(t.nodes1) || fresh(t.nodes0)
      invariant t.nodes1 == old(t.nodes1) || fresh(t.nodes1)
      invariant old(t.idx) >= 0 && t.nodes0 == old(t.nodes0) ==> t.idx >= 0 && t.steps == old(t.steps) + i
    {
      ApplyAllSnoc(old(t.view), ops[..i], ops[i]);
      assert ops[..i] + [ops[i]] == ops[..i + 1];
      Perform(t, ops[i]);
      i := i + 1;
    }
    assert ops[..i] == ops;
    if t.idx >= 0 { BeganFits(t.began, t.steps, t.nodes0.Length, t.nodes1.Length, Busy(t.nodes0[..], t.idx)); }
  }
}
