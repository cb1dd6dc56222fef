/** The skip list engine: an object with the node memory, changed in place. */
module SkipList {
  import opened Bytes
  import opened Ordered
  import opened SkipModel

  /** Writes one forward pointer. */
  function Put(mem: Mem, p: Ptr, i: nat, q: Ptr): Mem
    requires p in mem && i < |mem[p].fwd|
  {
    mem[p := mem[p].(fwd := mem[p].fwd[i := q])]
  }

  // ---------------------------------------------------------------- linking and unlinking, level by level

  /** Levels below i are those of the list with the tower, the others those of the list without it. */
  ghost predicate Between(mem: Mem, low: seq<Tower>, high: seq<Tower>, i: nat) {
    && (forall j: nat :: j < i && j <= MAX_LEVEL ==> LevelOk(mem, low, j))
    && (forall j: nat :: i <= j <= MAX_LEVEL ==> LevelOk(mem, high, j))
  }

  lemma PutCells(mem: Mem, ts: seq<Tower>, p: Ptr, i: nat, q: Ptr)
    requires CellsOk(mem, ts) && p in mem && i < |mem[p].fwd|
    ensures CellsOk(Put(mem, p, i, q), ts)
  {
    forall j | 0 <= j < |ts| ensures CellOk(Put(mem, p, i, q), ts[j]) { assert CellOk(mem, ts[j]); }
  }

  lemma PutBetween(mem: Mem, mem': Mem, low: seq<Tower>, high: seq<Tower>, i: nat)
    requires Between(mem, low, high, i) && LevelOk(mem', low, i)
    requires forall j: nat :: j != i ==> KeptAt(mem, mem', j)
    ensures Between(mem', low, high, i + 1)
  {
    hide LevelOk, KeptAt;
    forall j: nat | j < i + 1 && j <= MAX_LEVEL ensures LevelOk(mem', low, j) {
      if j < i { LevelKept(mem, mem', low, j); }
    }
    forall j: nat | i + 1 <= j <= MAX_LEVEL ensures LevelOk(mem', high, j) {
      LevelKept(mem, mem', high, j);
    }
  }

  /** The two writes that link a node in at level i. */
  lemma LinkStep(mem: Mem, ts: seq<Tower>, n: nat, t: Tower, i: nat)
    requires n <= |ts| && i <= t.level && i <= MAX_LEVEL
    requires CellsOk(mem, Grown(ts, n, t)) && Between(mem, Grown(ts, n, t), ts, i)
    ensures var u := At(ts, Pred(ts, n, i));
      && u in mem && i < |mem[u].fwd| && t.ptr in mem && i < |mem[t.ptr].fwd| && u != t.ptr
      && var m1 := Put(Put(mem, t.ptr, i, mem[u].fwd[i]), u, i, t.ptr);
      && CellsOk(m1, Grown(ts, n, t)) && Between(m1, Grown(ts, n, t), ts, i + 1)
      && m1.Keys == mem.Keys
  {
    hide LevelOk, Pred, CellsOk, Grown, Idx;
    var g, p := Grown(ts, n, t), Pred(ts, n, i);
    GrownSize(ts, n, t);
    ShiftAt(ts, n, t, p);
    PlaceOk(mem, g, Shift(n, p));
    PlaceOk(mem, g, n + 1);
    PlacesApart(mem, g, Shift(n, p), n + 1);
    var u := At(ts, p);
    var m0 := Put(mem, t.ptr, i, mem[u].fwd[i]);
    var m1 := Put(m0, u, i, t.ptr);
    PutCells(mem, g, t.ptr, i, mem[u].fwd[i]);
    PutCells(m0, g, u, i, t.ptr);
    LevelLinked(mem, m1, ts, n, t, i);
    PutBetween(mem, m1, g, ts, i);
  }

  /** The write that unlinks a node at level i. */
  lemma UnlinkStep(mem: Mem, ts: seq<Tower>, n: nat, t: Tower, i: nat)
    requires n <= |ts| && i <= t.level && i <= MAX_LEVEL
    requires CellsOk(mem, Grown(ts, n, t)) && Between(mem, ts, Grown(ts, n, t), i)
    ensures var u := At(ts, Pred(ts, n, i));
      && u in mem && i < |mem[u].fwd| && t.ptr in mem && i < |mem[t.ptr].fwd| && u != t.ptr
      && var m1 := Put(mem, u, i, mem[t.ptr].fwd[i]);
      && CellsOk(m1, Grown(ts, n, t)) && Between(m1, ts, Grown(ts, n, t), i + 1)
      && m1.Keys == mem.Keys
  {
    hide LevelOk, Pred, CellsOk, Grown, Idx;
    var g, p := Grown(ts, n, t), Pred(ts, n, i);
    GrownSize(ts, n, t);
    ShiftAt(ts, n, t, p);
    PlaceOk(mem, g, Shift(n, p));
    PlaceOk(mem, g, n + 1);
    PlacesApart(mem, g, Shift(n, p), n + 1);
    var u := At(ts, p);
    var m1 := Put(mem, u, i, mem[t.ptr].fwd[i]);
    PutCells(mem, g, u, i, mem[t.ptr].fwd[i]);
    LevelUnlinked(mem, m1, ts, n, t, i);
    PutBetween(mem, m1, ts, g, i);
  }

  /** Past the tower's top the two lists agree. */
  lemma LinkEnds(mem: Mem, ts: seq<Tower>, n: nat, t: Tower, i: nat)
    requires n <= |ts| && i > t.level && CellsOk(mem, Grown(ts, n, t)) && Between(mem, Grown(ts, n, t), ts, i)
    ensures AllOk(mem, Grown(ts, n, t))
  {
    hide LevelOk, Grown, CellsOk;
    forall j: nat | j <= MAX_LEVEL ensures LevelOk(mem, Grown(ts, n, t), j) {
      if j >= i { LevelAbove(mem, ts, n, t, j); }
    }
  }

  lemma UnlinkEnds(mem: Mem, ts: seq<Tower>, n: nat, t: Tower, i: nat)
    requires n <= |ts| && i > t.level && CellsOk(mem, Grown(ts, n, t)) && Between(mem, ts, Grown(ts, n, t), i)
    ensures AllOk(mem - {t.ptr}, ts) && t.ptr in mem
  {
    hide LevelOk, Grown, CellsOk;
    forall j: nat | j <= MAX_LEVEL ensures LevelOk(mem, ts, j) {
      if j >= i { LevelAbove(mem, ts, n, t, j); }
    }
    ShrunkCells(mem, ts, n, t);
    forall j: nat | j <= MAX_LEVEL ensures LevelOk(mem - {t.ptr}, ts, j) {
      Forget(mem, ts, t.ptr, j);
    }
  }

  lemma ShrunkCells(mem: Mem, ts: seq<Tower>, n: nat, t: Tower)
    requires n <= |ts| && CellsOk(mem, Grown(ts, n, t))
    ensures t.ptr in mem && CellsOk(mem - {t.ptr}, ts)
    ensures forall pos: nat :: pos <= |ts| ==> At(ts, pos) != t.ptr
  {
    var g := Grown(ts, n, t);
    assert g[n] == t && CellOk(mem, g[n]);
    forall pos: nat | pos <= |ts| ensures At(ts, pos) != t.ptr {
      ShiftAt(ts, n, t, pos);
      PlacesApart(mem, g, Shift(n, pos), n + 1);
    }
    forall j | 0 <= j < |ts| ensures CellOk(mem - {t.ptr}, ts[j]) {
      assert g[if j < n then j else j + 1] == ts[j];
      assert At(ts, j + 1) == ts[j].ptr;
    }
    forall j, k | 0 <= j < k < |ts| ensures ts[j].ptr != ts[k].ptr {
      assert g[if j < n then j else j + 1] == ts[j] && g[if k < n then k else k + 1] == ts[k];
    }
  }

  lemma Forget(mem: Mem, ts: seq<Tower>, p: Ptr, i: nat)
    requires LevelOk(mem, ts, i) && forall pos: nat :: pos <= |ts| ==> At(ts, pos) != p
    ensures LevelOk(mem - {p}, ts, i)
  {
    forall pos: nat | pos <= |ts| && Height(ts, pos) >= i ensures LinkOk(mem - {p}, ts, i, pos) {
      assert LinkOk(mem, ts, i, pos);
    }
  }

  // ---------------------------------------------------------------- reading a link

  /** A forward pointer leads to the next tower of that height, and is NULL when there is none. */
  lemma ReadLink(mem: Mem, ts: seq<Tower>, i: nat, pos: nat)
    requires AllOk(mem, ts) && pos <= |ts| && i <= Height(ts, pos) && i <= MAX_LEVEL
    ensures At(ts, pos) in mem && i < |mem[At(ts, pos)].fwd|
    ensures var q, r := mem[At(ts, pos)].fwd[i], Idx(ts, pos, i);
      && (q == NULL <==> r == |ts|)
      && (r < |ts| ==> q == ts[r].ptr && CellOk(mem, ts[r]) && At(ts, r + 1) == q && Height(ts, r + 1) >= i)
  {
    hide Idx;
    assert LevelOk(mem, ts, i);
    assert LinkOk(mem, ts, i, pos);
    var r := Idx(ts, pos, i);
    if r < |ts| { assert CellOk(mem, ts[r]); }
  }

  /** Past the last smaller key at level i. */
  lemma StopHere(ts: seq<Tower>, key: bytes, i: nat, pos: nat)
    requires Sorted(Entries(ts)) && i <= MAX_LEVEL && pos <= Slot(ts, key) && Height(ts, pos) >= i
    requires var r := Idx(ts, pos, i); r == |ts| || !Less(ts[r].kv.key, key)
    ensures pos == Pred(ts, Slot(ts, key), i)
  {
    var r, n := Idx(ts, pos, i), Slot(ts, key);
    if r < |ts| { SlotSplits(ts, key, r); }
    PredIs(ts, n, i, pos);
  }

  lemma SlotFound(ts: seq<Tower>, key: bytes)
    requires Sorted(Entries(ts))
    ensures var n := Slot(ts, key);
      && (n < |ts| && ts[n].kv.key == key ==> key in ToMap(Entries(ts)) && ToMap(Entries(ts))[key] == ts[n].kv.val)
      && (n == |ts| || ts[n].kv.key != key ==>
            key !in ToMap(Entries(ts)) && AllLess(Entries(ts[..n]), key) && AllMore(Entries(ts[n..]), key))
  {
    var n, s := Slot(ts, key), Entries(ts);
    forall j | 0 <= j < |ts| ensures Less(ts[j].kv.key, key) <==> j < n { SlotSplits(ts, key, j); }
    if n < |ts| && ts[n].kv.key == key {
      assert s == s[..n] + [s[n]] + s[n + 1..];
      ToMapReplace(s[..n], s[n], s[n].val, s[n + 1..]);
    } else {
      forall j | n <= j < |ts| ensures Less(key, ts[j].kv.key) {
        LessTotal(key, ts[j].kv.key);
        if j > n { assert Less(s[n].key, s[j].key); LessTotal(key, ts[n].kv.key); LessTrans(key, s[n].key, s[j].key); }
      }
      AbsentKey(s, key);
    }
  }

  /** The entries with a tower more. */
  lemma GrownEntries(ts: seq<Tower>, n: nat, t: Tower)
    requires n <= |ts|
    ensures Entries(Grown(ts, n, t)) == Entries(ts[..n]) + [t.kv] + Entries(ts[n..])
    ensures Entries(ts) == Entries(ts[..n]) + Entries(ts[n..])
  {
  }

  lemma {:induction false} GrownPtrs(ts: seq<Tower>, n: nat, t: Tower)
    requires n <= |ts|
    ensures Ptrs(Grown(ts, n, t)) == Ptrs(ts) + {t.ptr}
  {
    var g := Grown(ts, n, t);
    if n == 0 {
      assert g == [t] + ts && g[1..] == ts;
    } else {
      assert g[1..] == Grown(ts[1..], n - 1, t);
      GrownPtrs(ts[1..], n - 1, t);
    }
  }

  lemma {:induction false} NotInPtrs(ts: seq<Tower>, p: Ptr)
    requires forall j :: 0 <= j < |ts| ==> ts[j].ptr != p
    ensures p !in Ptrs(ts)
  {
    if ts != [] { NotInPtrs(ts[1..], p); }
  }

  /** A tower that is not there yet. */
  lemma GrownCells(mem: Mem, ts: seq<Tower>, n: nat, t: Tower)
    requires CellsOk(mem, ts) && n <= |ts| && t.ptr !in mem && t.ptr > HEAD && t.level <= MAX_LEVEL
    ensures CellsOk(mem[t.ptr := Cell(t.kv, t.level, seq(t.level + 1, _ => NULL))], Grown(ts, n, t))
  {
    var g, m1 := Grown(ts, n, t), mem[t.ptr := Cell(t.kv, t.level, seq(t.level + 1, _ => NULL))];
    forall j | 0 <= j < |g| ensures CellOk(m1, g[j]) {
      if j != n { assert g[j] == ts[if j < n then j else j - 1]; assert CellOk(mem, g[j]); }
    }
    forall j, k | 0 <= j < k < |g| ensures g[j].ptr != g[k].ptr {
      if j != n { assert g[j] == ts[if j < n then j else j - 1]; assert CellOk(mem, g[j]); }
      if k != n { assert g[k] == ts[if k < n then k else k - 1]; assert CellOk(mem, g[k]); }
    }
  }

  lemma GrownStart(mem: Mem, ts: seq<Tower>, n: nat, t: Tower)
    requires AllOk(mem, ts) && n <= |ts| && t.ptr !in mem
    ensures Between(mem[t.ptr := Cell(t.kv, t.level, seq(t.level + 1, _ => NULL))], Grown(ts, n, t), ts, 0)
  {
    hide LevelOk, Grown, CellsOk;
    var m1 := mem[t.ptr := Cell(t.kv, t.level, seq(t.level + 1, _ => NULL))];
    forall j: nat | j <= MAX_LEVEL ensures LevelOk(m1, ts, j) { LevelKept(mem, m1, ts, j); }
  }

  /** The list with a key more, in order. */
  lemma GrownSorted(ts: seq<Tower>, t: Tower)
    requires Sorted(Entries(ts))
    requires var n := Slot(ts, t.kv.key); n == |ts| || ts[n].kv.key != t.kv.key
    ensures var g := Grown(ts, Slot(ts, t.kv.key), t);
      Sorted(Entries(g)) && ToMap(Entries(g)) == ToMap(Entries(ts))[t.kv.key := t.kv.val]
  {
    hide Less, Sorted, AllLess, AllMore, ToMap, Entries;
    var n := Slot(ts, t.kv.key);
    SlotFound(ts, t.kv.key);
    GrownEntries(ts, n, t);
    SortedInsert(Entries(ts[..n]), t.kv, Entries(ts[n..]));
    ToMapMiddle(Entries(ts[..n]), t.kv, Entries(ts[n..]));
  }

  /** The list with a key less. */
  lemma ShrunkSorted(ts: seq<Tower>, n: nat, t: Tower)
    requires n <= |ts| && Sorted(Entries(Grown(ts, n, t)))
    ensures Sorted(Entries(ts)) && ToMap(Entries(ts)) == ToMap(Entries(Grown(ts, n, t))) - {t.kv.key}
  {
    hide Less, Sorted, AllLess, AllMore, ToMap, Entries;
    GrownEntries(ts, n, t);
    SortedAround(Entries(ts[..n]), t.kv, Entries(ts[n..]));
    ToMapMiddle(Entries(ts[..n]), t.kv, Entries(ts[n..]));
  }

  class Skip {
    var mem: Mem
    var level: nat
    var count: nat
    ghost var towers: seq<Tower>

    /** Each level is the list of the towers that reach it, in key order; no tower is higher than the
        list; nothing else is allocated. */
    ghost predicate Valid()
      reads this
    {
      && AllOk(mem, towers) && Sorted(Entries(towers)) && level <= MAX_LEVEL && count == |towers|
      && (forall j :: 0 <= j < |towers| ==> towers[j].level <= level)
      && mem.Keys == {HEAD} + Ptrs(towers)
    }

    ghost function View(): map<bytes, bytes>
      reads this
    {
      ToMap(Entries(towers))
    }

    /** `kvs_skiptable_create`. */
    constructor ()
      ensures Valid() && View() == map[]
    {
      mem := map[HEAD := Cell(Entry([], []), MAX_LEVEL, seq(MAX_LEVEL + 1, _ => NULL))];
      level, count := 0, 0;
      towers := [];
    }

    /** `skiptable_search_node`: the node of a key, and the last place before it at every level. */
    method Search(key: bytes) returns (node: Ptr, update: seq<Ptr>)
      requires Valid()
      ensures var n := Slot(towers, key);
        && |update| == MAX_LEVEL + 1 && (forall i: nat :: i <= level ==> update[i] == At(towers, Pred(towers, n, i)))
        && node == if n < |towers| && towers[n].kv.key == key then towers[n].ptr else NULL
    {
      hide AllOk, Sorted, Entries, Idx, Less, Ptrs, CellsOk, Pred, Slot, Height;
      ghost var n := Slot(towers, key);
      ghost var pos := 0;
      HeaderHigh(towers);
      var cur := HEAD;
      update := seq(MAX_LEVEL + 1, _ => NULL);
      var i: int := level;
      while i >= 0
        invariant -1 <= i <= level && |update| == MAX_LEVEL + 1
        invariant pos <= n && cur == At(towers, pos) && Height(towers, pos) >= i
        invariant forall j: nat :: i < j <= level ==> update[j] == At(towers, Pred(towers, n, j))
        invariant i < level ==> pos == Pred(towers, n, i + 1)
      {
        cur, pos := Advance(key, i, cur, pos);
        update := update[i := cur];
        i := i - 1;
      }
      BottomPred(towers, n);
      ReadLink(mem, towers, 0, pos);
      var q := mem[cur].fwd[0];
      IdxBottom(towers, n);
      node := if q != NULL && mem[q].kv.key == key then q else NULL;
      if q != NULL { assert CellOk(mem, towers[n]); }
    }

    /** Goes right at one level while the next key is smaller. */
    method Advance(key: bytes, i: nat, from: Ptr, ghost start: nat) returns (cur: Ptr, ghost pos: nat)
      requires Valid() && i <= level && start <= Slot(towers, key)
      requires from == At(towers, start) && Height(towers, start) >= i
      ensures pos == Pred(towers, Slot(towers, key), i) && cur == At(towers, pos) && Height(towers, pos) >= i
    {
      hide AllOk, Sorted, Entries, Less, Ptrs, CellsOk, Pred, Slot, Idx;
      cur, pos := from, start;
      ReadLink(mem, towers, i, pos);
      while mem[cur].fwd[i] != NULL
        invariant pos <= Slot(towers, key) && cur == At(towers, pos) && Height(towers, pos) >= i
        invariant cur in mem && i < |mem[cur].fwd|
        invariant mem[cur].fwd[i] != NULL ==> mem[cur].fwd[i] in mem
        decreases |towers| - pos
      {
        ReadLink(mem, towers, i, pos);
        var cmp := StrCmp(mem[mem[cur].fwd[i]].kv.key, key);
        if cmp >= 0 { break; }
        SlotSplits(towers, key, Idx(towers, pos, i));
        cur := mem[cur].fwd[i];
        pos := Idx(towers, pos, i) + 1;
        ReadLink(mem, towers, i, pos);
      }
      ReadLink(mem, towers, i, pos);
      StopHere(towers, key, i, pos);
    }

    /** `kvs_skiptable_get`. */
    method Get(key: bytes) returns (r: Option<bytes>)
      requires Valid()
      ensures r == if key in View() then Some(View()[key]) else None
    {
      hide AllOk, Sorted, Entries, Less, Ptrs, CellsOk, ToMap, AllLess, AllMore, Slot;
      var node, _ := Search(key);
      SlotFound(towers, key);
      NodeCells(mem, towers);
      r := if node != NULL then Some(mem[node].kv.val) else None;
    }

    /** `kvs_skiptable_mod`: 1 when the key is missing, -2 when there is no memory for the value. */
    method Mod(key: bytes, val: bytes, memory: bool) returns (rc: int)
      requires Valid()
      modifies this`mem, this`towers
      ensures Valid() && rc == if key !in old(View()) then 1 else if !memory then -2 else 0
      ensures View() == if rc == 0 then old(View())[key := val] else old(View())
    {
      hide AllOk, Sorted, Entries, Less, Ptrs, CellsOk, ToMap, AllLess, AllMore, Slot;
      var node, _ := Search(key);
      SlotFound(towers, key);
      NodeCells(mem, towers);
      if node == NULL { return 1; }
      if !memory { return -2; }
      ghost var n := Slot(towers, key);
      Revalued(mem, towers, n, val);
      mem := mem[node := mem[node].(kv := Entry(mem[node].kv.key, val))];
      towers := towers[n := towers[n].(kv := Entry(key, val))];
      rc := 0;
    }

    /** `kvs_skiptable_set`, with the level the coin tosses give and the place of the new node. */
    method Set(key: bytes, val: bytes, toss: nat, memory: bool, at: Ptr) returns (rc: int)
      requires Valid() && toss <= MAX_LEVEL && (memory ==> at !in mem && at > HEAD)
      modifies this
      ensures Valid() && rc == if memory then 0 else -2
      ensures View() == if memory then old(View())[key := val] else old(View())
      ensures level == if key in old(View()) || toss <= old(level) then old(level) else toss
      ensures count == if memory && key !in old(View()) then old(count) + 1 else old(count)
    {
      hide AllOk, Sorted, Entries, Less, Ptrs, CellsOk, ToMap, AllLess, AllMore, Slot, Pred, Grown;
      var node, update := Search(key);
      SlotFound(towers, key);
      NodeCells(mem, towers);
      if node != NULL {
        rc := Mod(key, val, memory);
        return;
      }
      update := RaiseLevel(toss, update, Slot(towers, key));
      if !memory { return -2; }
      ghost var ts, t := towers, Tower(at, Entry(key, val), toss);
      LinkAll(toss, at, key, val, update, Slot(towers, key));
      GrownSorted(ts, t);
      GrownPtrs(ts, Slot(ts, key), t);
      GrownLevels(ts, Slot(ts, key), t, level);
      count := count + 1;
      rc := 0;
    }

    /** The list becomes as high as the new node, and the header comes before it at the new levels. */
    method RaiseLevel(toss: nat, update: seq<Ptr>, ghost n: nat) returns (up: seq<Ptr>)
      requires Valid() && toss <= MAX_LEVEL && |update| == MAX_LEVEL + 1 && n <= |towers|
      requires forall i: nat :: i <= level ==> update[i] == At(towers, Pred(towers, n, i))
      modifies this`level
      ensures Valid() && level == if toss > old(level) then toss else old(level)
      ensures |up| == MAX_LEVEL + 1 && forall i: nat :: i <= level ==> up[i] == At(towers, Pred(towers, n, i))
    {
      hide AllOk, Sorted, Entries, Ptrs, Pred;
      up := update;
      if toss > level {
        var i := level + 1;
        while i <= toss
          invariant level < i <= toss + 1 && |up| == MAX_LEVEL + 1
          invariant forall j: nat :: j < i ==> up[j] == At(towers, Pred(towers, n, j))
          invariant level == old(level)
        {
          PredIs(towers, n, i, 0);
          up := up[i := HEAD];
          i := i + 1;
        }
        level := toss;
      }
    }

    /** The new node is written and linked in from the bottom up. */
    method LinkAll(toss: nat, at: Ptr, key: bytes, val: bytes, update: seq<Ptr>, ghost n: nat)
      requires AllOk(mem, towers) && toss <= MAX_LEVEL && at !in mem && at > HEAD && |update| == MAX_LEVEL + 1
      requires n <= |towers| && forall i: nat :: i <= toss ==> update[i] == At(towers, Pred(towers, n, i))
      modifies this`mem, this`towers
      ensures AllOk(mem, towers) && towers == Grown(old(towers), n, Tower(at, Entry(key, val), toss))
      ensures mem.Keys == old(mem.Keys) + {at}
    {
      hide AllOk, Pred, CellsOk, Grown, Between;
      ghost var ts := towers;
      ghost var t := Tower(at, Entry(key, val), toss);
      assert CellsOk(mem, ts) by { AllParts(mem, ts); }
      GrownCells(mem, ts, n, t);
      GrownStart(mem, ts, n, t);
      mem := mem[at := Cell(Entry(key, val), toss, seq(toss + 1, _ => NULL))];
      var i := 0;
      while i <= toss
        invariant i <= toss + 1 && towers == ts && mem.Keys == old(mem.Keys) + {at}
        invariant CellsOk(mem, Grown(ts, n, t)) && Between(mem, Grown(ts, n, t), ts, i)
      {
        LinkStep(mem, ts, n, t, i);
        var u := update[i];
        mem := Put(mem, at, i, mem[u].fwd[i]);
        mem := Put(mem, u, i, at);
        i := i + 1;
      }
      LinkEnds(mem, ts, n, t, i);
      towers := Grown(ts, n, t);
    }

    /** `kvs_skiptable_del`: 1 when the key is missing.  The list is as high as its highest tower after. */
    method Del(key: bytes) returns (rc: int)
      requires Valid()
      modifies this
      ensures Valid() && rc == if key in old(View()) then 0 else 1
      ensures View() == old(View()) - {key}
      ensures rc == 0 && level > 0 ==> exists j :: 0 <= j < |towers| && towers[j].level == level
    {
      hide AllOk, Sorted, Entries, Less, Ptrs, CellsOk, ToMap, AllLess, AllMore, Slot, Pred, Grown;
      var node, update := Search(key);
      SlotFound(towers, key);
      NodeCells(mem, towers);
      if node == NULL {
        assert old(View()) - {key} == old(View());
        return 1;
      }
      ghost var n := Slot(towers, key);
      ghost var ts, t := towers[..n] + towers[n + 1..], towers[n];
      assert towers == Grown(ts, n, t) by { Regrow(towers, n); }
      ShrunkPtrs(mem, ts, n, t);
      UnlinkAll(node, update, n, ts, t);
      ShrunkSorted(ts, n, t);
      ShrunkLevels(old(towers), ts, n, t, level);
      LowerLevel();
      count := count - 1;
      rc := 0;
    }

    /** The list gives up the levels that nothing reaches any more. */
    method LowerLevel()
      requires AllOk(mem, towers) && level <= MAX_LEVEL && forall j :: 0 <= j < |towers| ==> towers[j].level <= level
      modifies this`level
      ensures level <= old(level) && forall j :: 0 <= j < |towers| ==> towers[j].level <= level
      ensures level > 0 ==> exists j :: 0 <= j < |towers| && towers[j].level == level
    {
      hide AllOk, Idx;
      ReadHeader(mem, towers);
      while level > 0 && mem[HEAD].fwd[level] == NULL
        invariant level <= old(level) && forall j :: 0 <= j < |towers| ==> towers[j].level <= level
        decreases level
      {
        ReadLink(mem, towers, level, 0);
        level := level - 1;
      }
      if level > 0 {
        ReadLink(mem, towers, level, 0);
        assert towers[Idx(towers, 0, level)].level == level;
      }
    }

    /** Unlinks from the bottom up until a level does not lead to the node, then frees it. */
    method UnlinkAll(node: Ptr, update: seq<Ptr>, ghost n: nat, ghost ts: seq<Tower>, ghost t: Tower)
      requires Valid() && n <= |ts| && towers == Grown(ts, n, t) && node == t.ptr && |update| == MAX_LEVEL + 1
      requires forall i: nat :: i <= level ==> update[i] == At(towers, Pred(towers, n, i))
      requires t.level <= level
      modifies this`mem, this`towers
      ensures towers == ts && AllOk(mem, ts) && mem.Keys == old(mem.Keys) - {node}
    {
      hide AllOk, Pred, CellsOk, Grown, Between, Sorted, Entries, Ptrs;
      ghost var g := towers;
      AllParts(mem, g);
      assert Between(mem, ts, g, 0) by { StartUnlink(mem, ts, g); }
      var i := 0;
      while i <= level
        invariant i <= level + 1 && i <= t.level + 1 && towers == g && mem.Keys == old(mem.Keys)
        invariant CellsOk(mem, g) && Between(mem, ts, g, i)
      {
        LeadsTo(mem, ts, n, t, i);
        if mem[update[i]].fwd[i] != node { break; }
        UnlinkStep(mem, ts, n, t, i);
        var u := update[i];
        mem := Put(mem, u, i, mem[node].fwd[i]);
        i := i + 1;
      }
      UnlinkEnds(mem, ts, n, t, i);
      mem := mem - {node};
      towers := ts;
    }

    /** `kvs_skiptable_foreach`: in key order, until a visit returns something else than 0. */
    method Foreach(visit: Entry -> int) returns (rc: int, seen: seq<Entry>)
      requires Valid()
      ensures seen <= Entries(towers) && (rc == 0 ==> seen == Entries(towers))
      ensures rc != 0 ==> seen != [] && visit(seen[|seen| - 1]) == rc
      ensures forall j :: 0 <= j < |seen| - (if rc == 0 then 0 else 1) ==> visit(seen[j]) == 0
    {
      hide AllOk, Sorted, Ptrs, CellsOk, Idx, Entries, Less;
      ghost var pos := 0;
      ReadLink(mem, towers, 0, 0);
      IdxBottom(towers, 0);
      var cur := mem[HEAD].fwd[0];
      seen := [];
      while cur != NULL
        invariant pos <= |towers| && cur == Addr(towers, pos)
        invariant (cur != NULL ==> pos < |towers| && CellOk(mem, towers[pos]))
        invariant pos == |towers| <==> cur == NULL
        invariant seen == Entries(towers)[..pos] && forall j :: 0 <= j < |seen| ==> visit(seen[j]) == 0
        decreases |towers| - pos
      {
        seen := seen + [mem[cur].kv];
        rc := visit(mem[cur].kv);
        if rc != 0 { return; }
        pos := pos + 1;
        ReadLink(mem, towers, 0, pos);
        IdxBottom(towers, pos);
        cur := mem[cur].fwd[0];
      }
      rc := 0;
      assert Entries(towers)[..|towers|] == Entries(towers);
    }
  }

  // ---------------------------------------------------------------- small steps

  lemma HeaderHigh(ts: seq<Tower>)
    ensures Height(ts, 0) == MAX_LEVEL
  {
  }

  /** Every tower reaches the bottom. */
  lemma BottomPred(ts: seq<Tower>, n: nat)
    requires n <= |ts|
    ensures Pred(ts, n, 0) == n
  {
  }

  lemma IdxBottom(ts: seq<Tower>, pos: nat)
    requires pos <= |ts|
    ensures Idx(ts, pos, 0) == pos
  {
  }

  lemma NodeCells(mem: Mem, ts: seq<Tower>)
    requires AllOk(mem, ts)
    ensures forall j :: 0 <= j < |ts| ==> CellOk(mem, ts[j])
  {
  }

  lemma AllParts(mem: Mem, ts: seq<Tower>)
    requires AllOk(mem, ts)
    ensures CellsOk(mem, ts)
  {
  }

  lemma ReadHeader(mem: Mem, ts: seq<Tower>)
    requires AllOk(mem, ts)
    ensures HEAD in mem && |mem[HEAD].fwd| == MAX_LEVEL + 1
  {
  }

  lemma StartUnlink(mem: Mem, ts: seq<Tower>, g: seq<Tower>)
    requires AllOk(mem, g)
    ensures Between(mem, ts, g, 0)
  {
  }

  lemma Regrow(ts: seq<Tower>, n: nat)
    requires n < |ts|
    ensures ts == Grown(ts[..n] + ts[n + 1..], n, ts[n])
  {
    var r := ts[..n] + ts[n + 1..];
    assert r[..n] == ts[..n] && r[n..] == ts[n + 1..];
  }

  lemma ShrunkPtrs(mem: Mem, ts: seq<Tower>, n: nat, t: Tower)
    requires n <= |ts| && AllOk(mem, Grown(ts, n, t))
    ensures {HEAD} + Ptrs(ts) == {HEAD} + Ptrs(Grown(ts, n, t)) - {t.ptr}
  {
    GrownPtrs(ts, n, t);
    ShrunkCells(mem, ts, n, t);
    forall j | 0 <= j < |ts| ensures ts[j].ptr != t.ptr { assert At(ts, j + 1) != t.ptr; }
    NotInPtrs(ts, t.ptr);
    assert At(ts, 0) == HEAD;
  }

  lemma GrownLevels(ts: seq<Tower>, n: nat, t: Tower, level: nat)
    requires n <= |ts| && t.level <= level && forall j :: 0 <= j < |ts| ==> ts[j].level <= level
    ensures var g := Grown(ts, n, t); |g| == |ts| + 1 && forall j :: 0 <= j < |g| ==> g[j].level <= level
  {
    var g := Grown(ts, n, t);
    forall j | 0 <= j < |g| ensures g[j].level <= level {
      if j != n { assert g[j] == ts[if j < n then j else j - 1]; }
    }
  }

  lemma ShrunkLevels(g: seq<Tower>, ts: seq<Tower>, n: nat, t: Tower, level: nat)
    requires n <= |ts| && g == Grown(ts, n, t) && forall j :: 0 <= j < |g| ==> g[j].level <= level
    ensures forall j :: 0 <= j < |ts| ==> ts[j].level <= level
    ensures |g| == |ts| + 1
  {
    forall j | 0 <= j < |ts| ensures ts[j].level <= level { assert ts[j] == g[if j < n then j else j + 1]; }
  }

  /** A place leads to the tower it is searched for at just the levels that the tower reaches. */
  lemma LeadsTo(mem: Mem, ts: seq<Tower>, n: nat, t: Tower, i: nat)
    requires n <= |ts| && i <= MAX_LEVEL && CellsOk(mem, Grown(ts, n, t)) && Between(mem, ts, Grown(ts, n, t), i)
    ensures var u := At(Grown(ts, n, t), Pred(Grown(ts, n, t), n, i));
      && u == At(ts, Pred(ts, n, i)) && u in mem && i < |mem[u].fwd| && (mem[u].fwd[i] == t.ptr <==> i <= t.level)
  {
    var g := Grown(ts, n, t);
    var p := Pred(g, n, i);
    forall j | p <= j < n ensures ts[j].level < i { assert g[j] == ts[j]; }
    if p > 0 { assert g[p - 1] == ts[p - 1]; }
    PredIs(ts, n, i, p);
    assert LevelOk(mem, g, i);
    assert LinkOk(mem, g, i, p);
    IdxSkips(g, p, n, i);
    var r := Idx(g, n, i);
    assert g[n] == t && CellOk(mem, g[n]);
  }

  /** Another value at a tower. */
  lemma Revalued(mem: Mem, ts: seq<Tower>, n: nat, val: bytes)
    requires AllOk(mem, ts) && n < |ts| && Sorted(Entries(ts)) && CellOk(mem, ts[n])
    ensures var p := ts[n].ptr;
      var m1, t1 := mem[p := mem[p].(kv := Entry(ts[n].kv.key, val))], ts[n := ts[n].(kv := Entry(ts[n].kv.key, val))];
      && AllOk(m1, t1) && Sorted(Entries(t1)) && ToMap(Entries(t1)) == ToMap(Entries(ts))[ts[n].kv.key := val]
      && Ptrs(t1) == Ptrs(ts)
  {
    var p := ts[n].ptr;
    var m1, t1 := mem[p := mem[p].(kv := Entry(ts[n].kv.key, val))], ts[n := ts[n].(kv := Entry(ts[n].kv.key, val))];
    RevaluedCells(mem, ts, n, val);
    RevaluedEntries(ts, n, val);
    RevaluedPtrs(ts, n, t1[n]);
    forall i: nat | i <= MAX_LEVEL ensures LevelOk(m1, t1, i) {
      assert LevelOk(mem, ts, i);
      RevaluedLevel(mem, m1, ts, n, t1[n], i);
    }
  }

  lemma RevaluedCells(mem: Mem, ts: seq<Tower>, n: nat, val: bytes)
    requires CellsOk(mem, ts) && n < |ts| && CellOk(mem, ts[n])
    ensures var p := ts[n].ptr;
      CellsOk(mem[p := mem[p].(kv := Entry(ts[n].kv.key, val))], ts[n := ts[n].(kv := Entry(ts[n].kv.key, val))])
  {
    var p := ts[n].ptr;
    var m1, t1 := mem[p := mem[p].(kv := Entry(ts[n].kv.key, val))], ts[n := ts[n].(kv := Entry(ts[n].kv.key, val))];
    forall j | 0 <= j < |t1| ensures CellOk(m1, t1[j]) { assert CellOk(mem, ts[j]); }
  }

  lemma RevaluedEntries(ts: seq<Tower>, n: nat, val: bytes)
    requires n < |ts| && Sorted(Entries(ts))
    ensures var t1 := ts[n := ts[n].(kv := Entry(ts[n].kv.key, val))];
      Sorted(Entries(t1)) && ToMap(Entries(t1)) == ToMap(Entries(ts))[ts[n].kv.key := val]
  {
    var s, t1 := Entries(ts), ts[n := ts[n].(kv := Entry(ts[n].kv.key, val))];
    assert s == s[..n] + [s[n]] + s[n + 1..];
    assert Entries(t1) == s[..n] + [Entry(s[n].key, val)] + s[n + 1..];
    ToMapReplace(s[..n], s[n], val, s[n + 1..]);
  }

  lemma {:induction false} RevaluedPtrs(ts: seq<Tower>, n: nat, t: Tower)
    requires n < |ts| && t.ptr == ts[n].ptr
    ensures Ptrs(ts[n := t]) == Ptrs(ts)
  {
    if n == 0 {
      assert ts[n := t][1..] == ts[1..];
    } else {
      assert ts[n := t][1..] == ts[1..][n - 1 := t];
      RevaluedPtrs(ts[1..], n - 1, t);
    }
  }

  lemma RevaluedLevel(mem: Mem, m1: Mem, ts: seq<Tower>, n: nat, t: Tower, i: nat)
    requires LevelOk(mem, ts, i) && n < |ts| && t.ptr == ts[n].ptr && t.level == ts[n].level
    requires forall x :: x in mem ==> x in m1 && m1[x].fwd == mem[x].fwd
    ensures LevelOk(m1, ts[n := t], i)
  {
    var t1 := ts[n := t];
    forall pos: nat | pos <= |t1| && Height(t1, pos) >= i ensures LinkOk(m1, t1, i, pos) {
      assert LinkOk(mem, ts, i, pos);
      IdxIs(t1, pos, i, Idx(ts, pos, i));
    }
  }
}
