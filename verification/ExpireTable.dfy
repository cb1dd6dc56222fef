/** The expiry index: hash buckets to find a key's item, a heap to find the next deadline, changed in
    place and kept in step. */
module ExpireTable {
  import opened Bytes
  import opened Lists
  import opened Kvsd
  import opened ExpireHeap

  type Ptr = nat

  const BUCKETS := 8192

  /** An item; `index` is its place in the heap, -1 for none. */
  datatype Item = Item(id: Id, due: int, index: int)

  type Items = map<Ptr, Item>

  function HashKey(key: bytes): bv32 {
    if key == [] then 2166136261 else (HashKey(key[..|key| - 1]) ^ (key[|key| - 1] as bv32)) * 16777619
  }

  /** `expire_hash`: FNV-1a over the key and the engine. */
  function Bucket(id: Id): (b: nat)
    ensures b < BUCKETS
  {
    (((HashKey(id.key) ^ (id.engine as bv32)) * 16777619) % 8192) as nat
  }

  // ---------------------------------------------------------------- the heap in memory

  /** Heap places and items point at each other; items in `out` are not in the heap. */
  ghost predicate Linked(items: Items, heap: seq<Ptr>, out: set<Ptr>) {
    && (forall i :: 0 <= i < |heap| ==> heap[i] in items && heap[i] !in out && items[heap[i]].index == i)
    && (forall p :: p in items && p !in out ==> 0 <= items[p].index < |heap| && heap[items[p].index] == p)
  }

  function DueAt(items: Items, p: Ptr): int {
    if p in items then items[p].due else 0
  }

  function Keys(items: Items, heap: seq<Ptr>): (ks: seq<int>)
    ensures |ks| == |heap| && forall i :: 0 <= i < |ks| ==> ks[i] == DueAt(items, heap[i])
  {
    seq(|heap|, i requires 0 <= i < |heap| => DueAt(items, heap[i]))
  }

  /** Only heap places differ. */
  ghost predicate SameData(a: Items, b: Items) {
    a.Keys == b.Keys && forall p :: p in a ==> a[p].id == b[p].id && a[p].due == b[p].due
  }

  lemma SameTrans(a: Items, b: Items, c: Items)
    requires SameData(a, b) && SameData(b, c)
    ensures SameData(a, c)
  {
  }

  lemma SameRefl(items: Items)
    ensures SameData(items, items)
  {
  }

  lemma PlaceIs(items: Items, heap: seq<Ptr>, out: set<Ptr>, i: nat)
    requires Linked(items, heap, out) && i < |heap|
    ensures heap[i] in items && items[heap[i]].index == i && items[heap[i]].due == Keys(items, heap)[i]
  {
  }

  lemma ItemIs(items: Items, heap: seq<Ptr>, out: set<Ptr>, p: Ptr)
    requires Linked(items, heap, out) && p in items && p !in out
    ensures 0 <= items[p].index < |heap| && heap[items[p].index] == p
  {
  }

  /** Two places exchanged. */
  lemma SwapLinked(items: Items, heap: seq<Ptr>, out: set<Ptr>, i: nat, j: nat)
    requires Linked(items, heap, out) && i < |heap| && j < |heap| && i != j
    ensures heap[i] in items && heap[j] in items && heap[i] != heap[j]
    ensures var heap' := heap[i := heap[j]][j := heap[i]];
      var items' := items[heap[j] := items[heap[j]].(index := i)][heap[i] := items[heap[i]].(index := j)];
      && Linked(items', heap', out) && SameData(items, items')
      && Keys(items', heap') == Swapped(Keys(items, heap), i, j)
  {
  }

  // ---------------------------------------------------------------- the view

  /** `at` gives every key's item. */
  ghost predicate Tracks(items: Items, at: map<Id, Ptr>) {
    && (forall id :: id in at ==> at[id] in items && items[at[id]].id == id)
    && (forall p :: p in items ==> items[p].id in at && at[items[p].id] == p)
  }

  /** The deadlines. */
  ghost function ViewOf(items: Items, at: map<Id, Ptr>): map<Id, int> {
    map id | id in at :: DueAt(items, at[id])
  }

  lemma Looked(items: Items, at: map<Id, Ptr>, id: Id)
    requires Tracks(items, at)
    ensures id in ViewOf(items, at) <==> id in at
    ensures id in at ==> at[id] in items && items[at[id]].id == id && ViewOf(items, at)[id] == items[at[id]].due
  {
  }

  lemma SameView(a: Items, b: Items, at: map<Id, Ptr>)
    requires SameData(a, b) && Tracks(a, at)
    ensures Tracks(b, at) && ViewOf(b, at) == ViewOf(a, at)
  {
  }

  lemma ViewAdd(items: Items, at: map<Id, Ptr>, p: Ptr, it: Item)
    requires Tracks(items, at) && p !in items && it.id !in at
    ensures Tracks(items[p := it], at[it.id := p])
    ensures ViewOf(items[p := it], at[it.id := p]) == ViewOf(items, at)[it.id := it.due]
  {
  }

  lemma ViewChange(items: Items, at: map<Id, Ptr>, p: Ptr, due: int)
    requires Tracks(items, at) && p in items
    ensures var b := items[p := items[p].(due := due)];
      Tracks(b, at) && ViewOf(b, at) == ViewOf(items, at)[items[p].id := due]
  {
  }

  lemma ViewDrop(items: Items, at: map<Id, Ptr>, p: Ptr)
    requires Tracks(items, at) && p in items
    ensures var id := items[p].id;
      Tracks(items - {p}, at - {id}) && ViewOf(items - {p}, at - {id}) == ViewOf(items, at) - {id}
  {
  }

  // ---------------------------------------------------------------- chains

  /** Every item is in its bucket once, and buckets hold nothing else. */
  ghost predicate Hashed(items: Items, buckets: seq<seq<Ptr>>) {
    && |buckets| == BUCKETS
    && (forall p :: p in items ==> p in buckets[Bucket(items[p].id)])
    && (forall b, p :: 0 <= b < BUCKETS && p in buckets[b] ==> p in items && Bucket(items[p].id) == b)
    && (forall b :: 0 <= b < BUCKETS ==> NoDup(buckets[b]))
  }

  lemma SameHashed(a: Items, b: Items, buckets: seq<seq<Ptr>>)
    requires SameData(a, b) && Hashed(a, buckets)
    ensures Hashed(b, buckets)
  {
    hide Bucket, NoDup;
  }

  lemma HashedAdd(items: Items, buckets: seq<seq<Ptr>>, p: Ptr, it: Item)
    requires Hashed(items, buckets) && p !in items
    ensures var b := Bucket(it.id); Hashed(items[p := it], buckets[b := [p] + buckets[b]])
  {
    hide Bucket;
    var b, more := Bucket(it.id), items[p := it];
    var next := buckets[b := [p] + buckets[b]];
    assert p !in buckets[b];
    assert ([p] + buckets[b])[1..] == buckets[b];
    forall q | q in more ensures q in next[Bucket(more[q].id)] {
      if q != p { assert q in buckets[Bucket(items[q].id)]; } else { assert next[b][0] == p; }
    }
  }

  lemma HashedDrop(items: Items, buckets: seq<seq<Ptr>>, p: Ptr)
    requires Hashed(items, buckets) && p in items
    ensures var b := Bucket(items[p].id); Hashed(items - {p}, buckets[b := Without(buckets[b], p)])
  {
    hide Bucket, NoDup, Without, Hashed;
    var b := Bucket(items[p].id);
    assert |buckets| == BUCKETS && NoDup(buckets[b]) by { HashedParts(items, buckets, b); }
    WithoutIs(buckets[b], p);
    DropInside(items, buckets, p, Without(buckets[b], p));
  }

  lemma HashedParts(items: Items, buckets: seq<seq<Ptr>>, b: nat)
    requires Hashed(items, buckets) && b < BUCKETS
    ensures |buckets| == BUCKETS && NoDup(buckets[b])
  {
    hide Bucket;
  }

  lemma DropInside(items: Items, buckets: seq<seq<Ptr>>, p: Ptr, w: seq<Ptr>)
    requires Hashed(items, buckets) && p in items
    requires NoDup(w) && forall x :: x in w <==> x in buckets[Bucket(items[p].id)] && x != p
    ensures Hashed(items - {p}, buckets[Bucket(items[p].id) := w])
  {
    hide Bucket, NoDup;
    var b, less := Bucket(items[p].id), items - {p};
    var next := buckets[b := w];
    forall c, q | 0 <= c < BUCKETS && q in next[c] ensures q in less && Bucket(less[q].id) == c {
      assert q in buckets[c];
    }
    forall q | q in less ensures q in next[Bucket(less[q].id)] { assert q in buckets[Bucket(items[q].id)]; }
  }

  /** Popping the bucket's new head again. */
  lemma HeadGone(buckets: seq<seq<Ptr>>, b: nat, p: Ptr)
    requires b < |buckets|
    ensures buckets[b := [p] + buckets[b]][b := ([p] + buckets[b])[1..]] == buckets
  {
    assert ([p] + buckets[b])[1..] == buckets[b];
  }

  class Table {
    var items: Items
    var heap: seq<Ptr>
    var buckets: seq<seq<Ptr>>
    var count: nat
    ghost var at: map<Id, Ptr>

    ghost predicate Valid()
      reads this
    {
      && Linked(items, heap, {}) && Ordered(Keys(items, heap)) && Tracks(items, at)
      && Hashed(items, buckets) && count == |heap|
    }

    ghost function View(): map<Id, int>
      reads this
    {
      ViewOf(items, at)
    }

    constructor ()
      ensures Valid() && View() == map[]
    {
      items, heap, count, at := map[], [], 0, map[];
      buckets := seq(BUCKETS, _ => []);
    }

    /** `heap_swap`. */
    method Swap(i: nat, j: nat, ghost out: set<Ptr>)
      requires Linked(items, heap, out) && i < |heap| && j < |heap| && i != j
      modifies this`items, this`heap
      ensures Linked(items, heap, out) && SameData(old(items), items)
      ensures heap == old(heap)[i := old(heap)[j]][j := old(heap)[i]]
      ensures Keys(items, heap) == Swapped(Keys(old(items), old(heap)), i, j)
    {
      SwapLinked(items, heap, out, i, j);
      hide Linked, SameData;
      var tmp := heap[i];
      heap := heap[i := heap[j]];
      heap := heap[j := tmp];
      items := items[heap[i] := items[heap[i]].(index := i)];
      items := items[heap[j] := items[heap[j]].(index := j)];
    }

    /** `heap_sift_up`. */
    method SiftUp(from: nat, ghost out: set<Ptr>)
      requires Linked(items, heap, out) && from < |heap| && UpHole(Keys(items, heap), from)
      modifies this`items, this`heap
      ensures Linked(items, heap, out) && SameData(old(items), items) && |heap| == old(|heap|)
      ensures Ordered(Keys(items, heap))
    {
      hide UpHole, Ordered, Linked, SameData;
      var idx := from;
      SameRefl(items);
      while idx > 0
        invariant 0 <= idx < |heap| == old(|heap|) && Linked(items, heap, out) && SameData(old(items), items)
        invariant UpHole(Keys(items, heap), idx)
      {
        var parent := Parent(idx);
        PlaceIs(items, heap, out, idx);
        PlaceIs(items, heap, out, parent);
        if items[heap[parent]].due <= items[heap[idx]].due {
          UpDone(Keys(items, heap), idx);
          return;
        }
        UpStep(Keys(items, heap), idx);
        ghost var was := items;
        Swap(parent, idx, out);
        SameTrans(old(items), was, items);
        idx := parent;
      }
      UpDone(Keys(items, heap), 0);
    }

    /** The smaller child that is before place idx, or idx. */
    method SmallerChild(idx: nat, ghost out: set<Ptr>) returns (smallest: nat)
      requires Linked(items, heap, out) && idx < |heap|
      ensures smallest == Smallest(Keys(items, heap), idx)
    {
      hide Linked;
      var left := idx * 2 + 1;
      var right := left + 1;
      smallest := idx;
      if left < |heap| {
        PlaceIs(items, heap, out, left);
        PlaceIs(items, heap, out, smallest);
        if items[heap[left]].due < items[heap[smallest]].due { smallest := left; }
      }
      if right < |heap| {
        PlaceIs(items, heap, out, right);
        PlaceIs(items, heap, out, smallest);
        if items[heap[right]].due < items[heap[smallest]].due { smallest := right; }
      }
    }

    /** `heap_sift_down`: in the end all is in order, unless the item stayed where it was. */
    method SiftDown(from: nat, ghost out: set<Ptr>)
      requires Linked(items, heap, out) && from < |heap| && Hole(Keys(items, heap), from)
      modifies this`items, this`heap
      ensures Linked(items, heap, out) && SameData(old(items), items) && |heap| == old(|heap|)
      ensures Ordered(Keys(items, heap)) || (heap == old(heap) && UpHole(Keys(items, heap), from))
    {
      hide Hole, UpHole, Ordered, Linked, SameData, Edge;
      var idx := from;
      SameRefl(items);
      while true
        invariant 0 <= idx < |heap| == old(|heap|) && Linked(items, heap, out) && SameData(old(items), items)
        invariant Hole(Keys(items, heap), idx) && ((heap == old(heap) && idx == from) || Edge(Keys(items, heap), idx))
        decreases |heap| - idx
      {
        ghost var ks := Keys(items, heap);
        var smallest := SmallerChild(idx, out);
        if smallest == idx {
          DownDone(ks, idx);
          if Edge(ks, idx) { UpDone(ks, idx); }
          return;
        }
        DownStep(ks, idx, smallest);
        ghost var was := items;
        Swap(idx, smallest, out);
        SameTrans(old(items), was, items);
        idx := smallest;
      }
    }

    /** `heap_push` of an item that is not in the heap; `memory` is whether the heap could grow. */
    method Push(p: Ptr, memory: bool) returns (ok: bool)
      requires Linked(items, heap, {p}) && Ordered(Keys(items, heap)) && p in items
      modifies this`items, this`heap
      ensures ok == memory && SameData(old(items), items)
      ensures ok ==> Linked(items, heap, {}) && Ordered(Keys(items, heap)) && |heap| == old(|heap|) + 1
      ensures !ok ==> items == old(items) && heap == old(heap)
    {
      SameRefl(items);
      if !memory { return false; }
      Pushed(Keys(items, heap), items[p].due);
      PushLinked(items, heap, p);
      hide UpHole, Ordered, Linked, SameData;
      ghost var was := items;
      heap := heap + [p];
      items := items[p := items[p].(index := |heap| - 1)];
      SiftUp(items[p].index, {});
      SameTrans(old(items), was[p := was[p].(index := |heap| - 1)], items);
      ok := true;
    }

    /** `heap_remove_at`: the item at a place leaves the heap. */
    method RemoveAt(idx: nat)
      requires Linked(items, heap, {}) && Ordered(Keys(items, heap)) && idx < |heap|
      modifies this`items, this`heap
      ensures Linked(items, heap, {old(heap)[idx]}) && Ordered(Keys(items, heap)) && SameData(old(items), items)
      ensures |heap| == old(|heap|) - 1
    {
      hide UpHole, Ordered, Linked, SameData, Hole;
      var last := |heap| - 1;
      ghost var p, ks0 := heap[idx], Keys(items, heap);
      SameRefl(items);
      if idx != last { Swap(idx, last, {}); }
      ghost var i1 := items;
      DropLast(items, heap);
      RemovedKeys(ks0, Keys(items, heap), idx);
      PlaceIs(items, heap, {}, last);
      items := items[heap[last] := items[heap[last]].(index := -1)];
      heap := heap[..last];
      ghost var i2 := items;
      SameTrans(old(items), i1, i2);
      if idx < |heap| {
        SiftDown(idx, {p});
        if Ordered(Keys(items, heap)) { OrderedHole(Keys(items, heap), idx); }
        ghost var i3 := items;
        SameTrans(old(items), i2, i3);
        SiftUp(idx, {p});
        SameTrans(old(items), i3, items);
      }
    }

    /** `heap_update` after an item's deadline has changed. */
    method Update(p: Ptr)
      requires Linked(items, heap, {}) && p in items && 0 <= items[p].index < |heap|
      requires Hole(Keys(items, heap), items[p].index)
      modifies this`items, this`heap
      ensures Linked(items, heap, {}) && Ordered(Keys(items, heap))
      ensures SameData(old(items), items) && |heap| == old(|heap|)
    {
      hide UpHole, Ordered, Linked, SameData, Hole;
      ItemIs(items, heap, {}, p);
      ghost var idx := items[p].index;
      SiftDown(items[p].index, {});
      ghost var i1 := items;
      StillThere(old(items), items, p);
      ItemIs(items, heap, {}, p);
      if Ordered(Keys(items, heap)) {
        OrderedHole(Keys(items, heap), items[p].index);
      } else {
        PlaceIs(items, heap, {}, idx);
      }
      SiftUp(items[p].index, {});
      SameTrans(old(items), i1, items);
    }

    /** `expire_find`. */
    method Find(id: Id) returns (r: Option<Ptr>)
      requires Valid()
      ensures r == if id in at then Some(at[id]) else None
    {
      hide Bucket, Ordered, Linked, NoDup;
      var chain := buckets[Bucket(id)];
      assert id in at ==> at[id] in chain;
      var i := 0;
      while i < |chain|
        invariant i <= |chain| && forall j :: 0 <= j < i ==> chain[j] in items && items[chain[j]].id != id
      {
        assert chain[i] in chain;
        if items[chain[i]].id == id { return Some(chain[i]); }
        i := i + 1;
      }
      r := None;
    }

    /** `kvs_expire_set`: a deadline ttl from now.  `p` is where a new item would be, `memory` whether
        there is room for it, `room` whether the heap can grow. */
    method Set(id: Id, ttl: int, now: int, p: Ptr, memory: bool, room: bool) returns (rc: int)
      requires Valid() && p !in items
      modifies this
      ensures Valid() && rc == if ttl > 0 && (id in old(View()) || (memory && room)) then 0 else -1
      ensures View() == if rc == 0 then old(View())[id := now + ttl] else old(View())
    {
      hide Bucket, Ordered, Linked, NoDup, Tracks, Hashed, Keys, SameData, Hole;
      if ttl <= 0 { return -1; }
      var due := now + ttl;
      var found := Find(id);
      if found.Some? {
        Retime(found.value, id, due);
        return 0;
      }
      if !memory { return -1; }
      rc := Enter(p, Item.Item(id, due, -1), room);
    }

    method Retime(p: Ptr, ghost id: Id, due: int)
      requires Valid() && id in at && p == at[id]
      modifies this`items, this`heap
      ensures Valid() && View() == old(View())[id := due]
    {
      hide Bucket, Ordered, Linked, NoDup, Tracks, Hashed, Keys, SameData, Hole, ViewOf;
      RetimeReady(items, heap, buckets, at, id, due);
      items := items[p := items[p].(due := due)];
      ghost var i1 := items;
      Update(p);
      SameView(i1, items, at);
      SameHashed(i1, items, buckets);
    }

    /** A new item: into its bucket, then onto the heap; out of the bucket again if the heap is full. */
    method Enter(p: Ptr, it: Item, room: bool) returns (rc: int)
      requires Valid() && p !in items && it.id !in at && it.index == -1
      modifies this
      ensures Valid() && rc == if room then 0 else -1
      ensures View() == if room then old(View())[it.id := it.due] else old(View())
    {
      hide Bucket, Ordered, Linked, NoDup, Tracks, Hashed, Keys, SameData, Hole, ViewOf;
      ghost var i0, b0 := items, buckets;
      EnterReady(items, heap, buckets, at, p, it);
      var idx := Bucket(it.id);
      HeadGone(buckets, idx, p);
      items := items[p := it];
      buckets := buckets[idx := [p] + buckets[idx]];
      ghost var i1 := items;
      var ok := Push(p, room);
      if !ok {
        buckets := buckets[idx := buckets[idx][1..]];
        items := items - {p};
        assert items == i0 && buckets == b0;
        return -1;
      }
      at := at[it.id := p];
      SameView(i1, items, at);
      SameHashed(i1, items, buckets);
      count := count + 1;
      rc := 0;
    }

    /** `expire_free_node`: off the heap, out of the bucket, freed. */
    method FreeNode(p: Ptr)
      requires Valid() && p in items
      modifies this
      ensures Valid() && View() == old(View()) - {old(items)[p].id} && items.Keys == old(items.Keys) - {p}
    {
      hide Bucket, Ordered, Linked, NoDup, Tracks, Hashed, Keys, SameData, Hole, ViewOf, Without;
      ghost var i0, id := items, items[p].id;
      ItemIs(items, heap, {}, p);
      var idx := items[p].index;
      RemoveAt(idx);
      SameView(i0, items, at);
      SameHashed(i0, items, buckets);
      FreeReady(i0, items, heap, buckets, at, p);
      UnlinkBucket(p);
      items := items - {p};
      at := at - {id};
      if count > 0 { count := count - 1; }
    }

    /** `expire_unlink_bucket`. */
    method UnlinkBucket(p: Ptr)
      requires p in items && |buckets| == BUCKETS
      modifies this`buckets
      ensures var b := Bucket(items[p].id); buckets == old(buckets)[b := Without(old(buckets)[b], p)]
    {
      hide Bucket, Without;
      var b := Bucket(items[p].id);
      var chain := buckets[b];
      var i := 0;
      assert chain[..0] + Without(chain[0..], p) == Without(chain, p) by { assert chain[0..] == chain; }
      while i < |chain|
        invariant i <= |chain| && buckets == old(buckets) && chain[..i] + Without(chain[i..], p) == Without(chain, p)
      {
        WithoutAt(chain, i, p);
        if chain[i] == p {
          buckets := buckets[b := chain[..i] + chain[i + 1..]];
          return;
        }
        i := i + 1;
      }
      WithoutNone(chain, p);
      assert buckets[b := chain] == buckets;
    }

    /** `kvs_expire_del` and `kvs_expire_persist`: 1 when there is no deadline. */
    method Del(id: Id) returns (rc: int)
      requires Valid()
      modifies this
      ensures Valid() && rc == if id in old(View()) then 0 else 1
      ensures View() == old(View()) - {id}
    {
      var found := Find(id);
      hide Bucket, Ordered, Linked, NoDup, Hashed;
      if found.None? {
        assert View() - {id} == View();
        return 1;
      }
      FreeNode(found.value);
      rc := 0;
    }

    /** `kvs_expire_is_expired`. */
    method IsExpired(id: Id, now: int) returns (r: bool)
      requires Valid()
      ensures r <==> id in View() && now >= View()[id]
    {
      hide Bucket, Ordered, Linked, NoDup, Hashed, Tracks, ViewOf;
      var found := Find(id);
      Looked(items, at, id);
      r := found.Some? && now >= items[found.value].due;
    }

    /** `kvs_expire_ttl`. */
    method Ttl(id: Id, now: int) returns (s: int)
      requires Valid()
      ensures s == TtlSec(View(), id, now)
    {
      hide Bucket, Ordered, Linked, NoDup, Hashed, Tracks, ViewOf;
      var found := Find(id);
      Looked(items, at, id);
      if found.None? { return -1; }
      var due := items[found.value].due;
      if now >= due { return -2; }
      s := (due - now) / 1000;
      if (due - now) % 1000 != 0 { s := s + 1; }
    }

    /** `kvs_active_expire_cycle`: the keys it deletes, in turn.  They are the earliest ones, all past
        their deadline; and if the budget was not used up, no other key is past its deadline. */
    method Cycle(budget: int, now: int) returns (removed: int, gone: seq<Id>)
      requires Valid()
      modifies this
      ensures Valid() && removed == |gone| && (budget > 0 ==> removed <= budget) && (budget <= 0 ==> removed == 0)
      ensures View() == Drop(old(View()), gone)
      ensures forall i :: 0 <= i < |gone| ==> gone[i] in old(View()) && old(View())[gone[i]] <= now
      ensures forall i, id :: 0 <= i < |gone| && id in View() ==>
        gone[i] in old(View()) && old(View())[gone[i]] <= View()[id]
      ensures forall i, j :: 0 <= i < j < |gone| ==> gone[i] != gone[j] && old(View())[gone[i]] <= old(View())[gone[j]]
      ensures removed < budget ==> forall id :: id in View() ==> View()[id] > now
      ensures removed == if budget <= 0 then 0
        else if budget < |Expired(old(View()), now)| then budget else |Expired(old(View()), now)|
    {
      hide Valid, ViewOf, Expired, Gone;
      removed, gone := 0, [];
      ghost var v0 := View();
      GoneNone(v0, now);
      if budget <= 0 || |heap| == 0 {
        if budget > 0 { EmptyView(); CycleEnds(v0, gone, now, budget); }
        GoneMeans(v0, gone, now);
        return;
      }
      while removed < budget && |heap| > 0
        invariant Valid() && 0 <= removed == |gone| <= budget && View() == Drop(v0, gone) && Gone(v0, gone, now)
        decreases budget - removed
      {
        Earliest();
        var p := heap[0];
        if items[p].due > now {
          CycleEnds(v0, gone, now, budget);
          return;
        }
        GoneOne(v0, gone, items[p].id, now);
        gone := gone + [items[p].id];
        FreeNode(p);
        removed := removed + 1;
      }
      if |heap| == 0 { EmptyView(); }
      CycleEnds(v0, gone, now, budget);
    }

    /** The item on top has the earliest deadline. */
    lemma Earliest()
      requires Valid() && |heap| > 0
      ensures heap[0] in items && items[heap[0]].id in View() && View()[items[heap[0]].id] == items[heap[0]].due
      ensures forall id :: id in View() ==> items[heap[0]].due <= View()[id]
    {
      hide Bucket, NoDup, Hashed, Ordered;
      PlaceIs(items, heap, {}, 0);
      forall id | id in View() ensures items[heap[0]].due <= View()[id] {
        var p := at[id];
        ItemIs(items, heap, {}, p);
        RootLeast(Keys(items, heap), items[p].index);
      }
    }

    lemma EmptyView()
      requires Valid() && |heap| == 0
      ensures View() == map[]
    {
      hide Bucket, NoDup, Hashed, Ordered;
      if id :| id in at { ItemIs(items, heap, {}, at[id]); }
    }
  }

  /** A map without the keys of a list. */
  ghost function Drop(v: map<Id, int>, gone: seq<Id>): (r: map<Id, int>)
    ensures forall id :: id in r <==> id in v && id !in gone
    ensures forall id :: id in r ==> r[id] == v[id]
  {
    map id | id in v && id !in gone :: v[id]
  }

  /** The keys past their deadline. */
  ghost function Expired(v: map<Id, int>, now: int): set<Id> {
    set id | id in v && v[id] <= now
  }

  /** The keys of `gone` are different, past their deadline, and none that is left is earlier. */
  ghost predicate Gone(v: map<Id, int>, gone: seq<Id>, now: int) {
    && (forall i :: 0 <= i < |gone| ==> gone[i] in v && v[gone[i]] <= now)
    && (forall i, id :: 0 <= i < |gone| && id in Drop(v, gone) ==> v[gone[i]] <= v[id])
    && (forall i, j :: 0 <= i < j < |gone| ==> gone[i] != gone[j] && v[gone[i]] <= v[gone[j]])
  }

  lemma GoneNone(v: map<Id, int>, now: int)
    ensures Gone(v, [], now) && Drop(v, []) == v
  {
  }

  /** The earliest key that is left goes too. */
  lemma GoneOne(v: map<Id, int>, gone: seq<Id>, id: Id, now: int)
    requires Gone(v, gone, now) && id in Drop(v, gone) && v[id] <= now
    requires forall x :: x in Drop(v, gone) ==> v[id] <= v[x]
    ensures Gone(v, gone + [id], now) && Drop(v, gone + [id]) == Drop(v, gone) - {id}
  {
    var more := gone + [id];
    DropSnoc(v, gone, id);
    forall i, x | 0 <= i < |more| && x in Drop(v, more) ensures v[more[i]] <= v[x] { assert x in Drop(v, gone); }
    forall i, j | 0 <= i < j < |more| ensures more[i] != more[j] && v[more[i]] <= v[more[j]] {
      if j == |gone| { assert id in Drop(v, gone) && gone[i] in gone; }
    }
  }

  lemma GoneMeans(v: map<Id, int>, gone: seq<Id>, now: int)
    requires Gone(v, gone, now)
    ensures forall i :: 0 <= i < |gone| ==> gone[i] in v && v[gone[i]] <= now
    ensures forall i, id :: 0 <= i < |gone| && id in Drop(v, gone) ==> gone[i] in v && v[gone[i]] <= Drop(v, gone)[id]
    ensures forall i, j :: 0 <= i < j < |gone| ==> gone[i] != gone[j] && v[gone[i]] <= v[gone[j]]
  {
  }

  lemma CycleEnds(v: map<Id, int>, gone: seq<Id>, now: int, budget: int)
    requires Gone(v, gone, now) && |gone| <= budget
    requires |gone| < budget ==> forall id :: id in Drop(v, gone) ==> Drop(v, gone)[id] > now
    ensures forall i :: 0 <= i < |gone| ==> gone[i] in v && v[gone[i]] <= now
    ensures forall i, id :: 0 <= i < |gone| && id in Drop(v, gone) ==> gone[i] in v && v[gone[i]] <= Drop(v, gone)[id]
    ensures forall i, j :: 0 <= i < j < |gone| ==> gone[i] != gone[j] && v[gone[i]] <= v[gone[j]]
    ensures |gone| == if budget < |Expired(v, now)| then budget else |Expired(v, now)|
  {
    hide Expired;
    GoneMeans(v, gone, now);
    CycleCount(v, gone, now, budget);
  }

  /** Different expired keys, as many as the budget or all there are. */
  lemma CycleCount(v: map<Id, int>, gone: seq<Id>, now: int, budget: int)
    requires |gone| <= budget && forall i, j :: 0 <= i < j < |gone| ==> gone[i] != gone[j]
    requires forall i :: 0 <= i < |gone| ==> gone[i] in v && v[gone[i]] <= now
    requires |gone| < budget ==> forall id :: id in Drop(v, gone) ==> v[id] > now
    ensures |gone| == if budget < |Expired(v, now)| then budget else |Expired(v, now)|
  {
    DistinctNoDup(gone);
    NoDupSet(gone);
    SubsetSize(ToSet(gone), Expired(v, now));
    if |gone| < budget {
      forall id | id in Expired(v, now) ensures id in ToSet(gone) {
        assert id in gone || id in Drop(v, gone);
      }
      SubsetSize(Expired(v, now), ToSet(gone));
    }
  }

  lemma DropSnoc(v: map<Id, int>, gone: seq<Id>, id: Id)
    ensures Drop(v, gone + [id]) == Drop(v, gone) - {id}
  {
  }

  // ---------------------------------------------------------------- links across the steps

  lemma PushLinked(items: Items, heap: seq<Ptr>, p: Ptr)
    requires Linked(items, heap, {p}) && p in items
    ensures var i1 := items[p := items[p].(index := |heap|)];
      && Linked(i1, heap + [p], {}) && SameData(items, i1) && Keys(i1, heap + [p]) == Keys(items, heap) + [items[p].due]
  {
  }

  lemma DropLast(items: Items, heap: seq<Ptr>)
    requires Linked(items, heap, {}) && heap != []
    ensures var p := heap[|heap| - 1];
      && p in items && var i1 := items[p := items[p].(index := -1)];
      && Linked(i1, heap[..|heap| - 1], {p}) && SameData(items, i1)
      && Keys(i1, heap[..|heap| - 1]) == Keys(items, heap)[..|heap| - 1]
  {
  }

  /** The keys once the place to remove has been exchanged with the last one. */
  lemma RemovedKeys(ks: seq<int>, swapped: seq<int>, idx: nat)
    requires Ordered(ks) && idx < |ks|
    requires swapped == if idx == |ks| - 1 then ks else Swapped(ks, idx, |ks| - 1)
    ensures var t := swapped[..|ks| - 1];
      (idx < |ks| - 1 ==> Hole(t, idx)) && (idx == |ks| - 1 ==> Ordered(t))
  {
    var last := |ks| - 1;
    if idx == last {
      ShortenedOrdered(ks);
    } else {
      ShortenedOrdered(ks);
      Rekeyed(ks[..last], idx, ks[last]);
      assert swapped[..last] == ks[..last][idx := ks[last]];
    }
  }

  lemma StillThere(a: Items, b: Items, p: Ptr)
    requires SameData(a, b) && p in a
    ensures p in b
  {
  }

  lemma RetimeLinked(items: Items, heap: seq<Ptr>, p: Ptr, due: int)
    requires Linked(items, heap, {}) && p in items
    ensures var i1 := items[p := items[p].(due := due)];
      && Linked(i1, heap, {}) && 0 <= items[p].index < |heap|
      && Keys(i1, heap) == Keys(items, heap)[items[p].index := due]
  {
  }

  lemma RetimeHashed(items: Items, buckets: seq<seq<Ptr>>, p: Ptr, due: int)
    requires Hashed(items, buckets) && p in items
    ensures Hashed(items[p := items[p].(due := due)], buckets)
  {
    hide Bucket, NoDup;
  }

  lemma EnterLinked(items: Items, heap: seq<Ptr>, p: Ptr, it: Item)
    requires Linked(items, heap, {}) && p !in items && Ordered(Keys(items, heap))
    ensures Linked(items[p := it], heap, {p}) && Ordered(Keys(items[p := it], heap))
    ensures items[p := it] - {p} == items
  {
    assert Keys(items[p := it], heap) == Keys(items, heap);
  }

  lemma FreeLinked(items: Items, heap: seq<Ptr>, p: Ptr)
    requires Linked(items, heap, {p}) && Ordered(Keys(items, heap))
    ensures Linked(items - {p}, heap, {}) && Ordered(Keys(items - {p}, heap))
  {
    assert Keys(items - {p}, heap) == Keys(items, heap);
  }

  /** Another deadline for a key that has one. */
  lemma RetimeReady(items: Items, heap: seq<Ptr>, buckets: seq<seq<Ptr>>, at: map<Id, Ptr>, id: Id, due: int)
    requires Linked(items, heap, {}) && Ordered(Keys(items, heap))
    requires Tracks(items, at) && Hashed(items, buckets) && id in at
    ensures var p := at[id];
      && p in items && 0 <= items[p].index < |heap|
      && var i1 := items[p := items[p].(due := due)];
      && Linked(i1, heap, {}) && Hole(Keys(i1, heap), items[p].index) && Tracks(i1, at) && Hashed(i1, buckets)
      && ViewOf(i1, at) == ViewOf(items, at)[id := due]
  {
    hide Ordered, Linked, Hashed, Hole, Tracks, ViewOf, Keys;
    var p := at[id];
    Looked(items, at, id);
    RetimeLinked(items, heap, p, due);
    Rekeyed(Keys(items, heap), items[p].index, due);
    ViewChange(items, at, p, due);
    RetimeHashed(items, buckets, p, due);
  }

  /** A new key. */
  lemma EnterReady(items: Items, heap: seq<Ptr>, buckets: seq<seq<Ptr>>, at: map<Id, Ptr>, p: Ptr, it: Item)
    requires Linked(items, heap, {}) && Ordered(Keys(items, heap)) && Tracks(items, at) && Hashed(items, buckets)
    requires p !in items && it.id !in at
    ensures |buckets| == BUCKETS && items[p := it] - {p} == items
    ensures var i1, b := items[p := it], Bucket(it.id);
      && Linked(i1, heap, {p}) && Ordered(Keys(i1, heap)) && Tracks(i1, at[it.id := p])
      && Hashed(i1, buckets[b := [p] + buckets[b]]) && ViewOf(i1, at[it.id := p]) == ViewOf(items, at)[it.id := it.due]
  {
    assert |buckets| == BUCKETS;
    hide Ordered, Linked, Hashed, Tracks, ViewOf, Keys, Bucket;
    ViewAdd(items, at, p, it);
    HashedAdd(items, buckets, p, it);
    EnterLinked(items, heap, p, it);
  }

  /** A key that goes. */
  lemma FreeReady(i0: Items, items: Items, heap: seq<Ptr>, buckets: seq<seq<Ptr>>, at: map<Id, Ptr>, p: Ptr)
    requires SameData(i0, items) && p in i0 && Linked(items, heap, {p}) && Ordered(Keys(items, heap))
    requires Tracks(items, at) && Hashed(items, buckets)
    ensures |buckets| == BUCKETS && p in items && items[p].id == i0[p].id && items.Keys == i0.Keys
    ensures var id, b, i1 := items[p].id, Bucket(items[p].id), items - {p};
      && Linked(i1, heap, {}) && Ordered(Keys(i1, heap)) && Tracks(i1, at - {id})
      && Hashed(i1, buckets[b := Without(buckets[b], p)]) && ViewOf(i1, at - {id}) == ViewOf(items, at) - {id}
  {
    assert |buckets| == BUCKETS;
    hide Ordered, Linked, Hashed, Tracks, ViewOf, Keys, Bucket, Without;
    ViewDrop(items, at, p);
    HashedDrop(items, buckets, p);
    FreeLinked(items, heap, p);
  }
}
