/** The custom allocator as an object: `malloc` and `free` on pages, lists and counters in place. */
module SlabAllocator {
  import opened Lists
  import opened SlabModel
  import opened SlabOps

  const LARGE_HEADER := 24

  /** What a malloc gives. */
  datatype Got = NoMemory | Small(ptr: nat) | Block(head: nat)

  /** Nothing asked for is one byte. */
  function Asked(size: nat): nat {
    if size == 0 then 1 else size
  }

  /** The bytes of k memory pages. */
  function Pages(k: nat, pageSize: nat): nat {
    k * pageSize
  }

  /** The bytes of a large mapping: the least number of whole pages that holds header and data. */
  function Rounded(size: nat, pageSize: nat): (n: nat)
    requires pageSize > 0
    ensures LARGE_HEADER + size <= n < LARGE_HEADER + size + pageSize && exists k: nat :: n == Pages(k, pageSize)
  {
    Pages((LARGE_HEADER + size + pageSize - 1) / pageSize, pageSize)
  }

  /** The first class from k on that a size fits, or -1. */
  function ClassFrom(size: nat, k: nat): int
    requires k <= CLASSES
    decreases CLASSES - k
  {
    if k == CLASSES then -1 else if size <= ClassSize(k) then k else ClassFrom(size, k + 1)
  }

  /** The tightest class a size fits. */
  ghost predicate BestClass(size: nat, k: int) {
    0 <= k < CLASSES && size <= ClassSize(k) && forall j :: 0 <= j < CLASSES && size <= ClassSize(j) ==> k <= j
  }

  lemma ClassFits(size: nat)
    requires size <= SMALL_MAX
    ensures BestClass(size, ClassFrom(size, 0))
  {
    ClassSound(size, 0);
    assert size <= ClassSize(18);
    ClassComplete(size, 0, 18);
  }

  lemma {:induction false} ClassSound(size: nat, k: nat)
    requires k <= CLASSES
    ensures var r := ClassFrom(size, k);
      r == -1 || (k <= r < CLASSES && size <= ClassSize(r) && forall j :: k <= j < r ==> size > ClassSize(j))
    decreases CLASSES - k
  {
    hide ClassSize;
    if k < CLASSES && size > ClassSize(k) { ClassSound(size, k + 1); }
  }

  lemma {:induction false} ClassComplete(size: nat, k: nat, j: nat)
    requires k <= j < CLASSES && size <= ClassSize(j)
    ensures ClassFrom(size, k) != -1
    decreases CLASSES - k
  {
    hide ClassSize;
    if size > ClassSize(k) { ClassComplete(size, k + 1, j); }
  }

  method ClassIndexFor(size: nat) returns (k: int)
    ensures k == ClassFrom(size, 0)
  {
    hide ClassSize;
    var i := 0;
    while i < CLASSES
      invariant i <= CLASSES && ClassFrom(size, 0) == ClassFrom(size, i)
    {
      if size <= ClassSize(i) { return i; }
      i := i + 1;
    }
    return -1;
  }

  /** A new page's stack of free indices. */
  method FreeStack(n: nat) returns (s: seq<nat>)
    ensures s == Indices(n)
  {
    s := [];
    var i := 0;
    while i < n
      invariant i <= n && s == Indices(i)
    {
      s := s + [i];
      i := i + 1;
    }
  }

  lemma TakeReady(h: Heap, k: nat, m: nat, req: nat)
    requires HeapInv(h) && k < CLASSES && HasFree(h, m) && h.pages[m].cls == k && req <= ClassSize(k)
    ensures |h.active| == CLASSES && HeapInv(Take(h, k, m, req).0) && Take(h, k, m, req).1 !in h.live
  {
    hide PagesOk, LiveOk, OthersOk, Counted, ClassSize;
    ListsSize(h);
    TakeInv(h, k, m, req);
  }

  /** A held chunk's address is inside its page and gives its index back. */
  lemma HeldWhere(h: Heap, q: nat)
    requires HeapInv(h) && q in h.live
    ensures PagesOk(h) && ListsOk(h)
    ensures var l := h.live[q];
      && l.cls < CLASSES && l.page in h.pages && h.pages[l.page].cls == l.cls
      && l.page <= q - HEADER < l.page + Span(l.cls) && (q - HEADER - l.page) / Chunk(l.cls) == l.idx
  {
    hide PagesOk, ListsOk, OthersOk, Counted, ClassSize, Count, Span, Head;
    assert Placed(h, q);
    var l := h.live[q];
    Inside(l.page, l.cls, l.idx);
    IndexBack(l.page, l.cls, l.idx);
  }

  /** Only one page of a class has an address. */
  lemma OnePageHas(h: Heap, a: nat, b: nat, k: nat, c: nat)
    requires PagesOk(h) && a in h.pages && b in h.pages && h.pages[a].cls == h.pages[b].cls == k < CLASSES
    requires a <= c < a + Span(k) && b <= c < b + Span(k)
    ensures a == b
  {
    hide NoDup, Span, Count;
  }

  lemma FreeReady(h: Heap, q: nat)
    requires HeapInv(h) && q in h.live
    ensures Placed(h, q) && h.pages[h.live[q].page].inUse > 0 && |h.lists| == CLASSES == |h.active|
    ensures forall x :: x in h.lists[h.live[q].cls] ==> x in h.pages
    ensures HeapInv(FreeSmall(h, q)) && FreeSmall(h, q).live == h.live - {q} && FreeSmall(h, q).others == h.others
    ensures FreeSmall(h, q).pages.Keys == if Spare(h, q) then h.pages.Keys - {h.live[q].page} else h.pages.Keys
    ensures var m := h.live[q].page;
      m in FreeSmall(h, q).pages ==> FreeSmall(h, q).pages[m].free == h.pages[m].free + [h.live[q].idx]
  {
    hide PagesOk, LiveOk, OthersOk, Counted, ClassSize, NoDup;
    InUse(h, q);
    FreeSmallInv(h, q);
  }

  /** What a free leaves: the chunk back on its page's stack, and the page unmapped if it is empty and
      the other pages of its class have enough free chunks without it. */
  ghost function Freed(h: Heap, q: nat): Heap
    requires HeapInv(h) && q in h.live
  {
    FreeReady(h, q);
    FreeSmall(h, q)
  }

  lemma RoomExact(h: Heap, size: nat, k: nat, pg: Active)
    requires ListsOk(h) && k < CLASSES && BestClass(Asked(size), k)
    requires pg.At? ==> HasFree(h, pg.mem) && h.pages[pg.mem].cls == k
    requires pg.NoPage? ==> forall m :: m in h.lists[k] ==> !HasFree(h, m)
    ensures pg.At? <==> RoomFor(h, size)
  {
    forall m | HasFree(h, m) && BestClass(Asked(size), h.pages[m].cls) ensures m in h.lists[k] {
      assert h.pages[m].cls == k;
    }
  }

  lemma GrowReady(h: Heap, k: nat)
    requires HeapInv(h) && k < CLASSES
    ensures |h.lists| == CLASSES == |h.active|
  {
    hide PagesOk, LiveOk, OthersOk, Counted;
  }

  /** A page of the size's class has a free chunk. */
  ghost predicate RoomFor(h: Heap, size: nat) {
    exists m :: HasFree(h, m) && BestClass(Asked(size), h.pages[m].cls)
  }

  class Allocator {
    var pages: map<nat, Page>
    var lists: seq<seq<nat>>
    var active: seq<Active>
    /** The chunk headers: class and requested size of what is held; page and index are history. */
    var live: map<nat, Live>
    var others: map<nat, Other>
    var smallInUse: nat
    var requested: nat
    var given: nat

    ghost function State(): Heap
      reads this
    {
      Heap(pages, lists, active, live, others, smallInUse, requested, given)
    }

    constructor ()
      ensures HeapInv(State()) && live == map[] && others == map[]
    {
      pages, live, others := map[], map[], map[];
      lists, active := seq(CLASSES, _ => []), seq(CLASSES, _ => NoPage);
      smallInUse, requested, given := 0, 0, 0;
    }

    /** The page of a class to allocate from. */
    method PickPage(k: nat) returns (r: Active)
      requires ListsOk(State()) && k < CLASSES
      ensures r.At? ==> HasFree(State(), r.mem) && pages[r.mem].cls == k
      ensures r.NoPage? ==> forall m :: m in lists[k] ==> !HasFree(State(), m)
    {
      hide NoDup;
      r := active[k];
      if r.NoPage? || |pages[r.mem].free| == 0 {
        r := NoPage;
        var i := 0;
        while i < |lists[k]|
          invariant i <= |lists[k]| && forall j :: 0 <= j < i ==> !HasFree(State(), lists[k][j])
        {
          var m := lists[k][i];
          assert m in lists[k];
          if |pages[m].free| > 0 { return At(m); }
          i := i + 1;
        }
      }
    }

    /** `custom_malloc` of at most 1024 bytes.  `at` is where the kernel maps a new page, if it does. */
    method MallocSmall(size: nat, mapped: bool, at: nat) returns (ok: bool, q: nat)
      requires HeapInv(State()) && size <= SMALL_MAX
      requires mapped ==> forall k :: 0 <= k < CLASSES ==> Unused(State(), at, Span(k))
      modifies this
      ensures HeapInv(State()) && others == old(others)
      ensures ok ==> q !in old(live) && q in live && live == old(live)[q := live[q]]
      ensures ok ==> live[q].req == Asked(size) && BestClass(Asked(size), live[q].cls)
      ensures !ok ==> !mapped && State() == old(State())
      ensures ok <==> mapped || RoomFor(old(State()), size)
      ensures ok ==> pages.Keys == old(pages.Keys) + if RoomFor(old(State()), size) then {} else {at}
    {
      hide PagesOk, LiveOk, OthersOk, Counted, ClassSize, Span, Unused;
      var size' := Asked(size);
      ClassFits(size');
      var k := ClassIndexFor(size');
      var pg := PickPage(k);
      RoomExact(State(), size, k, pg);
      if pg.NoPage? {
        if !mapped { return false, 0; }
        assert Unused(State(), at, Span(k));
        MapPage(k, at);
        pg := At(at);
      }
      ok := true;
      q := TakeChunk(k, pg.mem, size');
    }

    /** A new page, all of its chunks free, first of its class's list. */
    method MapPage(k: nat, at: nat)
      requires HeapInv(State()) && k < CLASSES && Unused(State(), at, Span(k))
      modifies this`pages, this`lists, this`active
      ensures HeapInv(State()) && HasFree(State(), at) && pages[at].cls == k
      ensures pages.Keys == old(pages.Keys) + {at}
    {
      hide PagesOk, ListsOk, LiveOk, OthersOk, Counted, HeapInv, ClassSize, Span, Unused;
      ghost var h := State();
      GrowInv(h, k, at);
      GrowReady(h, k);
      var stack := FreeStack(Count(k));
      pages := pages[at := Page(k, 0, stack)];
      lists := lists[k := [at] + lists[k]];
      active := active[k := At(at)];
      assert State() == Grow(h, k, at);
    }

    /** The top of the page's free stack is popped and its chunk handed out. */
    method TakeChunk(k: nat, m: nat, req: nat) returns (q: nat)
      requires HeapInv(State()) && k < CLASSES && HasFree(State(), m) && pages[m].cls == k && req <= ClassSize(k)
      modifies this
      ensures HeapInv(State()) && unchanged(`others, `lists)
      ensures q !in old(live) && live == old(live)[q := Live(m, k, old(pages[m].free[|pages[m].free| - 1]), req)]
      ensures pages.Keys == old(pages.Keys)
    {
      hide PagesOk, ListsOk, LiveOk, OthersOk, Counted, ClassSize, Head, HeapInv;
      ghost var h := State();
      TakeReady(h, k, m, req);
      var p := pages[m];
      var i := p.free[|p.free| - 1];
      pages := pages[m := p.(inUse := p.inUse + 1, free := p.free[..|p.free| - 1])];
      active := active[k := At(m)];
      q := Ptr(m, k, i);
      live := live[q := Live(m, k, i, req)];
      smallInUse := smallInUse + ClassSize(k);
      requested := requested + req;
      given := given + ClassSize(k);
      assert State() == Take(h, k, m, req).0;
    }

    /** `find_page_for_chunk`. */
    method FindPage(k: nat, c: nat, ghost m: nat) returns (r: nat)
      requires PagesOk(State()) && ListsOk(State()) && k < CLASSES
      requires m in pages && pages[m].cls == k && m <= c < m + Span(k)
      ensures r == m
    {
      hide NoDup, Span, Count, PagesOk;
      var i := 0;
      while i < |lists[k]|
        invariant i <= |lists[k]| && m in lists[k][i..]
        decreases |lists[k]| - i
      {
        r := lists[k][i];
        assert r in lists[k];
        if r <= c < r + Span(k) {
          OnePageHas(State(), r, m, k, c);
          return;
        }
        assert lists[k][i..] == [r] + lists[k][i + 1..];
        i := i + 1;
      }
    }

    /** Where a pointer belongs: the class is in its header, the page is searched for, the index is
        computed from the address. */
    method Locate(q: nat) returns (m: nat, i: nat)
      requires HeapInv(State()) && q in live
      ensures m == live[q].page && i == live[q].idx
    {
      hide ClassSize, Head, Span, Count, Counted, OthersOk, LiveOk, PagesOk, ListsOk;
      HeldWhere(State(), q);
      var c := q - HEADER;
      m := FindPage(live[q].cls, c, live[q].page);
      i := (c - m) / Chunk(live[q].cls);
    }

    /** `custom_free` of a chunk. */
    method FreeChunk(q: nat)
      requires HeapInv(State()) && q in live
      modifies this
      ensures HeapInv(State()) && live == old(live) - {q} && others == old(others)
      ensures State() == Freed(old(State()), q)
      ensures old(Placed(State(), q) && |lists| == CLASSES)
      ensures pages.Keys == if old(Spare(State(), q)) then old(pages.Keys) - {old(live[q]).page} else old(pages.Keys)
      ensures var l := old(live[q]); l.page in pages ==> pages[l.page].free == old(pages)[l.page].free + [l.idx]
    {
      hide PagesOk, ListsOk, LiveOk, OthersOk, Counted, ClassSize, Head, Span, Count, Reclaim, HeapInv;
      ghost var h := State();
      FreeReady(h, q);
      var m, i := Locate(q);
      var k, req := live[q].cls, live[q].req;
      var p := pages[m];
      pages := pages[m := p.(free := p.free + [i], inUse := p.inUse - 1)];
      smallInUse := Less(smallInUse, ClassSize(k));
      requested := Less(requested, req);
      given := Less(given, ClassSize(k));
      live := live - {q};
      assert State() == GiveBack(h, q);
      if p.inUse == 1 { ReclaimPage(m); }
      assert State() == FreeSmall(h, q);
    }

    /** `try_reclaim_page_locked`. */
    method ReclaimPage(m: nat)
      requires m in pages && pages[m].cls < CLASSES == |lists| == |active|
      requires forall x :: x in lists[pages[m].cls] ==> x in pages
      modifies this`pages, this`lists, this`active
      ensures State() == Reclaim(old(State()), m)
    {
      var k := pages[m].cls;
      var free := 0;
      var i := 0;
      assert lists[k][0..] == lists[k];
      while i < |lists[k]|
        invariant i <= |lists[k]| && unchanged(this)
        invariant free + FreeSum(State(), lists[k][i..]) == FreeSum(State(), lists[k])
      {
        assert lists[k][i..][1..] == lists[k][i + 1..];
        assert lists[k][i] in lists[k];
        free := free + |pages[lists[k][i]].free|;
        i := i + 1;
      }
      if free - |pages[m].free| < 2 * Count(k) { return; }
      lists := lists[k := Without(lists[k], m)];
      if active[k] == At(m) { active := active[k := NoPage]; }
      pages := pages - {m};
    }

    /** A large block: header and payload in whole pages of their own. */
    method MallocLarge(size: nat, pageSize: nat, at: nat)
      requires HeapInv(State()) && size > SMALL_MAX && pageSize > 0 && at !in others
      requires Unused(State(), at, Rounded(size, pageSize))
      modifies this
      ensures HeapInv(State()) && live == old(live)
      ensures others == old(others)[at := Other(Rounded(size, pageSize), size, Rounded(size, pageSize) - LARGE_HEADER)]
    {
      hide HeapInv, Unused, Rounded;
      ghost var h := State();
      var rounded := Rounded(size, pageSize);
      TakeOtherInv(h, at, rounded, size, rounded - LARGE_HEADER);
      others := others[at := Other(rounded, size, rounded - LARGE_HEADER)];
      requested := requested + size;
      given := given + (rounded - LARGE_HEADER);
      assert State() == TakeOther(h, at, rounded, size, rounded - LARGE_HEADER);
    }

    /** The fallback, for any size: the block comes from the C library behind a header. */
    method MallocFallback(size: nat, at: nat)
      requires HeapInv(State()) && at !in others && Unused(State(), at, LARGE_HEADER + size)
      modifies this
      ensures HeapInv(State()) && live == old(live)
      ensures others == old(others)[at := Other(LARGE_HEADER + size, size, size)]
    {
      hide HeapInv, Unused;
      ghost var h := State();
      TakeOtherInv(h, at, LARGE_HEADER + size, size, size);
      others := others[at := Other(LARGE_HEADER + size, size, size)];
      requested := requested + size;
      given := given + size;
      assert State() == TakeOther(h, at, LARGE_HEADER + size, size, size);
    }

    /** `custom_malloc`: a chunk, a mapping of its own, or the fallback; `mapped` and `at` are the kernel's
        answer, `lib` and `libAt` the C library's. */
    method Malloc(size: nat, pageSize: nat, mapped: bool, at: nat, lib: bool, libAt: nat) returns (r: Got)
      requires HeapInv(State()) && pageSize > 0
      requires mapped ==> at !in others && forall k :: 0 <= k < CLASSES ==> Unused(State(), at, Span(k))
      requires mapped && size > SMALL_MAX ==> Unused(State(), at, Rounded(size, pageSize))
      requires lib ==> libAt !in others && Unused(State(), libAt, LARGE_HEADER + Asked(size))
      modifies this
      ensures HeapInv(State()) && (r.NoMemory? ==> !mapped && !lib && State() == old(State()))
      ensures r.Small? <==> size <= SMALL_MAX && (mapped || RoomFor(old(State()), size))
      ensures r.Block? && size <= SMALL_MAX ==> r.head == libAt && lib
      ensures r.Block? && size > SMALL_MAX ==> r.head == if mapped then at else libAt
      ensures r.NoMemory? <==> !lib && !mapped && !(size <= SMALL_MAX && RoomFor(old(State()), size))
      ensures r.Small? ==>
        && r.ptr !in old(live) && r.ptr in live && live == old(live)[r.ptr := live[r.ptr]] && others == old(others)
        && live[r.ptr].req == Asked(size) && BestClass(Asked(size), live[r.ptr].cls)
      ensures r.Block? ==>
        && r.head !in old(others) && r.head in others && others == old(others)[r.head := others[r.head]]
        && live == old(live)
        && others[r.head].req == Asked(size) && others[r.head].span >= LARGE_HEADER + Asked(size)
    {
      hide HeapInv, Unused, Rounded, Span;
      if size <= SMALL_MAX {
        var ok, q := MallocSmall(size, mapped, at);
        if ok { return Small(q); }
      } else if mapped {
        MallocLarge(size, pageSize, at);
        return Block(at);
      }
      if !lib { return NoMemory; }
      MallocFallback(Asked(size), libAt);
      r := Block(libAt);
    }

    method FreeMapping(at: nat)
      requires HeapInv(State()) && at in others
      modifies this
      ensures HeapInv(State()) && live == old(live) && others == old(others) - {at}
    {
      hide HeapInv;
      ghost var h := State();
      FreeOtherInv(h, at);
      requested := Less(requested, others[at].req);
      given := Less(given, others[at].alloc);
      others := others - {at};
      assert State() == FreeOther(h, at);
    }
  }
}
