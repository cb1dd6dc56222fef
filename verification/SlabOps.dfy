/** The slab allocator's operations, and what each keeps. */
module SlabOps {
  import opened Lists
  import opened Sums
  import opened SlabModel

  /** Every index of a new page. */
  function Indices(n: nat): (s: seq<nat>)
    ensures |s| == n && NoDup(s) && forall i: nat :: i in s <==> i < n
  {
    if n == 0 then []
    else
      NoDupSnoc(Indices(n - 1), n - 1);
      Indices(n - 1) + [n - 1]
  }

  lemma {:induction false} NoDupSnoc(s: seq<nat>, x: nat)
    requires NoDup(s) && x !in s
    ensures NoDup(s + [x])
  {
    if s == [] {
      assert s + [x] == [x] && [x][1..] == [];
    } else {
      assert (s + [x])[1..] == s[1..] + [x];
      NoDupSnoc(s[1..], x);
    }
  }

  lemma {:induction false} NoDupInit(s: seq<nat>)
    requires NoDup(s) && s != []
    ensures NoDup(s[..|s| - 1]) && s[|s| - 1] !in s[..|s| - 1]
  {
    if |s| > 1 {
      NoDupInit(s[1..]);
      assert s[1..][..|s| - 2] == s[..|s| - 1][1..];
      assert s[1..][|s| - 2] == s[|s| - 1];
      assert s[|s| - 1] in s[1..];
    }
  }

  // ---------------------------------------------------------------- operations

  /** A fresh region of memory. */
  ghost predicate Unused(h: Heap, at: nat, span: nat) {
    && (forall m :: m in h.pages && h.pages[m].cls < CLASSES ==> Disjoint(at, span, m, Span(h.pages[m].cls)))
    && (forall a :: a in h.others ==> Disjoint(at, span, a, h.others[a].span))
    && span > 0
  }

  /** `slab_grow_locked`: a new page at the head of its class's list. */
  function Grow(h: Heap, k: nat, at: nat): Heap
    requires k < CLASSES && |h.lists| == CLASSES == |h.active|
  {
    h.(pages := h.pages[at := Page(k, 0, Indices(Count(k)))], lists := h.lists[k := [at] + h.lists[k]],
       active := h.active[k := At(at)])
  }

  predicate HasFree(h: Heap, m: nat) {
    m in h.pages && h.pages[m].free != []
  }

  /** The top index of page m's free stack is handed out. */
  function Take(h: Heap, k: nat, m: nat, req: nat): (r: (Heap, nat))
    requires k < CLASSES == |h.active| && HasFree(h, m)
  {
    var p := h.pages[m];
    var i := p.free[|p.free| - 1];
    var q := Ptr(m, k, i);
    (h.(pages := h.pages[m := p.(inUse := p.inUse + 1, free := p.free[..|p.free| - 1])],
        active := h.active[k := At(m)], live := h.live[q := Live(m, k, i, req)],
        smallInUse := h.smallInUse + ClassSize(k), requested := h.requested + req, given := h.given + ClassSize(k)), q)
  }

  function Less(a: nat, b: nat): nat {
    if a >= b then a - b else 0
  }

  /** `custom_free` of a small chunk, before the page is looked at. */
  function GiveBack(h: Heap, q: nat): Heap
    requires q in h.live && h.live[q].page in h.pages && h.live[q].cls < CLASSES
  {
    var l := h.live[q];
    var p := h.pages[l.page];
    h.(pages := h.pages[l.page := p.(inUse := Less(p.inUse, 1), free := p.free + [l.idx])], live := h.live - {q},
       smallInUse := Less(h.smallInUse, ClassSize(l.cls)), requested := Less(h.requested, l.req),
       given := Less(h.given, ClassSize(l.cls)))
  }

  function FreeSum(h: Heap, list: seq<nat>): nat {
    if list == [] then 0
    else (if list[0] in h.pages then |h.pages[list[0]].free| else 0) + FreeSum(h, list[1..])
  }

  /** `try_reclaim_page_locked`. */
  function Reclaim(h: Heap, m: nat): Heap
    requires m in h.pages && h.pages[m].cls < CLASSES == |h.lists| == |h.active|
  {
    var k := h.pages[m].cls;
    if FreeSum(h, h.lists[k]) - |h.pages[m].free| < 2 * Count(k) then h
    else h.(pages := h.pages - {m}, lists := h.lists[k := Without(h.lists[k], m)],
            active := h.active[k := if h.active[k] == At(m) then NoPage else h.active[k]])
  }

  function FreeSmall(h: Heap, q: nat): Heap
    requires q in h.live && h.live[q].page in h.pages && h.live[q].cls < CLASSES == |h.lists| == |h.active|
    requires h.pages[h.live[q].page].cls == h.live[q].cls
  {
    var m := h.live[q].page;
    var h1 := GiveBack(h, q);
    if h.pages[m].inUse == 1 then Reclaim(h1, m) else h1
  }

  /** A block with a mapping of its own: large, or the fallback. */
  function TakeOther(h: Heap, at: nat, span: nat, req: nat, alloc: nat): Heap {
    h.(others := h.others[at := Other(span, req, alloc)], requested := h.requested + req, given := h.given + alloc)
  }

  function FreeOther(h: Heap, at: nat): Heap
    requires at in h.others
  {
    h.(others := h.others - {at}, requested := Less(h.requested, h.others[at].req),
       given := Less(h.given, h.others[at].alloc))
  }

  // ---------------------------------------------------------------- growing

  lemma GrowInv(h: Heap, k: nat, at: nat)
    requires HeapInv(h) && k < CLASSES && Unused(h, at, Span(k))
    ensures HeapInv(Grow(h, k, at)) && HasFree(Grow(h, k, at), at) && at !in h.pages
  {
    hide ClassSize, Counted, Count, Chunk, NoDup, LiveOk, ListsOk;
    ListsSize(h);
    var g := Grow(h, k, at);
    assert at !in h.pages by {
      if at in h.pages { PositiveSpan(h.pages[at].cls); PositiveSpan(k); }
    }
    assert PageOk(g.pages[at]);
    assert |Indices(Count(k))| == Count(k) >= 16;
    GrowLive(h, g, k, at);
    GrowLists(h, g, k, at);
    assert Counted(g) by { SameCounts(h, g); }
  }

  lemma PositiveSpan(k: nat)
    requires k < CLASSES
    ensures Span(k) > 0
  {
    MulStep(0, Count(k), Chunk(k));
  }

  lemma SameCounts(h: Heap, g: Heap)
    requires Counted(h) && g.live == h.live && g.others == h.others
    requires g.smallInUse == h.smallInUse && g.requested == h.requested && g.given == h.given
    ensures Counted(g)
  {
  }

  lemma GrowLive(h: Heap, g: Heap, k: nat, at: nat)
    requires LiveOk(h) && at !in h.pages && k < CLASSES && g.live == h.live
    requires g.pages == h.pages[at := Page(k, 0, Indices(Count(k)))]
    ensures LiveOk(g)
  {
    hide ClassSize, Count, Chunk, Head;
    forall q | q in g.live ensures Placed(g, q) { assert Placed(h, q); }
    forall m, i: nat | m in g.pages && g.pages[m].cls < CLASSES && i < Count(g.pages[m].cls) ensures Held(g, m, i) {
      if m != at { assert Held(h, m, i); }
    }
  }

  lemma GrowLists(h: Heap, g: Heap, k: nat, at: nat)
    requires ListsOk(h) && at !in h.pages && k < CLASSES && |h.lists| == CLASSES == |h.active|
    requires g.pages == h.pages[at := Page(k, 0, Indices(Count(k)))]
    requires g.lists == h.lists[k := [at] + h.lists[k]] && g.active == h.active[k := At(at)]
    ensures ListsOk(g)
  {
    hide Count, Indices;
    assert g.lists[k][1..] == h.lists[k];
    assert at !in h.lists[k];
    forall j, m | 0 <= j < CLASSES && m in g.lists[j] ensures m in g.pages && g.pages[m].cls == j {
      if j != k || m != at { assert m in h.lists[j]; }
    }
  }

  // ---------------------------------------------------------------- handing out a chunk

  /** Different chunks have different payload addresses. */
  lemma PtrInjective(h: Heap, m: nat, i: nat, n: nat, j: nat)
    requires PagesOk(h) && m in h.pages && n in h.pages && h.pages[m].cls < CLASSES && h.pages[n].cls < CLASSES
    requires i < Count(h.pages[m].cls) && j < Count(h.pages[n].cls)
    requires Ptr(m, h.pages[m].cls, i) == Ptr(n, h.pages[n].cls, j)
    ensures m == n && i == j
  {
    hide ClassSize, Count, Span, Head;
    if m != n || i != j {
      if m != n { assert Disjoint(m, Span(h.pages[m].cls), n, Span(h.pages[n].cls)); }
      ChunksApart(m, h.pages[m].cls, i, n, h.pages[n].cls, j);
    }
  }

  lemma NotHeld(h: Heap, m: nat, i: nat)
    requires PagesOk(h) && LiveOk(h) && m in h.pages && i in h.pages[m].free
    ensures h.pages[m].cls < CLASSES && i < Count(h.pages[m].cls) && Ptr(m, h.pages[m].cls, i) !in h.live
  {
    hide ClassSize, Count, Span, Head;
    assert PageOk(h.pages[m]);
    var q := Ptr(m, h.pages[m].cls, i);
    if q in h.live {
      assert Placed(h, q);
      PtrInjective(h, m, i, h.live[q].page, h.live[q].idx);
    }
  }

  /** Nothing but one page's stack and use count changes, and that page stays in order. */
  lemma OnePage(h: Heap, g: Heap, m: nat)
    requires PagesOk(h) && OthersOk(h) && m in h.pages && g.others == h.others
    requires m in g.pages && g.pages == h.pages[m := g.pages[m]]
    requires g.pages[m].cls == h.pages[m].cls && PageOk(g.pages[m])
    ensures PagesOk(g) && OthersOk(g)
  {
    hide ClassSize, Count, Span, NoDup;
    forall a, b | a in g.pages && b in g.pages && a != b
      ensures Disjoint(a, Span(g.pages[a].cls), b, Span(g.pages[b].cls))
    {
      assert Disjoint(a, Span(h.pages[a].cls), b, Span(h.pages[b].cls));
    }
  }

  lemma OnePageLists(h: Heap, g: Heap, m: nat, k: nat)
    requires ListsOk(h) && m in h.pages && h.pages[m].cls == k < CLASSES && g.lists == h.lists
    requires m in g.pages && g.pages == h.pages[m := g.pages[m]] && g.pages[m].cls == k
    requires g.active == h.active || g.active == h.active[k := At(m)]
    ensures ListsOk(g)
  {
  }

  lemma TakeInv(h: Heap, k: nat, m: nat, req: nat)
    requires HeapInv(h) && |h.active| == CLASSES && HasFree(h, m)
    requires h.pages[m].cls == k < CLASSES && req <= ClassSize(k)
    ensures var (g, q) := Take(h, k, m, req);
      HeapInv(g) && q !in h.live && g.live == h.live[q := Live(m, k, h.pages[m].free[|h.pages[m].free| - 1], req)]
  {
    hide ClassSize, Count, Head, Span, PagesOk, ListsOk, LiveOk, OthersOk, Counted;
    var (g, q) := Take(h, k, m, req);
    var p := h.pages[m];
    var i := p.free[|p.free| - 1];
    ListsSize(h);
    PageIs(h, m);
    TakePage(p);
    NotHeld(h, m, i);
    OnePage(h, g, m);
    OnePageLists(h, g, m, k);
    TakeLive(h, g, k, m, i, req);
    TakeCounts(h, g, q, Live(m, k, i, req));
  }

  lemma ListsSize(h: Heap)
    requires ListsOk(h)
    ensures |h.lists| == CLASSES == |h.active|
  {
  }

  lemma PageIs(h: Heap, m: nat)
    requires PagesOk(h) && m in h.pages
    ensures PageOk(h.pages[m])
  {
    hide Count, Span;
  }

  lemma TakePage(p: Page)
    requires PageOk(p) && p.free != []
    ensures var free := p.free[..|p.free| - 1];
      && PageOk(p.(inUse := p.inUse + 1, free := free))
      && (forall x :: x in free <==> x in p.free && x != p.free[|p.free| - 1])
  {
    hide Count;
    NoDupInit(p.free);
    InitMembers(p.free);
    var p1 := p.(inUse := p.inUse + 1, free := p.free[..|p.free| - 1]);
    assert NoDup(p1.free);
    assert |p1.free| + p1.inUse == Count(p1.cls);
    forall i | i in p1.free ensures i < Count(p1.cls) {
      assert i in p.free;
    }
  }

  lemma InitMembers(s: seq<nat>)
    requires s != [] && s[|s| - 1] !in s[..|s| - 1]
    ensures forall x :: x in s[..|s| - 1] <==> x in s && x != s[|s| - 1]
  {
    var t := s[..|s| - 1];
    assert s == t + [s[|s| - 1]];
    forall x ensures x in t <==> x in s && x != s[|s| - 1] {
      assert x in s <==> x in t || x in [s[|s| - 1]];
    }
  }

  lemma TakeLive(h: Heap, g: Heap, k: nat, m: nat, i: nat, req: nat)
    requires PagesOk(h) && LiveOk(h) && m in h.pages && h.pages[m].cls == k < CLASSES && req <= ClassSize(k)
    requires i in h.pages[m].free && m in g.pages && g.pages == h.pages[m := g.pages[m]] && g.pages[m].cls == k
    requires forall x :: x in g.pages[m].free <==> x in h.pages[m].free && x != i
    requires g.live == h.live[Ptr(m, k, i) := Live(m, k, i, req)]
    ensures LiveOk(g)
  {
    hide ClassSize, Count, Head, Span;
    var q := Ptr(m, k, i);
    NotHeld(h, m, i);
    forall x | x in g.live ensures Placed(g, x) {
      if x != q { assert Placed(h, x); }
    }
    forall n, j: nat | n in g.pages && g.pages[n].cls < CLASSES && j < Count(g.pages[n].cls) ensures Held(g, n, j) {
      assert Held(h, n, j);
    }
  }

  lemma TakeCounts(h: Heap, g: Heap, q: nat, l: Live)
    requires Counted(h) && q !in h.live && g.live == h.live[q := l] && g.others == h.others && l.cls < CLASSES
    requires g.smallInUse == h.smallInUse + ClassSize(l.cls)
    requires g.requested == h.requested + l.req && g.given == h.given + ClassSize(l.cls)
    ensures Counted(g)
  {
    MapSumUpdate(h.live, SizeOf, q, l);
    MapSumUpdate(h.live, ReqOf, q, l);
  }

  // ---------------------------------------------------------------- taking a chunk back

  /** A page one of whose chunks is held is in use. */
  lemma InUse(h: Heap, q: nat)
    requires PagesOk(h) && LiveOk(h) && q in h.live
    ensures Placed(h, q) && h.pages[h.live[q].page].inUse > 0
  {
    hide ClassSize, Count, Head, Span;
    assert Placed(h, q);
    var l := h.live[q];
    assert PageOk(h.pages[l.page]);
    if h.pages[l.page].inUse == 0 { AllThere(h.pages[l.page].free, Count(l.cls), l.idx); }
  }

  lemma GiveBackInv(h: Heap, q: nat)
    requires HeapInv(h) && q in h.live
    ensures Placed(h, q) && HeapInv(GiveBack(h, q))
  {
    hide ClassSize, Count, Head, Span, PagesOk, ListsOk, LiveOk, OthersOk, Counted;
    InUse(h, q);
    var l := h.live[q];
    var g := GiveBack(h, q);
    BackPage(h, q);
    OnePage(h, g, l.page);
    OnePageLists(h, g, l.page, l.cls);
    BackLive(h, g, q);
    BackCounts(h, g, q);
  }

  lemma BackPage(h: Heap, q: nat)
    requires PagesOk(h) && Placed(h, q) && h.pages[h.live[q].page].inUse > 0
    ensures var l := h.live[q];
      var p := h.pages[l.page];
      PageOk(p.(inUse := p.inUse - 1, free := p.free + [l.idx]))
  {
    var l := h.live[q];
    assert PageOk(h.pages[l.page]);
    NoDupSnoc(h.pages[l.page].free, l.idx);
  }

  lemma BackLive(h: Heap, g: Heap, q: nat)
    requires PagesOk(h) && LiveOk(h) && q in h.live && Placed(h, q) && g.live == h.live - {q}
    requires var l := h.live[q];
      && l.page in g.pages
      && g.pages ==
           h.pages[l.page := h.pages[l.page].(inUse := g.pages[l.page].inUse, free := h.pages[l.page].free + [l.idx])]
    ensures LiveOk(g)
  {
    hide ClassSize, Count, Head, Span;
    var l := h.live[q];
    forall x | x in g.live ensures Placed(g, x) {
      assert Placed(h, x);
      if h.live[x].page == l.page { assert h.live[x].idx != l.idx; }
    }
    forall n, j: nat | n in g.pages && g.pages[n].cls < CLASSES && j < Count(g.pages[n].cls) ensures Held(g, n, j) {
      assert Held(h, n, j);
      if n != l.page || j != l.idx {
        if Ptr(n, h.pages[n].cls, j) == q { PtrInjective(h, n, j, l.page, l.idx); }
      }
    }
  }

  lemma BackCounts(h: Heap, g: Heap, q: nat)
    requires Counted(h) && q in h.live && h.live[q].cls < CLASSES && g.live == h.live - {q} && g.others == h.others
    requires var l := h.live[q];
      && g.smallInUse == Less(h.smallInUse, ClassSize(l.cls)) && g.requested == Less(h.requested, l.req)
      && g.given == Less(h.given, ClassSize(l.cls))
    ensures Counted(g)
  {
    MapSumSplit(h.live, SizeOf, q);
    MapSumSplit(h.live, ReqOf, q);
  }

  // ---------------------------------------------------------------- giving a page back

  lemma {:induction false} FreeSumWithout(h: Heap, list: seq<nat>, m: nat)
    requires NoDup(list) && m in list && m in h.pages
    ensures FreeSum(h, list) == FreeSum(h, Without(list, m)) + |h.pages[m].free|
  {
    if list[0] != m {
      FreeSumWithout(h, list[1..], m);
      assert Without(list, m)[1..] == Without(list[1..], m);
    }
  }

  lemma {:induction false} FreeSumSame(h: Heap, g: Heap, list: seq<nat>)
    requires forall x :: x in list ==> x in h.pages && x in g.pages && g.pages[x].free == h.pages[x].free
    ensures FreeSum(g, list) == FreeSum(h, list)
  {
    if list != [] {
      FreeSumSame(h, g, list[1..]);
    }
  }

  /** RECLAIM.  A page that holds nothing is given back exactly when the other pages of its class have two pages'
      worth of free chunks among them. */
  lemma ReclaimInv(h: Heap, m: nat)
    requires HeapInv(h) && m in h.pages && h.pages[m].inUse == 0 && h.pages[m].cls < CLASSES
    ensures var g := Reclaim(h, m);
      && HeapInv(g) && g.live == h.live && g.others == h.others
      && (m !in g.pages <==> FreeSum(h, Without(h.lists[h.pages[m].cls], m)) >= 2 * Count(h.pages[m].cls))
      && (m !in g.pages ==> FreeSum(g, g.lists[h.pages[m].cls]) >= 2 * Count(h.pages[m].cls))
      && (m !in g.pages ==> forall q :: q in h.live ==> h.live[q].page != m)
      && (m in g.pages ==> g == h)
  {
    hide ClassSize, Count, Head, Span, PagesOk, LiveOk, OthersOk, Counted, FreeSum;
    var g := Reclaim(h, m);
    var k := h.pages[m].cls;
    FreeSumWithout(h, h.lists[k], m);
    if m !in g.pages {
      forall q | q in h.live ensures h.live[q].page != m { if h.live[q].page == m { InUse(h, q); } }
      SameCounts(h, g);
      DropPages(h, g, m);
      DropLists(h, g, m, k);
      DropLive(h, g, m);
      WithoutIs(h.lists[k], m);
      FreeSumSame(h, g, g.lists[k]);
    }
  }

  lemma DropPages(h: Heap, g: Heap, m: nat)
    requires PagesOk(h) && OthersOk(h) && g.pages == h.pages - {m} && g.others == h.others
    ensures PagesOk(g) && OthersOk(g)
  {
    hide ClassSize, Count, Span, NoDup;
    forall a, b | a in g.pages && b in g.pages && a != b
      ensures Disjoint(a, Span(g.pages[a].cls), b, Span(g.pages[b].cls))
    {
      assert Disjoint(a, Span(h.pages[a].cls), b, Span(h.pages[b].cls));
    }
  }

  lemma DropLists(h: Heap, g: Heap, m: nat, k: nat)
    requires ListsOk(h) && m in h.pages && h.pages[m].cls == k < CLASSES && g.pages == h.pages - {m}
    requires |h.lists| == CLASSES == |h.active| && g.lists == h.lists[k := Without(h.lists[k], m)]
    requires g.active == h.active[k := if h.active[k] == At(m) then NoPage else h.active[k]]
    ensures ListsOk(g) && NoDup(h.lists[k]) && m in h.lists[k]
  {
    hide NoDup, Without;
    WithoutIs(h.lists[k], m);
    forall j | 0 <= j < CLASSES ensures ListOk(g, j) { DropList(h, g, m, k, j); }
    forall x | x in g.pages ensures g.pages[x].cls < CLASSES && x in g.lists[g.pages[x].cls] {
      assert x in h.lists[h.pages[x].cls];
    }
    AllLists(g);
  }

  /** One class's list and active page. */
  ghost predicate ListOk(h: Heap, k: nat) {
    && k < |h.lists| == |h.active| && NoDup(h.lists[k])
    && (forall m :: m in h.lists[k] ==> m in h.pages && h.pages[m].cls == k)
    && (h.active[k].At? ==> h.active[k].mem in h.lists[k])
  }

  lemma AllLists(h: Heap)
    requires |h.lists| == CLASSES == |h.active| && forall k :: 0 <= k < CLASSES ==> ListOk(h, k)
    requires forall m :: m in h.pages ==> h.pages[m].cls < CLASSES && m in h.lists[h.pages[m].cls]
    ensures ListsOk(h)
  {
    hide NoDup;
    forall k | 0 <= k < CLASSES
      ensures NoDup(h.lists[k]) && (h.active[k].At? ==> h.active[k].mem in h.lists[k])
      ensures forall m :: m in h.lists[k] ==> m in h.pages && h.pages[m].cls == k
    {
      assert ListOk(h, k);
    }
  }

  lemma DropList(h: Heap, g: Heap, m: nat, k: nat, j: nat)
    requires ListsOk(h) && m in h.pages && h.pages[m].cls == k < CLASSES && g.pages == h.pages - {m} && j < CLASSES
    requires |h.lists| == CLASSES == |h.active| && g.lists == h.lists[k := Without(h.lists[k], m)]
    requires g.active == h.active[k := if h.active[k] == At(m) then NoPage else h.active[k]]
    requires NoDup(Without(h.lists[k], m)) && forall x :: x in Without(h.lists[k], m) <==> x in h.lists[k] && x != m
    ensures ListOk(g, j)
  {
    hide NoDup, Without;
    if j != k {
      assert g.lists[j] == h.lists[j] && g.active[j] == h.active[j];
    }
  }

  lemma DropLive(h: Heap, g: Heap, m: nat)
    requires LiveOk(h) && g.live == h.live && g.pages == h.pages - {m}
    requires forall q :: q in h.live ==> h.live[q].page != m
    ensures LiveOk(g)
  {
    hide ClassSize, Count, Head;
    forall q | q in g.live ensures Placed(g, q) { assert Placed(h, q); }
    forall n, j: nat | n in g.pages && g.pages[n].cls < CLASSES && j < Count(g.pages[n].cls) ensures Held(g, n, j) {
      assert Held(h, n, j);
    }
  }

  lemma FreeSmallInv(h: Heap, q: nat)
    requires HeapInv(h) && q in h.live
    ensures Placed(h, q) && |h.lists| == CLASSES == |h.active|
    ensures HeapInv(FreeSmall(h, q)) && FreeSmall(h, q).live == h.live - {q}
    ensures FreeSmall(h, q).pages.Keys == if Spare(h, q) then h.pages.Keys - {h.live[q].page} else h.pages.Keys
  {
    hide Count, Head, Span, Counted, PagesOk, LiveOk, OthersOk, Reclaim, FreeSum, Without;
    GiveBackInv(h, q);
    var m, g := h.live[q].page, GiveBack(h, q);
    SpareElsewhere(h, q);
    if h.pages[m].inUse == 1 {
      ReclaimInv(g, m);
      ReclaimKeys(g, m);
    }
  }

  /** The chunk is the last one held on its page, and the other pages of the class have two pages' worth of
      free chunks among them. */
  predicate Spare(h: Heap, q: nat)
    requires Placed(h, q) && |h.lists| == CLASSES
  {
    var l := h.live[q];
    h.pages[l.page].inUse == 1 && FreeSum(h, Without(h.lists[l.cls], l.page)) >= 2 * Count(l.cls)
  }

  /** Giving a chunk back changes nothing on other pages. */
  lemma SpareElsewhere(h: Heap, q: nat)
    requires HeapInv(h) && Placed(h, q) && |h.lists| == CLASSES
    ensures var l := h.live[q];
      FreeSum(GiveBack(h, q), Without(h.lists[l.cls], l.page)) == FreeSum(h, Without(h.lists[l.cls], l.page))
  {
    hide Count, Head, Span, Counted, PagesOk, LiveOk, OthersOk, FreeSum, Without;
    var l := h.live[q];
    WithoutIs(h.lists[l.cls], l.page);
    FreeSumSame(h, GiveBack(h, q), Without(h.lists[l.cls], l.page));
  }

  lemma ReclaimKeys(h: Heap, m: nat)
    requires m in h.pages && h.pages[m].cls < CLASSES == |h.lists| == |h.active|
    ensures Reclaim(h, m).pages.Keys == if m in Reclaim(h, m).pages then h.pages.Keys else h.pages.Keys - {m}
  {
  }

  // ---------------------------------------------------------------- other blocks

  /** Live chunks do not depend on the other blocks. */
  lemma SamePages(h: Heap, g: Heap)
    requires PagesOk(h) && ListsOk(h) && LiveOk(h) && g.pages == h.pages
    requires g.lists == h.lists && g.active == h.active && g.live == h.live
    ensures PagesOk(g) && ListsOk(g) && LiveOk(g)
  {
    hide ClassSize, Count, Head, Span, NoDup;
    assert LiveOk(g) by {
      forall q | q in g.live ensures Placed(g, q) { assert Placed(h, q); }
      forall m, i: nat | m in g.pages && g.pages[m].cls < CLASSES && i < Count(g.pages[m].cls) ensures Held(g, m, i) {
        assert Held(h, m, i);
      }
    }
  }

  lemma TakeOtherInv(h: Heap, at: nat, span: nat, req: nat, alloc: nat)
    requires HeapInv(h) && Unused(h, at, span) && at !in h.others
    ensures HeapInv(TakeOther(h, at, span, req, alloc))
  {
    hide PagesOk, ListsOk, LiveOk, OthersOk, Unused;
    var g := TakeOther(h, at, span, req, alloc);
    SamePages(h, g);
    MapSumUpdate(h.others, OtherReq, at, Other(span, req, alloc));
    MapSumUpdate(h.others, OtherAlloc, at, Other(span, req, alloc));
    AddOther(h, g, at, span);
  }

  lemma AddOther(h: Heap, g: Heap, at: nat, span: nat)
    requires PagesOk(h) && OthersOk(h) && Unused(h, at, span) && g.pages == h.pages && at !in h.others
    requires at in g.others && g.others == h.others[at := g.others[at]] && g.others[at].span == span
    ensures OthersOk(g)
  {
    hide ClassSize, Count, Span, NoDup;
  }

  lemma FreeOtherInv(h: Heap, at: nat)
    requires HeapInv(h) && at in h.others
    ensures HeapInv(FreeOther(h, at))
  {
    hide PagesOk, ListsOk, LiveOk, OthersOk;
    var g := FreeOther(h, at);
    SamePages(h, g);
    MapSumSplit(h.others, OtherReq, at);
    MapSumSplit(h.others, OtherAlloc, at);
    FewerOthers(h, g, at);
  }

  lemma FewerOthers(h: Heap, g: Heap, at: nat)
    requires OthersOk(h) && g.pages == h.pages && g.others == h.others - {at}
    ensures OthersOk(g)
  {
    hide ClassSize, Count, Span;
  }
}
