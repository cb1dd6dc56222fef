/** The slab allocator's state: pages of equal chunks per size class, free-index stacks, and what the
    program holds. */
module SlabModel {
  import opened Lists
  import opened Sums

  const SIZES: seq<nat> := [8, 16, 24, 32, 40, 56, 72, 96, 128, 136, 160, 200, 256, 320, 400, 512, 640, 800, 1024]
  const CLASSES := 19
  const SMALL_MAX := 1024
  const HEADER := 4
  const PAGE_SIZE := 65536

  /** The payload size of a class. */
  function ClassSize(k: nat): (n: nat)
    requires k < CLASSES
    ensures 8 <= n <= SMALL_MAX
  {
    SIZES[k]
  }

  /** Header and payload of a chunk. */
  function Chunk(k: nat): (c: nat)
    requires k < CLASSES
    ensures 12 <= c <= 1028
  {
    HEADER + ClassSize(k)
  }

  /** Chunks on a page. */
  function Count(k: nat): (n: nat)
    requires k < CLASSES
    ensures 16 <= n <= 65535
  {
    PAGE_SIZE / Chunk(k)
  }

  datatype Page = Page(cls: nat, inUse: nat, free: seq<nat>)

  /** A chunk the program holds: its page, its index, and how many bytes were asked for. */
  datatype Live = Live(page: nat, cls: nat, idx: nat, req: nat)

  /** A block that is not on a page: a mapping of its own, or the fallback. */
  datatype Other = Other(span: nat, req: nat, alloc: nat)

  /** Pages are known by the address of their memory; `lists` gives each class's pages in list order,
      `active` the page of its last allocation. */
  datatype Heap = Heap(
    pages: map<nat, Page>, lists: seq<seq<nat>>, active: seq<Active>, live: map<nat, Live>, others: map<nat, Other>,
    smallInUse: nat, requested: nat, given: nat)

  datatype Active = NoPage | At(mem: nat)

  /** The address of a chunk, and of its payload. */
  function Head(mem: nat, k: nat, i: nat): (a: nat)
    requires k < CLASSES
    ensures a >= mem
  {
    mem + i * Chunk(k)
  }

  function Ptr(mem: nat, k: nat, i: nat): nat
    requires k < CLASSES
  {
    Head(mem, k, i) + HEADER
  }

  function Span(k: nat): nat
    requires k < CLASSES
  {
    Count(k) * Chunk(k)
  }

  predicate PageOk(p: Page) {
    && p.cls < CLASSES && NoDup(p.free) && |p.free| + p.inUse == Count(p.cls)
    && forall i :: i in p.free ==> i < Count(p.cls)
  }

  predicate Disjoint(a: nat, n: nat, b: nat, m: nat) {
    a + n <= b || b + m <= a
  }

  // ---------------------------------------------------------------- the invariant

  ghost predicate PagesOk(h: Heap) {
    && (forall m :: m in h.pages ==> PageOk(h.pages[m]))
    && (forall m, n :: m in h.pages && n in h.pages && m != n ==>
          Disjoint(m, Span(h.pages[m].cls), n, Span(h.pages[n].cls)))
  }

  ghost predicate ListsOk(h: Heap) {
    && |h.lists| == CLASSES == |h.active|
    && (forall k :: 0 <= k < CLASSES ==> NoDup(h.lists[k]))
    && (forall k, m :: 0 <= k < CLASSES && m in h.lists[k] ==> m in h.pages && h.pages[m].cls == k)
    && (forall m :: m in h.pages ==> h.pages[m].cls < CLASSES && m in h.lists[h.pages[m].cls])
    && (forall k :: 0 <= k < CLASSES && h.active[k].At? ==> h.active[k].mem in h.lists[k])
  }

  /** A held chunk is on a page of its class, at its index, and not on the free stack. */
  predicate Placed(h: Heap, q: nat) {
    q in h.live &&
    var l := h.live[q];
    && l.page in h.pages && h.pages[l.page].cls == l.cls < CLASSES && l.idx < Count(l.cls)
    && l.idx !in h.pages[l.page].free && q == Ptr(l.page, l.cls, l.idx) && l.req <= ClassSize(l.cls)
  }

  /** A chunk is on the free stack or held. */
  predicate Held(h: Heap, m: nat, i: nat) {
    m in h.pages && h.pages[m].cls < CLASSES && i < Count(h.pages[m].cls) &&
    (i in h.pages[m].free ||
     (Ptr(m, h.pages[m].cls, i) in h.live && h.live[Ptr(m, h.pages[m].cls, i)].page == m
      && h.live[Ptr(m, h.pages[m].cls, i)].idx == i))
  }

  ghost predicate LiveOk(h: Heap) {
    && (forall q :: q in h.live ==> Placed(h, q))
    && (forall m, i: nat :: m in h.pages && h.pages[m].cls < CLASSES && i < Count(h.pages[m].cls) ==> Held(h, m, i))
  }

  ghost predicate OthersOk(h: Heap) {
    && (forall a, b :: a in h.others && b in h.others && a != b ==> Disjoint(a, h.others[a].span, b, h.others[b].span))
    && (forall a, m :: a in h.others && m in h.pages && h.pages[m].cls < CLASSES ==>
          Disjoint(a, h.others[a].span, m, Span(h.pages[m].cls)))
  }

  function SizeOf(l: Live): nat {
    if l.cls < CLASSES then ClassSize(l.cls) else 0
  }

  function ReqOf(l: Live): nat { l.req }

  function OtherReq(o: Other): nat { o.req }

  function OtherAlloc(o: Other): nat { o.alloc }

  /** The counters are sums over what is held. */
  ghost predicate Counted(h: Heap) {
    && h.smallInUse == MapSum(h.live, SizeOf)
    && h.requested == MapSum(h.live, ReqOf) + MapSum(h.others, OtherReq)
    && h.given == MapSum(h.live, SizeOf) + MapSum(h.others, OtherAlloc)
  }

  ghost predicate HeapInv(h: Heap) {
    PagesOk(h) && ListsOk(h) && LiveOk(h) && OthersOk(h) && Counted(h)
  }

  // ---------------------------------------------------------------- addresses

  lemma MulStep(i: nat, j: nat, c: nat)
    requires i < j
    ensures i * c + c <= j * c
  {
    assert j * c == i * c + (j - i) * c;
    assert (j - i) * c >= c by { if j - i > 1 { assert (j - i - 1) * c >= 0; } }
  }

  /** A chunk lies inside its page. */
  lemma Inside(mem: nat, k: nat, i: nat)
    requires k < CLASSES && i < Count(k)
    ensures Head(mem, k, i) + Chunk(k) <= mem + Span(k)
  {
    MulStep(i, Count(k), Chunk(k));
  }

  /** The index that a free computes from the address is the one that was allocated. */
  lemma IndexBack(mem: nat, k: nat, i: nat)
    requires k < CLASSES
    ensures (Head(mem, k, i) - mem) / Chunk(k) == i
  {
    Exact(i, Chunk(k));
  }

  lemma {:induction false} Exact(i: nat, c: nat)
    requires c > 0
    ensures (i * c) / c == i
  {
    var q := (i * c) / c;
    var r := (i * c) % c;
    assert i * c == q * c + r && 0 <= r < c;
    if q < i {
      MulStep(q, i, c);
    } else if q > i {
      MulStep(i, q, c);
    }
  }

  /** Different chunks are apart. */
  lemma ChunksApart(m: nat, k: nat, i: nat, n: nat, l: nat, j: nat)
    requires k < CLASSES && l < CLASSES && i < Count(k) && j < Count(l)
    requires if m == n then k == l && i != j else Disjoint(m, Span(k), n, Span(l))
    ensures Disjoint(Head(m, k, i), Chunk(k), Head(n, l, j), Chunk(l))
  {
    hide Count, Chunk;
    Inside(m, k, i);
    Inside(n, l, j);
    if m == n {
      if i < j { MulStep(i, j, Chunk(k)); } else { MulStep(j, i, Chunk(k)); }
    }
  }

  /** The chunk of a held pointer. */
  function Base(q: nat): int {
    q - HEADER
  }

  predicate Apart(h: Heap, p: nat, q: nat) {
    p in h.live && q in h.live && h.live[p].cls < CLASSES && h.live[q].cls < CLASSES &&
    (Base(p) + Chunk(h.live[p].cls) <= Base(q) || Base(q) + Chunk(h.live[q].cls) <= Base(p))
  }

  /** NO OVERLAP.  Two different chunks the program holds never share a byte, header included. */
  lemma NoOverlap(h: Heap, p: nat, q: nat)
    requires PagesOk(h) && LiveOk(h) && p in h.live && q in h.live && p != q
    ensures Apart(h, p, q)
  {
    hide Count, Chunk, Span, Head;
    assert Placed(h, p) && Placed(h, q);
    var a, b := h.live[p], h.live[q];
    if a.page != b.page { assert Disjoint(a.page, Span(a.cls), b.page, Span(b.cls)); }
    ChunksApart(a.page, a.cls, a.idx, b.page, b.cls, b.idx);
  }

  /** Nor does one share a byte with a block that has a mapping of its own. */
  lemma NoOverlapOther(h: Heap, p: nat, a: nat)
    requires LiveOk(h) && OthersOk(h) && p in h.live && a in h.others
    ensures h.live[p].cls < CLASSES
    ensures Base(p) + Chunk(h.live[p].cls) <= a || a + h.others[a].span <= Base(p)
  {
    hide Count, Chunk, Span;
    assert Placed(h, p);
    var l := h.live[p];
    Inside(l.page, l.cls, l.idx);
    assert Disjoint(a, h.others[a].span, l.page, Span(l.cls));
  }

  // ---------------------------------------------------------------- pigeons

  function UpTo(n: nat): (r: set<nat>)
    ensures |r| == n && forall x: nat :: x in r <==> x < n
  {
    if n == 0 then {} else UpTo(n - 1) + {n - 1}
  }

  /** n different numbers below n are all of them. */
  lemma AllThere(s: seq<nat>, n: nat, x: nat)
    requires NoDup(s) && |s| >= n && (forall i :: i in s ==> i < n) && x < n
    ensures x in s
  {
    if x !in s {
      NoDupSet(s);
      SubsetSize(ToSet(s), UpTo(n) - {x});
    }
  }
}
