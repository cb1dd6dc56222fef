/** How `custom_free` tells what kind of block a pointer is: by the bytes in front of it.  A chunk has four
    of its own, the other two kinds twenty-four. */
module SlabHeader {
  import opened Bytes
  import opened SlabModel

  const CHUNK_MAGIC: byte := 0xCC
  const LARGE_MAGIC := 0xC0DEC0DF
  const FALLBACK_MAGIC := 0xC0DEC0E0

  /** A block that was handed out; `before` is what happens to lie in front of a chunk's header, `unset` the
      word that the other headers leave as it was. */
  datatype Block =
    | InPage(cls: byte, req: nat, before: bytes)
    | Mapping(req: nat, span: nat, unset: bytes)
    | Library(req: nat, span: nat, unset: bytes)

  /** The memory in front of the pointer, up to it. */
  function Front(b: Block): bytes {
    match b
    case InPage(cls, req, before) => before + Le(req, 2) + [CHUNK_MAGIC, cls]
    case Mapping(req, span, unset) => Le(LARGE_MAGIC, 4) + unset + Le(req, 8) + Le(span, 8)
    case Library(req, span, unset) => Le(FALLBACK_MAGIC, 4) + unset + Le(req, 8) + Le(span, 8)
  }

  datatype Kind = IsChunk(cls: byte) | IsMapping(req: nat, span: nat) | IsLibrary(req: nat) | IsNone

  predicate LooksLikeChunk(front: bytes)
    requires |front| >= 4
  {
    front[|front| - 2] == CHUNK_MAGIC && front[|front| - 1] < CLASSES
  }

  /** What `custom_free` takes the block for. */
  function Tell(front: bytes): Kind
    requires |front| >= 4
  {
    var n := |front|;
    if LooksLikeChunk(front) then IsChunk(front[n - 1])
    else if n < 24 then IsNone
    else if UnLe(front[n - 24..n - 20]) == LARGE_MAGIC then
      IsMapping(UnLe(front[n - 16..n - 8]), UnLe(front[n - 8..]))
    else if UnLe(front[n - 24..n - 20]) == FALLBACK_MAGIC then IsLibrary(UnLe(front[n - 16..n - 8]))
    else IsNone
  }

  /** Every field holds what it is given. */
  ghost predicate Storable(b: Block) {
    match b
    case InPage(cls, req, _) => cls < CLASSES && req <= SMALL_MAX
    case Mapping(req, span, unset) => req < LONG && span < LONG && |unset| == 4
    case Library(req, span, unset) => req < LONG && span < LONG && |unset| == 4
  }

  lemma {:induction false} LeByte(n: nat, w: nat, i: nat)
    requires i < w
    ensures Le(n, w)[i] == n / Pow256(i) % 256
    decreases w
  {
    if i > 0 {
      LeByte(n / 256, w - 1, i - 1);
      DivTwice(n, Pow256(i - 1));
    }
  }

  lemma DivTwice(n: nat, p: nat)
    requires p > 0
    ensures n / 256 / p == n / (256 * p)
  {
    var q, r := n / 256, n % 256;
    var a, b := q / p, q % p;
    assert n == 256 * (a * p + b) + r == (256 * p) * a + (256 * b + r);
    assert 256 * b + r < 256 * p;
    Quotient(n, 256 * p, a, 256 * b + r);
  }

  lemma Quotient(n: nat, d: nat, a: nat, r: nat)
    requires r < d && n == d * a + r
    ensures n / d == a
  {
    var q := n / d;
    assert q < a ==> d * (q + 1) <= d * a;
    assert a < q ==> d * (a + 1) <= d * q;
  }

  /** The two bytes of a block size that lie where a chunk keeps its mark and its class. */
  lemma TopBytes(span: nat)
    requires span < LONG
    ensures Le(span, 8)[6] == span / 0x1_0000_0000_0000 % 256
    ensures Le(span, 8)[7] == span / 0x100_0000_0000_0000
  {
    hide Le, Pow256;
    LeByte(span, 8, 6);
    LeByte(span, 8, 7);
    SixSeven();
  }

  lemma SixSeven()
    ensures Pow256(6) == 0x1_0000_0000_0000 && Pow256(7) == 0x100_0000_0000_0000
  {
    assert Pow256(2) == 65536;
    assert Pow256(4) == 256 * (256 * Pow256(2));
    assert Pow256(6) == 256 * (256 * Pow256(4));
  }

  /** MISTAKEN FOR A CHUNK.  A block of its own is taken for a chunk exactly when the two top bytes of its size
      are a chunk's mark and class: first at 204 * 2^48 bytes. */
  lemma MistakenExactly(b: Block)
    requires Storable(b) && !b.InPage?
    ensures |Front(b)| == 24
    ensures LooksLikeChunk(Front(b)) <==>
      b.span / 0x1_0000_0000_0000 % 256 == CHUNK_MAGIC && b.span / 0x100_0000_0000_0000 < CLASSES
  {
    hide Le;
    TopBytes(b.span);
  }

  /** THE RIGHT KIND.  Below 2^48 bytes every block is taken for what it is, with its class, its mapping or its
      requested size. */
  lemma TellsRight(b: Block)
    requires Storable(b) && (!b.InPage? ==> b.span < 0x1_0000_0000_0000)
    ensures |Front(b)| >= 4 && Tell(Front(b)) == match b
      case InPage(cls, _, _) => IsChunk(cls)
      case Mapping(req, span, _) => IsMapping(req, span)
      case Library(req, _, _) => IsLibrary(req)
  {
    hide Le, UnLe, Pow256;
    if !b.InPage? {
      MistakenExactly(b);
      Widths();
      Fields(if b.Mapping? then LARGE_MAGIC else FALLBACK_MAGIC, b.unset, b.req, b.span);
    }
  }

  lemma Fields(magic: nat, unset: bytes, req: nat, span: nat)
    requires magic < WORD && |unset| == 4 && req < LONG && span < LONG
    ensures var f := Le(magic, 4) + unset + Le(req, 8) + Le(span, 8);
      |f| == 24 && UnLe(f[0..4]) == magic && UnLe(f[8..16]) == req && UnLe(f[16..]) == span
  {
    hide Le, UnLe, Pow256;
    var f := Le(magic, 4) + unset + Le(req, 8) + Le(span, 8);
    Widths();
    assert f[0..4] == Le(magic, 4) && f[8..16] == Le(req, 8) && f[16..] == Le(span, 8);
    LeBack(magic, 4);
    LeBack(req, 8);
    LeBack(span, 8);
  }
}
