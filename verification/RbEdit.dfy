/** Attaching and unlinking a node: the memory before and after, and the balance a removal leaves. */
module RbEdit {
  import opened Ordered
  import opened RbModel
  import opened RbHeap
  import opened RbFix

  // ---------------------------------------------------------------- balance around a focus

  /** A focus in a balanced tree is balanced, and so is its context. */
  lemma {:induction false} UnplugRb(path: Path, t: Tree)
    requires Rb(Plug(path, t)) && IsBlack(Plug(path, t))
    ensures Rb(t) && RbPath(path, BlackHeight(t)) && (IsBlack(t) || path.Step?) && (IsBlack(t) || HeadBlack(path))
    decreases path
  {
    if path.Step? {
      var t1 := Above(path, t);
      UnplugRb(path.up, t1);
      KidsRb(t1, path.d);
    }
  }

  /** A path continued above. */
  function Graft(inner: Path, outer: Path): Path {
    match inner
    case Top => outer
    case Step(d, p, kv, c, sib, up) => Step(d, p, kv, c, sib, Graft(up, outer))
  }

  lemma {:induction false} GraftPlug(inner: Path, outer: Path, t: Tree)
    ensures Plug(Graft(inner, outer), t) == Plug(outer, Plug(inner, t))
    decreases inner
  {
    if inner.Step? {
      GraftPlug(inner.up, outer, Above(inner, t));
    }
  }

  lemma {:induction false} ZoomGraft(mem: Mem, root: Ptr, junk: set<Ptr>, inner: Path, outer: Path, t: Tree)
    ensures Focus(mem, root, junk, Graft(inner, outer), t) <==> Focus(mem, root, junk, outer, Plug(inner, t))
    decreases inner
  {
    hide Focus;
    if inner.Step? {
      ZoomOut(mem, root, junk, Graft(inner, outer), t);
      ZoomGraft(mem, root, junk, inner.up, outer, Above(inner, t));
    }
  }

  /** Entries play no part in the balance of a context. */
  lemma {:induction false} GraftRb(inner: Path, outer: Path, kv: Entry, n: nat)
    requires outer.Step? && RbPath(Graft(inner, outer), n)
    ensures RbPath(Graft(inner, outer.(kv := kv)), n)
    decreases inner
  {
    if inner.Step? {
      GraftRb(inner.up, outer, kv, n + One(inner.color));
    }
  }

  lemma {:induction false} GraftWhole(inner: Path, outer: Path, t: Tree)
    ensures Whole(Graft(inner, outer), t) == Whole(outer, Plug(inner, t))
  {
    GraftPlug(inner, outer, t);
    PlugInorder(Graft(inner, outer), t);
    PlugInorder(outer, Plug(inner, t));
  }

  // ---------------------------------------------------------------- attach

  /** A new red leaf node hangs where the search ended. */
  lemma Attach(mem: Mem, root: Ptr, path: Path, z: Ptr, kv: Entry, m': Mem, root': Ptr)
    requires Focus(mem, root, {}, path, Leaf) && z !in mem
    requires m'.Keys == mem.Keys + {z} && m'[z] == Cell(kv, Red, NIL, NIL, Head(path)) && Keeps(mem, m', {Head(path)})
    requires NIL in mem && m'[NIL] == mem[NIL]
    requires if path.Top? then root' == z
      else root' == root && path.ptr in mem && m'[path.ptr] == SetLink(mem[path.ptr], path.d, z)
    ensures Focus(m', root', {}, path, Node(z, kv, Red, Leaf, Leaf))
  {
    HeadIn(path);
    PathNoNil(mem, root, path, NIL);
    KeepsOn(mem, m', {Head(path)}, PathAddrs(path) - {Head(path)});
    Relink(mem, m', root, root', path, NIL, z);
  }

  lemma AttachRb(path: Path, z: Ptr, kv: Entry)
    requires Rb(Plug(path, Leaf)) && IsBlack(Plug(path, Leaf))
    ensures Raised(path, Node(z, kv, Red, Leaf, Leaf))
    ensures Whole(path, Node(z, kv, Red, Leaf, Leaf)) == Before(path) + [kv] + After(path)
  {
    UnplugRb(path, Leaf);
    assert Inorder(Node(z, kv, Red, Leaf, Leaf)) == [kv];
  }

  // ---------------------------------------------------------------- unlink

  /** The node y, one of whose children is missing, is unlinked; its other child takes its place. */
  lemma Unlink(mem: Mem, root: Ptr, path: Path, t: Tree, d: Dir, m': Mem, root': Ptr)
    requires Focus(mem, root, {}, path, t) && t.Node? && Kid(t, d).Leaf?
    requires var x := Kid(t, Other(d));
      && m'.Keys == mem.Keys && Keeps(mem, m', {Head(path), Root(x)}) && Root(x) in mem && NIL in mem
      && m'[NIL].color == mem[NIL].color
      && m'[Root(x)] == mem[Root(x)].(parent := Head(path))
      && if path.Top? then root' == Root(x)
         else root' == root && path.ptr in mem && m'[path.ptr] == SetLink(mem[path.ptr], path.d, Root(x))
    ensures Focus(m', root', {t.ptr}, path, Kid(t, Other(d)))
  {
    var x := Kid(t, Other(d));
    Pieces(mem, Head(path), t, d);
    NoNil(mem, Head(path), t);
    PathNoNil(mem, root, path, t.ptr);
    HeadIn(path);
    RootIn(x);
    hide Shape, PathShape, Apart, PathApart, Keeps, SameOn;
    KeepsOn(mem, m', {Head(path), Root(x)}, PathAddrs(path) - {Head(path)});
    KeepsOn(mem, m', {Head(path), Root(x)}, Addrs(x) - {Root(x)});
    Reparent(mem, m', t.ptr, Head(path), x);
    Relink(mem, m', root, root', path, t.ptr, Root(x));
    assert Addrs(Leaf) == {};
  }

  /** Another entry in a node above the focus. */
  lemma RewriteAbove(mem: Mem, root: Ptr, junk: set<Ptr>, inner: Path, outer: Path, t: Tree, kv: Entry)
    requires Focus(mem, root, junk, Graft(inner, outer), t) && outer.Step?
    ensures outer.ptr in mem
    ensures Focus(mem[outer.ptr := mem[outer.ptr].(kv := kv)], root, junk, Graft(inner, outer.(kv := kv)), t)
  {
    hide Focus;
    var u, outer1 := Plug(inner, t), outer.(kv := kv);
    ZoomGraft(mem, root, junk, inner, outer, t);
    ZoomOut(mem, root, junk, outer, u);
    FocusCell(mem, root, junk, outer.up, Above(outer, u));
    Rewrite(mem, root, junk, outer.up, Above(outer, u), kv, outer.color);
    var m' := mem[outer.ptr := mem[outer.ptr].(kv := kv)];
    assert m' == mem[outer.ptr := mem[outer.ptr].(kv := kv, color := outer.color)];
    assert Above(outer1, u) == Above(outer, u).(kv := kv, color := outer.color);
    ZoomOut(m', root, junk, outer1, u);
    ZoomGraft(m', root, junk, inner, outer1, t);
  }

  lemma JunkWrite(mem: Mem, root: Ptr, junk: set<Ptr>, path: Path, t: Tree, p: Ptr, c: Cell)
    requires Focus(mem, root, junk, path, t) && p in junk
    ensures Focus(mem[p := c], root, junk, path, t)
  {
    var m' := mem[p := c];
    ShapeFrame(mem, m', Head(path), t);
    PathFrame(mem, m', root, path, Root(t));
  }

  /** An unlinked cell is freed. */
  lemma Freed(mem: Mem, root: Ptr, y: Ptr, t: Tree)
    requires Focus(mem, root, {y}, Top, t)
    ensures Focus(mem - {y}, root, {}, Top, t)
  {
    ShapeFrame(mem, mem - {y}, NIL, t);
  }

  // ---------------------------------------------------------------- what a removal leaves

  /** Unlinking a black node leaves its place one black node short. */
  lemma UnlinkBlack(path: Path, t: Tree, d: Dir)
    requires Rb(Plug(path, t)) && IsBlack(Plug(path, t)) && t.Node? && t.color == Black
    ensures Short(path, Kid(t, Other(d)))
  {
    UnplugRb(path, t);
    KidsRb(t, d);
  }

  /** Unlinking a red node with a missing child leaves a balanced tree. */
  lemma UnlinkRed(path: Path, t: Tree, d: Dir)
    requires Rb(Plug(path, t)) && IsBlack(Plug(path, t)) && t.Node? && t.color == Red && Kid(t, d).Leaf?
    ensures Kid(t, Other(d)).Leaf? && RbPath(path, 0) && path.Step?
  {
    UnplugRb(path, t);
    KidsRb(t, d);
  }

  /** Removing a node that lacks a child. */
  lemma UnlinkWhole(path: Path, t: Tree, d: Dir)
    requires t.Node? && Kid(t, d).Leaf?
    ensures Whole(path, Kid(t, Other(d))) == Before(path) + Inorder(t.l) + (Inorder(t.r) + After(path))
  {
    if d == L {
      assert Inorder(t.l) == [];
    } else {
      assert Inorder(t.r) == [];
    }
  }

  /** Only left turns. */
  predicate AllLeft(path: Path) {
    path.Top? || (path.d == L && AllLeft(path.up))
  }

  lemma {:induction false} LeftBefore(path: Path)
    requires AllLeft(path)
    ensures Before(path) == []
  {
    if path.Step? {
      LeftBefore(path.up);
    }
  }

  /** Removing a node by moving the entry of its successor into it. */
  lemma SuccessorWhole(path: Path, t: Tree, inner: Path, y: Tree)
    requires t.Node? && y.Node? && y.l.Leaf? && AllLeft(inner) && t.r == Plug(inner, y)
    ensures Whole(Graft(inner, Step(R, t.ptr, y.kv, t.color, t.l, path)), y.r)
         == Before(path) + Inorder(t.l) + (Inorder(t.r) + After(path))
  {
    var outer := Step(R, t.ptr, y.kv, t.color, t.l, path);
    GraftWhole(inner, outer, y.r);
    assert Before(outer) == Before(path) + Inorder(t.l) + [y.kv] && After(outer) == After(path);
    hide Plug, Inorder, Before, After;
    LeftmostEntry(inner, y);
    Reassociate(Before(path) + Inorder(t.l), [y.kv], Inorder(Plug(inner, y.r)), After(path));
  }

  /** The leftmost node holds the first entry. */
  lemma LeftmostEntry(inner: Path, y: Tree)
    requires y.Node? && y.l.Leaf? && AllLeft(inner)
    ensures Inorder(Plug(inner, y)) == [y.kv] + Inorder(Plug(inner, y.r))
  {
    PlugInorder(inner, y);
    PlugInorder(inner, y.r);
    LeftBefore(inner);
    assert Inorder(y) == [y.kv] + Inorder(y.r);
    hide Plug, Inorder, Before, After;
    Frontmost(y.kv, Inorder(y.r), After(inner));
  }

  lemma Frontmost(e: Entry, a: seq<Entry>, b: seq<Entry>)
    ensures [] + ([e] + a) + b == [e] + ([] + a + b)
  {
  }

  lemma Reassociate(a: seq<Entry>, b: seq<Entry>, c: seq<Entry>, d: seq<Entry>)
    ensures a + b + c + d == a + (b + c + d)
  {
  }
}
