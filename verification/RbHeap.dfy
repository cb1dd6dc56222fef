/** Red-black nodes in memory: cells that point to each other, and the tree they form around a focus. */
module RbHeap {
  import opened Ordered
  import opened RbModel

  datatype Cell = Cell(kv: Entry, color: Color, left: Ptr, right: Ptr, parent: Ptr)

  type Mem = map<Ptr, Cell>

  function Link(c: Cell, d: Dir): Ptr {
    if d == L then c.left else c.right
  }

  function SetLink(c: Cell, d: Dir, p: Ptr): Cell {
    if d == L then c.(left := p) else c.(right := p)
  }

  function Addrs(t: Tree): set<Ptr> {
    if t.Leaf? then {} else Addrs(t.l) + {t.ptr} + Addrs(t.r)
  }

  function PathAddrs(path: Path): set<Ptr> {
    if path.Top? then {} else Addrs(path.sib) + {path.ptr} + PathAddrs(path.up)
  }

  /** No address occurs twice. */
  predicate Apart(t: Tree) {
    t.Leaf? ||
    (Apart(t.l) && Apart(t.r) && t.ptr !in Addrs(t.l) && t.ptr !in Addrs(t.r) && Addrs(t.l) !! Addrs(t.r))
  }

  predicate PathApart(path: Path) {
    path.Top? ||
    (&& Apart(path.sib) && PathApart(path.up) && path.ptr !in Addrs(path.sib) && path.ptr !in PathAddrs(path.up)
     && Addrs(path.sib) !! PathAddrs(path.up))
  }

  function CellOf(kv: Entry, c: Color, d: Dir, near: Ptr, far: Ptr, parent: Ptr): Cell {
    if d == L then Cell(kv, c, near, far, parent) else Cell(kv, c, far, near, parent)
  }

  /** The memory holds the subtree t, hanging below `parent`. */
  predicate Shape(mem: Mem, parent: Ptr, t: Tree)
    decreases t
  {
    t.Leaf? ||
    (&& t.ptr != NIL && t.ptr in mem && mem[t.ptr] == Cell(t.kv, t.color, Root(t.l), Root(t.r), parent)
     && Shape(mem, t.ptr, t.l) && Shape(mem, t.ptr, t.r))
  }

  /** The memory holds the nodes above a subtree whose root is at `hole`. */
  predicate PathShape(mem: Mem, root: Ptr, path: Path, hole: Ptr)
    decreases path
  {
    match path
    case Top => root == hole
    case Step(d, p, kv, c, sib, up) =>
      && p != NIL && p in mem && mem[p] == CellOf(kv, c, d, hole, Root(sib), Head(up))
      && Shape(mem, p, sib) && PathShape(mem, root, up, p)
  }

  /** The memory holds one tree, t at the focus with `path` around it, a black sentinel, and besides
      them only the cells of `junk`. */
  ghost predicate Focus(mem: Mem, root: Ptr, junk: set<Ptr>, path: Path, t: Tree) {
    && Shape(mem, Head(path), t) && PathShape(mem, root, path, Root(t))
    && Apart(t) && PathApart(path) && Addrs(t) !! PathAddrs(path)
    && mem.Keys == Addrs(t) + PathAddrs(path) + {NIL} + junk && junk !! Addrs(t) + PathAddrs(path) + {NIL}
    && mem[NIL].color == Black
  }

  // ---------------------------------------------------------------- frames

  ghost predicate SameOn(m: Mem, m': Mem, s: set<Ptr>) {
    forall p :: p in s ==> p in m && p in m' && m[p] == m'[p]
  }

  lemma {:induction false} ShapeFrame(m: Mem, m': Mem, parent: Ptr, t: Tree)
    requires Shape(m, parent, t) && SameOn(m, m', Addrs(t))
    ensures Shape(m', parent, t)
    decreases t
  {
    if t.Node? {
      ShapeFrame(m, m', t.ptr, t.l);
      ShapeFrame(m, m', t.ptr, t.r);
    }
  }

  lemma {:induction false} PathFrame(m: Mem, m': Mem, root: Ptr, path: Path, hole: Ptr)
    requires PathShape(m, root, path, hole) && SameOn(m, m', PathAddrs(path))
    ensures PathShape(m', root, path, hole)
    decreases path
  {
    if path.Step? {
      ShapeFrame(m, m', path.ptr, path.sib);
      PathFrame(m, m', root, path.up, path.ptr);
    }
  }

  lemma {:induction false} NoNil(m: Mem, parent: Ptr, t: Tree)
    requires Shape(m, parent, t)
    ensures NIL !in Addrs(t)
    decreases t
  {
    if t.Node? {
      NoNil(m, t.ptr, t.l);
      NoNil(m, t.ptr, t.r);
    }
  }

  lemma {:induction false} PathNoNil(m: Mem, root: Ptr, path: Path, hole: Ptr)
    requires PathShape(m, root, path, hole)
    ensures NIL !in PathAddrs(path)
    decreases path
  {
    if path.Step? {
      NoNil(m, path.ptr, path.sib);
      PathNoNil(m, root, path.up, path.ptr);
    }
  }

  lemma RootIn(t: Tree)
    ensures t.Node? ==> Root(t) in Addrs(t)
  {
  }

  /** Another parent for a subtree: only its root cell changes. */
  lemma Reparent(m: Mem, m': Mem, old': Ptr, new': Ptr, t: Tree)
    requires Shape(m, old', t) && Apart(t)
    requires t.Node? ==> SameOn(m, m', Addrs(t) - {t.ptr}) && t.ptr in m' && m'[t.ptr] == m[t.ptr].(parent := new')
    ensures Shape(m', new', t)
  {
    if t.Node? {
      ShapeFrame(m, m', t.ptr, t.l);
      ShapeFrame(m, m', t.ptr, t.r);
    }
  }

  /** Another child below the path: only its lowest cell, or the root pointer, changes. */
  lemma Relink(m: Mem, m': Mem, root: Ptr, root': Ptr, path: Path, hole: Ptr, hole': Ptr)
    requires PathShape(m, root, path, hole) && PathApart(path)
    requires if path.Top? then root' == hole'
      else root' == root && SameOn(m, m', PathAddrs(path) - {path.ptr}) && path.ptr in m' &&
           m'[path.ptr] == SetLink(m[path.ptr], path.d, hole')
    ensures PathShape(m', root', path, hole')
  {
    if path.Step? {
      ShapeFrame(m, m', path.ptr, path.sib);
      PathFrame(m, m', root, path.up, path.ptr);
    }
  }

  /** Nothing outside w is written. */
  ghost predicate Keeps(m: Mem, m': Mem, w: set<Ptr>) {
    forall p :: p in m && p !in w ==> p in m' && m'[p] == m[p]
  }

  lemma KeepsOn(m: Mem, m': Mem, w: set<Ptr>, s: set<Ptr>)
    requires Keeps(m, m', w) && s <= m.Keys && s !! w
    ensures SameOn(m, m', s)
  {
  }

  // ---------------------------------------------------------------- moving the focus

  function Above(path: Path, t: Tree): Tree
    requires path.Step?
  {
    Make(path.ptr, path.kv, path.color, path.d, t, path.sib)
  }

  lemma ZoomOut(mem: Mem, root: Ptr, junk: set<Ptr>, path: Path, t: Tree)
    requires path.Step?
    ensures Focus(mem, root, junk, path, t) <==> Focus(mem, root, junk, path.up, Above(path, t))
  {
  }

  /** The subtree at the focus, seen from its `d` child. */
  function Below(path: Path, t: Tree, d: Dir): Path
    requires t.Node?
  {
    Step(d, t.ptr, t.kv, t.color, Kid(t, Other(d)), path)
  }

  lemma ZoomIn(mem: Mem, root: Ptr, junk: set<Ptr>, path: Path, t: Tree, d: Dir)
    requires t.Node?
    ensures Focus(mem, root, junk, path, t) <==> Focus(mem, root, junk, Below(path, t, d), Kid(t, d))
    ensures Above(Below(path, t, d), Kid(t, d)) == t
  {
    MadeOf(t, d);
    ZoomOut(mem, root, junk, Below(path, t, d), Kid(t, d));
  }

  lemma {:induction false} ZoomTop(mem: Mem, root: Ptr, junk: set<Ptr>, path: Path, t: Tree)
    ensures Focus(mem, root, junk, path, t) <==> Focus(mem, root, junk, Top, Plug(path, t))
    decreases path
  {
    hide Focus;
    if path.Step? {
      ZoomOut(mem, root, junk, path, t);
      ZoomTop(mem, root, junk, path.up, Above(path, t));
    }
  }

  // ---------------------------------------------------------------- writes

  /** The root cell of the focus is rewritten, its links kept. */
  lemma Rewrite(mem: Mem, root: Ptr, junk: set<Ptr>, path: Path, t: Tree, kv: Entry, c: Color)
    requires Focus(mem, root, junk, path, t) && t.Node?
    ensures Focus(mem[t.ptr := mem[t.ptr].(kv := kv, color := c)], root, junk, path, t.(kv := kv, color := c))
  {
    var m' := mem[t.ptr := mem[t.ptr].(kv := kv, color := c)];
    NoNil(mem, Head(path), t);
    ShapeFrame(mem, m', t.ptr, t.l);
    ShapeFrame(mem, m', t.ptr, t.r);
    PathFrame(mem, m', root, path, t.ptr);
  }

  function Rotated(t: Tree, d: Dir): Tree
    requires t.Node? && Kid(t, Other(d)).Node?
  {
    var y := Kid(t, Other(d));
    Make(y.ptr, y.kv, y.color, d, Make(t.ptr, t.kv, t.color, d, Kid(t, d), Kid(y, d)), Kid(y, Other(d)))
  }

  /** What is known about the pieces of a node and its child. */
  lemma RotateParts(mem: Mem, root: Ptr, junk: set<Ptr>, path: Path, t: Tree, d: Dir)
    requires t.Node? && Kid(t, Other(d)).Node? && Focus(mem, root, junk, path, t)
    ensures var y := Kid(t, Other(d));
      var a, b, c := Kid(t, d), Kid(y, d), Kid(y, Other(d));
      && Shape(mem, t.ptr, a) && Shape(mem, y.ptr, b) && Shape(mem, y.ptr, c)
      && Apart(a) && Apart(b) && Apart(c)
      && t.ptr != y.ptr && t.ptr !in Addrs(a) + Addrs(b) + Addrs(c) && y.ptr !in Addrs(a) + Addrs(b) + Addrs(c)
      && Addrs(a) !! Addrs(b) && Addrs(a) !! Addrs(c) && Addrs(b) !! Addrs(c)
      && Addrs(t) == Addrs(a) + Addrs(b) + Addrs(c) + {t.ptr, y.ptr}
      && mem[t.ptr] == CellOf(t.kv, t.color, d, Root(a), y.ptr, Head(path))
      && mem[y.ptr] == CellOf(y.kv, y.color, d, Root(b), Root(c), t.ptr)
  {
    var y := Kid(t, Other(d));
    Pieces(mem, Head(path), t, d);
    Pieces(mem, t.ptr, y, d);
  }

  lemma Pieces(mem: Mem, parent: Ptr, t: Tree, d: Dir)
    requires t.Node? && Shape(mem, parent, t) && Apart(t)
    ensures var a, b := Kid(t, d), Kid(t, Other(d));
      && Addrs(t) == Addrs(a) + {t.ptr} + Addrs(b) && t.ptr !in Addrs(a) + Addrs(b) && Addrs(a) !! Addrs(b)
      && Shape(mem, t.ptr, a) && Shape(mem, t.ptr, b) && Apart(a) && Apart(b)
      && t.ptr in mem && mem[t.ptr] == CellOf(t.kv, t.color, d, Root(a), Root(b), parent)
  {
  }

  /** The cells a rotation of the focus towards `d` writes. */
  ghost predicate RotateWrites(mem: Mem, root: Ptr, junk: set<Ptr>, path: Path, t: Tree, d: Dir, m': Mem, root': Ptr)
    requires t.Node? && Kid(t, Other(d)).Node? && Focus(mem, root, junk, path, t)
  {
    var y := Kid(t, Other(d));
    var b := Kid(y, d);
    RotateParts(mem, root, junk, path, t, d);
    RootIn(b);
    && m'.Keys == mem.Keys
    && m'[t.ptr] == SetLink(mem[t.ptr], Other(d), Root(b)).(parent := y.ptr)
    && m'[y.ptr] == SetLink(mem[y.ptr].(parent := Head(path)), d, t.ptr)
    && (b.Node? ==> m'[b.ptr] == mem[b.ptr].(parent := t.ptr))
    && (path.Step? ==> m'[path.ptr] == SetLink(mem[path.ptr], path.d, y.ptr) && root' == root)
    && (path.Top? ==> root' == y.ptr)
    && m'[NIL] == mem[NIL] && Keeps(mem, m', {t.ptr, y.ptr, Root(b), Head(path)})
  }

  /** What a rotation does not write. */
  lemma RotateKeeps(mem: Mem, root: Ptr, junk: set<Ptr>, path: Path, t: Tree, d: Dir, m': Mem, root': Ptr)
    requires t.Node? && Kid(t, Other(d)).Node? && Focus(mem, root, junk, path, t)
    requires RotateWrites(mem, root, junk, path, t, d, m', root')
    ensures var y := Kid(t, Other(d));
      && SameOn(mem, m', Addrs(Kid(t, d))) && SameOn(mem, m', Addrs(Kid(y, Other(d))))
      && SameOn(mem, m', Addrs(Kid(y, d)) - {Root(Kid(y, d))})
      && SameOn(mem, m', PathAddrs(path) - {Head(path)})
  {
    var y := Kid(t, Other(d));
    var a, b, c := Kid(t, d), Kid(y, d), Kid(y, Other(d));
    var w := {t.ptr, y.ptr, Root(b), Head(path)};
    RotateParts(mem, root, junk, path, t, d);
    NoNil(mem, Head(path), t);
    PathNoNil(mem, root, path, t.ptr);
    HeadIn(path);
    RootIn(b);
    hide Shape, Apart, PathShape, PathApart, Addrs, PathAddrs, SameOn, Keeps;
    KeepsOn(mem, m', w, Addrs(a));
    KeepsOn(mem, m', w, Addrs(c));
    KeepsOn(mem, m', w, Addrs(b) - {Root(b)});
    KeepsOn(mem, m', w, PathAddrs(path) - {Head(path)});
  }

  lemma HeadIn(path: Path)
    ensures path.Step? ==> path.ptr in PathAddrs(path)
  {
  }

  lemma RotatedApart(t: Tree, d: Dir)
    requires t.Node? && Kid(t, Other(d)).Node? && Apart(t)
    ensures Apart(Rotated(t, d)) && Addrs(Rotated(t, d)) == Addrs(t)
  {
    var y := Kid(t, Other(d));
    var a, b, c := Kid(t, d), Kid(y, d), Kid(y, Other(d));
    MadeOf(t, d);
    MadeOf(y, d);
    MakeApart(t.ptr, t.kv, t.color, d, a, y);
    MakeApart(y.ptr, y.kv, y.color, d, b, c);
    var x := Make(t.ptr, t.kv, t.color, d, a, b);
    MakeApart(t.ptr, t.kv, t.color, d, a, b);
    MakeApart(y.ptr, y.kv, y.color, d, x, c);
    hide Apart, Addrs;
    assert Addrs(Rotated(t, d)) == Addrs(a) + {t.ptr} + Addrs(b) + {y.ptr} + Addrs(c);
  }

  lemma MakeApart(p: Ptr, kv: Entry, c: Color, d: Dir, near: Tree, far: Tree)
    ensures Addrs(Make(p, kv, c, d, near, far)) == Addrs(near) + {p} + Addrs(far)
    ensures Apart(Make(p, kv, c, d, near, far)) <==>
      Apart(near) && Apart(far) && p !in Addrs(near) && p !in Addrs(far) && Addrs(near) !! Addrs(far)
  {
  }

  lemma RotatedShape(mem: Mem, root: Ptr, junk: set<Ptr>, path: Path, t: Tree, d: Dir, m': Mem, root': Ptr)
    requires t.Node? && Kid(t, Other(d)).Node? && Focus(mem, root, junk, path, t)
    requires RotateWrites(mem, root, junk, path, t, d, m', root')
    ensures Shape(m', Head(path), Rotated(t, d)) && PathShape(m', root', path, Root(Rotated(t, d)))
  {
    var y := Kid(t, Other(d));
    var a, b, c := Kid(t, d), Kid(y, d), Kid(y, Other(d));
    RotateParts(mem, root, junk, path, t, d);
    RotateKeeps(mem, root, junk, path, t, d, m', root');
    HeadIn(path);
    PathCell(mem, root, path, t.ptr);
    NotNil(mem, Head(path), t);
    NotNil(mem, t.ptr, y);
    hide SameOn, Shape, Apart, PathShape, PathApart, Addrs, PathAddrs, Keeps;
    RootIn(b);
    ShapeFrame(mem, m', t.ptr, a);
    ShapeFrame(mem, m', y.ptr, c);
    Reparent(mem, m', y.ptr, t.ptr, b);
    Relink(mem, m', root, root', path, t.ptr, y.ptr);
    MakeShape(m', y.ptr, t.ptr, t.kv, t.color, d, a, b);
    MakeShape(m', Head(path), y.ptr, y.kv, y.color, d, Make(t.ptr, t.kv, t.color, d, a, b), c);
  }

  lemma NotNil(mem: Mem, parent: Ptr, t: Tree)
    requires Shape(mem, parent, t) && t.Node?
    ensures t.ptr != NIL
  {
  }

  lemma PathCell(mem: Mem, root: Ptr, path: Path, hole: Ptr)
    requires PathShape(mem, root, path, hole)
    ensures path.Step? ==> path.ptr in mem
  {
  }

  lemma RotateFocus(mem: Mem, root: Ptr, junk: set<Ptr>, path: Path, t: Tree, d: Dir, m': Mem, root': Ptr)
    requires t.Node? && Kid(t, Other(d)).Node? && Focus(mem, root, junk, path, t)
    requires RotateWrites(mem, root, junk, path, t, d, m', root')
    ensures Focus(m', root', junk, path, Rotated(t, d)) && m'[NIL] == mem[NIL]
  {
    hide SameOn, Shape, Apart, PathShape, PathApart, Addrs, PathAddrs, Keeps, Rotated;
    RotatedApart(t, d);
    RotatedShape(mem, root, junk, path, t, d, m', root');
  }

  lemma MakeShape(mem: Mem, parent: Ptr, p: Ptr, kv: Entry, c: Color, d: Dir, near: Tree, far: Tree)
    requires p != NIL && p in mem && mem[p] == CellOf(kv, c, d, Root(near), Root(far), parent)
    requires Shape(mem, p, near) && Shape(mem, p, far)
    ensures Shape(mem, parent, Make(p, kv, c, d, near, far))
  {
  }
}
