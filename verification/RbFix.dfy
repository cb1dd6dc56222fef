/** The fix-up loops on memory: recolouring and rotating cells through parent and child pointers. */
module RbFix {
  import opened RbModel
  import opened RbHeap

  // ---------------------------------------------------------------- reading cells around the focus

  lemma FocusCell(mem: Mem, root: Ptr, junk: set<Ptr>, path: Path, t: Tree)
    requires Focus(mem, root, junk, path, t)
    ensures NIL in mem
    ensures t.Node? ==>
      t.ptr != NIL && t.ptr in mem && mem[t.ptr] == Cell(t.kv, t.color, Root(t.l), Root(t.r), Head(path))
    ensures Root(t) in mem && (mem[Root(t)].color == Black <==> IsBlack(t))
    ensures path.Top? ==> root == Root(t)
  {
  }

  lemma ParentCell(mem: Mem, root: Ptr, junk: set<Ptr>, path: Path, t: Tree)
    requires Focus(mem, root, junk, path, t)
    ensures Head(path) in mem && (mem[Head(path)].color == Black <==> HeadBlack(path))
    ensures path.Step? ==>
      && path.ptr != NIL && mem[path.ptr] == CellOf(path.kv, path.color, path.d, Root(t), Root(path.sib), Head(path.up))
      && Root(path.sib) in mem && (mem[Root(path.sib)].color == Black <==> IsBlack(path.sib))
      && (t.Node? ==> Root(path.sib) != t.ptr && t.ptr != path.ptr)
      && root != Root(t)
  {
    hide Apart, PathApart;
    if path.Step? {
      FocusCell(mem, root, junk, path, t);
      RootIn(path.sib);
      ZoomOut(mem, root, junk, path, t);
      RootElsewhere(mem, root, junk, path, t);
    }
  }

  /** A node below another one is not the root. */
  lemma RootElsewhere(mem: Mem, root: Ptr, junk: set<Ptr>, path: Path, t: Tree)
    requires Focus(mem, root, junk, path, t) && path.Step?
    ensures root != Root(t)
  {
    TopIn(mem, root, path, Root(t));
    NoNil(mem, Head(path), t);
    PathNoNil(mem, root, path, Root(t));
    RootIn(t);
  }

  lemma {:induction false} TopIn(mem: Mem, root: Ptr, path: Path, hole: Ptr)
    requires PathShape(mem, root, path, hole) && path.Step?
    ensures root in PathAddrs(path)
    decreases path
  {
    if path.up.Step? {
      TopIn(mem, root, path.up, path.ptr);
    }
  }

  // ---------------------------------------------------------------- painting

  function PaintCell(mem: Mem, p: Ptr, c: Color): Mem
    requires p in mem
  {
    mem[p := mem[p].(color := c)]
  }

  lemma PaintFocus(mem: Mem, root: Ptr, junk: set<Ptr>, path: Path, t: Tree, c: Color)
    requires Focus(mem, root, junk, path, t) && t.Node?
    ensures t.ptr in mem && Focus(PaintCell(mem, t.ptr, c), root, junk, path, Paint(t, c))
  {
    FocusCell(mem, root, junk, path, t);
    Rewrite(mem, root, junk, path, t, t.kv, c);
  }

  lemma PaintHead(mem: Mem, root: Ptr, junk: set<Ptr>, path: Path, t: Tree, c: Color)
    requires Focus(mem, root, junk, path, t) && path.Step?
    ensures path.ptr in mem && Focus(PaintCell(mem, path.ptr, c), root, junk, path.(color := c), t)
  {
    hide Focus;
    ZoomOut(mem, root, junk, path, t);
    PaintFocus(mem, root, junk, path.up, Above(path, t), c);
    assert Above(path.(color := c), t) == Paint(Above(path, t), c);
    ZoomOut(PaintCell(mem, path.ptr, c), root, junk, path.(color := c), t);
  }

  lemma PaintSib(mem: Mem, root: Ptr, junk: set<Ptr>, path: Path, t: Tree, c: Color)
    requires Focus(mem, root, junk, path, t) && path.Step? && path.sib.Node?
    ensures path.sib.ptr in mem
    ensures Focus(PaintCell(mem, path.sib.ptr, c), root, junk, path.(sib := Paint(path.sib, c)), t)
  {
    hide Focus;
    Turn(mem, root, junk, path, t);
    var path1 := Turned(path, t);
    PaintFocus(mem, root, junk, path1, path.sib, c);
    Turn(PaintCell(mem, path.sib.ptr, c), root, junk, path.(sib := Paint(path.sib, c)), t);
  }

  /** The same memory seen from the sibling. */
  function Turned(path: Path, t: Tree): Path
    requires path.Step?
  {
    Step(Other(path.d), path.ptr, path.kv, path.color, t, path.up)
  }

  lemma Turn(mem: Mem, root: Ptr, junk: set<Ptr>, path: Path, t: Tree)
    requires path.Step?
    ensures Focus(mem, root, junk, path, t) <==> Focus(mem, root, junk, Turned(path, t), path.sib)
  {
    hide Focus;
    ZoomOut(mem, root, junk, path, t);
    ZoomOut(mem, root, junk, Turned(path, t), path.sib);
    Mirror(path.ptr, path.kv, path.color, path.d, t, path.sib);
  }

  lemma PaintUp(mem: Mem, root: Ptr, junk: set<Ptr>, path: Path, t: Tree, c: Color)
    requires Focus(mem, root, junk, path, t) && path.Step? && path.up.Step?
    ensures path.up.ptr in mem
    ensures Focus(PaintCell(mem, path.up.ptr, c), root, junk, path.(up := path.up.(color := c)), t)
  {
    hide Focus;
    ZoomOut(mem, root, junk, path, t);
    PaintHead(mem, root, junk, path.up, Above(path, t), c);
    var path1 := path.(up := path.up.(color := c));
    assert Above(path1, t) == Above(path, t);
    ZoomOut(PaintCell(mem, path.up.ptr, c), root, junk, path1, t);
  }

  lemma PaintUncle(mem: Mem, root: Ptr, junk: set<Ptr>, path: Path, t: Tree, c: Color)
    requires Focus(mem, root, junk, path, t) && path.Step? && path.up.Step? && path.up.sib.Node?
    ensures path.up.sib.ptr in mem
    ensures Focus(PaintCell(mem, path.up.sib.ptr, c), root, junk,
                  path.(up := path.up.(sib := Paint(path.up.sib, c))), t)
  {
    hide Focus;
    ZoomOut(mem, root, junk, path, t);
    PaintSib(mem, root, junk, path.up, Above(path, t), c);
    var path1 := path.(up := path.up.(sib := Paint(path.up.sib, c)));
    assert Above(path1, t) == Above(path, t);
    ZoomOut(PaintCell(mem, path.up.sib.ptr, c), root, junk, path1, t);
  }
}
