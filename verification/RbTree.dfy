/** The red-black engine: an object with the node memory and the root pointer, changed in place. */
module RbTree {
  import opened Bytes
  import opened Ordered
  import opened RbModel
  import opened RbHeap
  import opened RbFix
  import opened RbEdit

  class Tree {
    var mem: Mem
    var root: Ptr
    /** Keys whose node has no value: the pointer is NULL. */
    var blank: set<bytes>
    /** Cells that have been unlinked and not yet freed. */
    ghost var junk: set<Ptr>
    ghost var tree: RbModel.Tree

    /** Memory and root pointer form one balanced search tree with nothing else allocated. */
    ghost predicate Valid()
      reads this
    {
      && junk == {} && Focus(mem, root, {}, Top, tree)
      && Rb(tree) && IsBlack(tree) && Sorted(Inorder(tree))
    }

    /** The nodes of the tree. */
    ghost function View(): map<bytes, bytes>
      reads this
    {
      ToMap(Inorder(tree))
    }

    /** What can be read from it. */
    ghost function Contents(): map<bytes, bytes>
      reads this
    {
      View() - blank
    }

    /** `kvs_rbtree_create`. */
    constructor ()
      ensures Valid() && View() == map[]
    {
      blank := {};
      mem, root := map[NIL := Cell(Entry([], []), Black, NIL, NIL, NIL)], NIL;
      junk, tree := {}, Leaf;
    }

    /** Makes y the child of `up` in the place of x, or the root; the side tested first is d. */
    method ReplaceChild(up: Ptr, x: Ptr, y: Ptr, d: Dir)
      requires up != NIL ==> up in mem
      modifies this`mem, this`root
      ensures up == NIL ==> root == y && mem == old(mem)
      ensures up != NIL ==> root == old(root)
      ensures up != NIL ==>
        mem == old(mem)[up := SetLink(old(mem[up]), if x == Link(old(mem[up]), d) then d else Other(d), y)]
    {
      if up == NIL {
        root := y;
      } else if x == Link(mem[up], d) {
        mem := mem[up := SetLink(mem[up], d, y)];
      } else {
        mem := mem[up := SetLink(mem[up], Other(d), y)];
      }
    }

    /** `rbtree_left_rotate` (d = L) and `rbtree_right_rotate` (d = R): the writes. */
    method Rewire(x: Ptr, d: Dir)
      requires x in mem && x != NIL
      requires var y := Link(mem[x], Other(d));
        var up := mem[x].parent;
        && y in mem && y != x && y != NIL && up != x && up != y && (up != NIL ==> up in mem)
        && var b := Link(mem[y], d);
        b != x && b != y && (b != NIL ==> b in mem && b != up)
      modifies this`mem, this`root
      ensures var y, up := Link(old(mem[x]), Other(d)), old(mem[x].parent);
        var b := Link(old(mem)[y], d);
        && mem == RotateMem(old(mem), x, y, b, up,
                            if up == NIL || x == Link(old(mem)[up], d) then d else Other(d), d)
        && root == if up == NIL then y else old(root)
    {
      ghost var mem0 := mem;
      var y := Link(mem[x], Other(d));
      var b := Link(mem[y], d);
      mem := mem[x := SetLink(mem[x], Other(d), b)];
      if b != NIL { mem := mem[b := mem[b].(parent := x)]; }
      var up := mem[x].parent;
      mem := mem[y := mem[y].(parent := up)];
      assert up != NIL ==> mem[up] == mem0[up];
      ReplaceChild(up, x, y, d);
      mem := mem[y := SetLink(mem[y], d, x)];
      mem := mem[x := mem[x].(parent := y)];
    }

    method Rotate(x: Ptr, d: Dir, ghost path: Path, ghost t: RbModel.Tree)
      requires Focus(mem, root, junk, path, t) && t.Node? && t.ptr == x && Kid(t, Other(d)).Node?
      modifies this`mem, this`root
      ensures mem.Keys == old(mem.Keys)
      ensures Focus(mem, root, junk, path, Rotated(t, d)) && NIL in mem && mem[NIL] == old(mem[NIL])
    {
      ghost var mem0, root0 := mem, root;
      RotateReads(mem, root, junk, path, t, d);
      hide Focus, RotateWrites, SetLink, Rotated, Keeps, RotateMem;
      ghost var y := Kid(t, Other(d));
      RotateCells(mem, x, y.ptr, Root(Kid(y, d)), Head(path), if path.Step? then path.d else d, d);
      Rewire(x, d);
      RotateDone(mem0, root0, junk, path, t, d, mem, root);
      RotateFocus(mem0, root0, junk, path, t, d, mem, root);
    }

    method SetColor(p: Ptr, c: Color)
      requires p in mem
      modifies this`mem
      ensures mem.Keys == old(mem.Keys)
      ensures mem == PaintCell(old(mem), p, c)
    {
      mem := mem[p := mem[p].(color := c)];
    }

    /** Parent and uncle are red: both turn black, the grandparent red. */
    method RecolorFamily(p: Ptr, g: Ptr, u: Ptr, ghost path: Path, ghost t: RbModel.Tree)
      requires Focus(mem, root, junk, path, t) && Raised(path, t) && !HeadBlack(path) && !IsBlack(path.up.sib)
      requires p == path.ptr && g == path.up.ptr && u == path.up.sib.ptr
      modifies this`mem
      ensures mem.Keys == old(mem.Keys)
      ensures var t1 := Make(path.up.ptr, path.up.kv, Red, path.up.d,
                             Make(path.ptr, path.kv, Black, path.d, t, path.sib), Paint(path.up.sib, Black));
        Focus(mem, root, junk, path.up.up, t1) && Raised(path.up.up, t1) && Whole(path.up.up, t1) == Whole(path, t)
    {
      RecolorUp(path, t);
      hide Focus, Raised, Whole;
      PaintHead(mem, root, junk, path, t, Black);
      SetColor(p, Black);
      ghost var path1 := path.(color := Black);
      PaintUncle(mem, root, junk, path1, t, Black);
      SetColor(u, Black);
      ghost var path2 := path1.(up := path.up.(sib := Paint(path.up.sib, Black)));
      PaintUp(mem, root, junk, path2, t, Red);
      SetColor(g, Red);
      ghost var path3 := path2.(up := path2.up.(color := Red));
      ZoomOut(mem, root, junk, path3, t);
      ZoomOut(mem, root, junk, path3.up, Above(path3, t));
    }

    /** The inner grandchild's parent is rotated towards the outside. */
    method Straighten(p: Ptr, d: Dir, ghost path: Path, ghost t: RbModel.Tree)
      requires Focus(mem, root, junk, path, t) && Raised(path, t) && !HeadBlack(path)
      requires path.up.Step? && path.up.d == d && path.d == Other(d) && p == path.ptr
      modifies this`mem, this`root
      ensures mem.Keys == old(mem.Keys)
      ensures var t1 := Make(path.ptr, path.kv, Red, d, path.sib, Kid(t, d));
        var path1 := Step(d, t.ptr, t.kv, Red, Kid(t, Other(d)), path.up);
        Focus(mem, root, junk, path1, t1) && Raised(path1, t1) && Whole(path1, t1) == Whole(path, t)
    {
      StraightenUp(path, t);
      hide Focus, Raised, Whole;
      ZoomOut(mem, root, junk, path, t);
      Rotate(p, d, path.up, Above(path, t));
      ghost var path1 := Step(d, t.ptr, t.kv, Red, Kid(t, Other(d)), path.up);
      ZoomOut(mem, root, junk, path1, Make(path.ptr, path.kv, Red, d, path.sib, Kid(t, d)));
    }

    /** Black uncle, outer grandchild: the grandparent is rotated down. */
    method RotateDown(p: Ptr, g: Ptr, d: Dir, ghost path: Path, ghost t: RbModel.Tree)
      requires Focus(mem, root, junk, path, t) && Raised(path, t) && !HeadBlack(path)
      requires path.up.Step? && path.up.d == d && path.d == d && IsBlack(path.up.sib)
      requires p == path.ptr && g == path.up.ptr
      modifies this`mem, this`root
      ensures mem.Keys == old(mem.Keys)
      ensures var path1 := Step(d, path.ptr, path.kv, Black,
                                Make(path.up.ptr, path.up.kv, Red, d, path.sib, path.up.sib), path.up.up);
        Focus(mem, root, junk, path1, t) && Raised(path1, t) && Whole(path1, t) == Whole(path, t)
    {
      RotateUp(path, t);
      hide Focus, Raised, Whole;
      PaintHead(mem, root, junk, path, t, Black);
      SetColor(p, Black);
      ghost var path1 := path.(color := Black);
      PaintUp(mem, root, junk, path1, t, Red);
      SetColor(g, Red);
      ghost var path2 := path1.(up := path.up.(color := Red));
      ghost var p2 := Above(path2, t);
      ghost var g2 := Above(path2.up, p2);
      ZoomOut(mem, root, junk, path2, t);
      ZoomOut(mem, root, junk, path2.up, p2);
      Rotate(g, Other(d), path.up.up, g2);
      ghost var path3 := Step(d, path.ptr, path.kv, Black,
                              Make(path.up.ptr, path.up.kv, Red, d, path.sib, path.up.sib), path.up.up);
      assert Rotated(g2, Other(d)) == Above(path3, t);
      ZoomOut(mem, root, junk, path3, t);
    }

    /** `rbtree_insert_fixup`. */
    method InsertFixup(z0: Ptr, ghost path0: Path, ghost t0: RbModel.Tree) returns (ghost tree: RbModel.Tree)
      requires Focus(mem, root, junk, path0, t0) && Raised(path0, t0) && t0.ptr == z0
      modifies this`mem, this`root
      ensures mem.Keys == old(mem.Keys)
      ensures Focus(mem, root, junk, Top, tree) && Rb(tree) && IsBlack(tree) && Inorder(tree) == Whole(path0, t0)
    {
      hide Focus, Raised, Whole, Rb, Inorder;
      var z := z0;
      ghost var path, t := path0, t0;
      RaisedFacts(mem, root, junk, path, t);
      while mem[mem[z].parent].color == Red
        invariant mem.Keys == old(mem.Keys)
        invariant Focus(mem, root, junk, path, t) && Raised(path, t) && Whole(path, t) == Whole(path0, t0)
        invariant t.Node? && z == t.ptr && z in mem && mem[z].parent == Head(path) && Head(path) in mem
        invariant mem[Head(path)].color == Black <==> HeadBlack(path)
        decreases if HeadBlack(path) then 0 else Depth(path)
      {
        FamilyCells(mem, root, junk, path, t);
        assert Depth(path) == 2 + Depth(path.up.up);
        var p := mem[z].parent;
        var g := mem[p].parent;
        var d := if p == mem[g].left then L else R;
        var u := Link(mem[g], Other(d));
        if mem[u].color == Red {
          RecolorFamily(p, g, u, path, t);
          t := Make(path.up.ptr, path.up.kv, Red, path.up.d,
                    Make(path.ptr, path.kv, Black, path.d, t, path.sib), Paint(path.up.sib, Black));
          path := path.up.up;
          z := g;
        } else {
          if z == Link(mem[p], Other(d)) {
            z := p;
            Straighten(z, d, path, t);
            path, t := Step(d, t.ptr, t.kv, Red, Kid(t, Other(d)), path.up),
                       Make(path.ptr, path.kv, Red, d, path.sib, Kid(t, d));
            FamilyCells(mem, root, junk, path, t);
          }
          RotateDown(mem[z].parent, mem[mem[z].parent].parent, d, path, t);
          path := Step(d, path.ptr, path.kv, Black,
                       Make(path.up.ptr, path.up.kv, Red, d, path.sib, path.up.sib), path.up.up);
        }
        RaisedFacts(mem, root, junk, path, t);
      }
      RaisedEnds(path, t);
      tree := Plug(path, t);
      ZoomTop(mem, root, junk, path, t);
      FocusCell(mem, root, junk, Top, tree);
      PaintFocus(mem, root, junk, Top, tree, Black);
      SetColor(root, Black);
      tree := Paint(tree, Black);
    }

    // ---------------------------------------------------------------- delete

    /** The sibling is red: it turns black and is rotated above the parent. */
    method LiftSibling(p: Ptr, w: Ptr, d: Dir, ghost path: Path, ghost t: RbModel.Tree)
      requires Focus(mem, root, junk, path, t) && Short(path, t) && path.Step? && !IsBlack(path.sib)
      requires p == path.ptr && w == path.sib.ptr && d == path.d
      modifies this`mem, this`root
      ensures mem.Keys == old(mem.Keys)
      ensures NIL in mem && mem[NIL] == old(mem[NIL])
      ensures var path1 := Step(d, path.ptr, path.kv, Red, Kid(path.sib, d),
                                Step(d, path.sib.ptr, path.sib.kv, Black, Kid(path.sib, Other(d)), path.up));
        && Focus(mem, root, junk, path1, t) && Short(path1, t) && IsBlack(path1.sib) && path1.sib.Node?
        && Whole(path1, t) == Whole(path, t)
    {
      RedSibling(path, t);
      SibCells(mem, root, junk, path, t);
      hide Focus, Short, Whole;
      PaintSib(mem, root, junk, path, t, Black);
      SetColor(w, Black);
      ghost var path1 := path.(sib := Paint(path.sib, Black));
      PaintHead(mem, root, junk, path1, t, Red);
      SetColor(p, Red);
      ghost var path2 := path1.(color := Red);
      ZoomOut(mem, root, junk, path2, t);
      Rotate(p, d, path.up, Above(path2, t));
      ghost var outer := Step(d, path.sib.ptr, path.sib.kv, Black, Kid(path.sib, Other(d)), path.up);
      ghost var path3 := Step(d, path.ptr, path.kv, Red, Kid(path.sib, d), outer);
      ZoomOut(mem, root, junk, outer, Above(path3, t));
      ZoomOut(mem, root, junk, path3, t);
    }

    /** Sibling and nephews are black: the sibling turns red. */
    method FadeSibling(w: Ptr, ghost path: Path, ghost t: RbModel.Tree)
      requires Focus(mem, root, junk, path, t) && Short(path, t) && IsBlack(t) && path.Step?
      requires path.sib.Node? && path.sib.color == Black && IsBlack(path.sib.l) && IsBlack(path.sib.r)
      requires w == path.sib.ptr && Root(t) in mem
      modifies this`mem
      ensures mem.Keys == old(mem.Keys)
      ensures Root(t) in mem && mem[Root(t)] == old(mem[Root(t)])
      ensures var t1 := Make(path.ptr, path.kv, path.color, path.d, t, Paint(path.sib, Red));
        Focus(mem, root, junk, path.up, t1) && Short(path.up, t1) && Whole(path.up, t1) == Whole(path, t)
    {
      BlackNephews(path, t);
      SibCells(mem, root, junk, path, t);
      hide Focus, Short, Whole;
      PaintSib(mem, root, junk, path, t, Red);
      SetColor(w, Red);
      ZoomOut(mem, root, junk, path.(sib := Paint(path.sib, Red)), t);
    }

    /** Only the near nephew is red: it is rotated above the sibling. */
    method TurnNephew(w: Ptr, n: Ptr, d: Dir, ghost path: Path, ghost t: RbModel.Tree)
      requires Focus(mem, root, junk, path, t) && Short(path, t)
      requires path.Step? && path.sib.Node? && path.sib.color == Black
      requires IsBlack(Kid(path.sib, Other(path.d))) && !IsBlack(Kid(path.sib, path.d))
      requires w == path.sib.ptr && n == Kid(path.sib, path.d).ptr && d == path.d
      modifies this`mem, this`root
      ensures mem.Keys == old(mem.Keys)
      ensures NIL in mem && mem[NIL] == old(mem[NIL])
      ensures Focus(mem, root, junk, path.(sib := NephewUp(path.sib, d)), t)
      ensures Short(path.(sib := NephewUp(path.sib, d)), t)
      ensures Whole(path.(sib := NephewUp(path.sib, d)), t) == Whole(path, t)
    {
      NearNephew(path, t);
      SibCells(mem, root, junk, path, t);
      ghost var w0 := path.sib;
      ghost var n0 := Kid(w0, d);
      var e := Other(d);
      hide Focus, Short, Whole;
      Turn(mem, root, junk, path, t);
      ghost var side := Turned(path, t);
      ZoomIn(mem, root, junk, side, w0, d);
      PaintFocus(mem, root, junk, Below(side, w0, d), n0, Black);
      SetColor(n, Black);
      ghost var w1 := Make(w0.ptr, w0.kv, w0.color, d, Paint(n0, Black), Kid(w0, e));
      ZoomIn(mem, root, junk, side, w1, d);
      PaintFocus(mem, root, junk, side, w1, Red);
      SetColor(w, Red);
      ghost var w2 := Paint(w1, Red);
      Rotate(w, e, side, w2);
      assert Rotated(w2, e) == NephewUp(w0, d);
      Turn(mem, root, junk, path.(sib := NephewUp(w0, d)), t);
    }

    /** The colours for the last rotation: sibling as parent, parent and far nephew black. */
    method PaintFamily(p: Ptr, w: Ptr, f: Ptr, ghost path: Path, ghost t: RbModel.Tree)
      requires Focus(mem, root, junk, path, t) && path.Step? && path.sib.Node? && Kid(path.sib, Other(path.d)).Node?
      requires p == path.ptr && w == path.sib.ptr && f == Kid(path.sib, Other(path.d)).ptr
      modifies this`mem
      ensures mem.Keys == old(mem.Keys)
      ensures NIL in mem && mem[NIL] == old(mem[NIL])
      ensures Focus(mem, root, junk, Repainted(path), t)
    {
      SibCells(mem, root, junk, path, t);
      ghost var w0, e := path.sib, Other(path.d);
      hide Focus;
      var c := mem[p].color;
      PaintSib(mem, root, junk, path, t, c);
      SetColor(w, c);
      ghost var w1 := Paint(w0, c);
      ghost var path1 := path.(sib := w1);
      PaintHead(mem, root, junk, path1, t, Black);
      SetColor(p, Black);
      ghost var path2 := path1.(color := Black);
      Turn(mem, root, junk, path2, t);
      ghost var side := Turned(path2, t);
      ZoomIn(mem, root, junk, side, w1, e);
      PaintFocus(mem, root, junk, Below(side, w1, e), Kid(w0, e), Black);
      SetColor(f, Black);
      ghost var w2 := Make(w0.ptr, w0.kv, c, e, Paint(Kid(w0, e), Black), Kid(w0, path.d));
      ZoomIn(mem, root, junk, side, w2, e);
      Turn(mem, root, junk, path2.(sib := w2), t);
    }

    /** The far nephew is red: the parent is rotated down and the tree is balanced. */
    method Settle(p: Ptr, w: Ptr, f: Ptr, d: Dir, ghost path: Path, ghost t: RbModel.Tree)
      returns (ghost tree: RbModel.Tree)
      requires Focus(mem, root, junk, path, t) && Short(path, t) && IsBlack(t) && path.Step?
      requires path.sib.Node? && path.sib.color == Black && !IsBlack(Kid(path.sib, Other(path.d)))
      requires p == path.ptr && w == path.sib.ptr && f == Kid(path.sib, Other(path.d)).ptr && d == path.d
      modifies this`mem, this`root
      ensures mem.Keys == old(mem.Keys)
      ensures NIL in mem && mem[NIL] == old(mem[NIL])
      ensures Focus(mem, root, junk, Top, tree) && Rb(tree) && tree.Node? && tree.color == Black
      ensures Inorder(tree) == Whole(path, t)
    {
      FarNephew(path, t);
      hide Focus, Short, Whole, Rb, Inorder;
      PaintFamily(p, w, f, path, t);
      ghost var path1, w0 := Repainted(path), path.sib;
      ZoomOut(mem, root, junk, path1, t);
      Rotate(p, d, path.up, Above(path1, t));
      ghost var t1 := Make(w0.ptr, w0.kv, path.color, d,
                           Make(path.ptr, path.kv, Black, d, t, Kid(w0, d)), Paint(Kid(w0, Other(d)), Black));
      assert Rotated(Above(path1, t), d) == t1;
      ZoomTop(mem, root, junk, path.up, t1);
      tree := Plug(path.up, t1);
      PlugNode(path.up, t1);
    }

    /** The rest of a turn, once the sibling w is black. */
    method Rebalance(x: Ptr, w0: Ptr, d: Dir, ghost path: Path, ghost t: RbModel.Tree)
      returns (x1: Ptr, ghost path1: Path, ghost t1: RbModel.Tree)
      requires Focus(mem, root, junk, path, t) && Short(path, t) && IsBlack(t) && path.Step?
      requires path.sib.Node? && path.sib.color == Black && w0 == path.sib.ptr && d == path.d
      requires x == Root(t) && x in mem && NIL in mem && mem[x].parent == path.ptr
      modifies this`mem, this`root
      ensures mem.Keys == old(mem.Keys)
      ensures Focus(mem, root, junk, path1, t1) && Short(path1, t1) && Whole(path1, t1) == Whole(path, t)
      ensures x1 == Root(t1) && t1.Node?
      ensures path1.Top? || (path1 == path.up && t1.color == path.color)
    {
      hide Focus, Short, Whole, Rb, Inorder;
      var w := w0;
      SibCells(mem, root, junk, path, t);
      assert NephewCell(mem, Kid(path.sib, L)) && NephewCell(mem, Kid(path.sib, R));
      if mem[mem[w].left].color == Black && mem[mem[w].right].color == Black {
        FadeSibling(w, path, t);
        x1 := mem[x].parent;
        path1, t1 := path.up, Make(path.ptr, path.kv, path.color, path.d, t, Paint(path.sib, Red));
      } else {
        ghost var path2 := path;
        if mem[Link(mem[w], Other(d))].color == Black {
          TurnNephew(w, Link(mem[w], d), d, path, t);
          path2 := path.(sib := NephewUp(path.sib, d));
          SibCells(mem, root, junk, path2, t);
          FocusCell(mem, root, junk, path2, t);
          w := Link(mem[mem[x].parent], Other(d));
        }
        assert NephewCell(mem, Kid(path2.sib, Other(d)));
        t1 := Settle(mem[x].parent, w, Link(mem[w], Other(d)), d, path2, t);
        path1 := Top;
        WholeTop(t1);
        FocusCell(mem, root, junk, path1, t1);
        x1 := root;
      }
    }

    /** `rbtree_delete_fixup`.  The sentinel's parent field stands in for a missing node's. */
    method DeleteFixup(x0: Ptr, ghost path0: Path, ghost t0: RbModel.Tree) returns (ghost tree: RbModel.Tree)
      requires Focus(mem, root, junk, path0, t0) && Short(path0, t0) && x0 == Root(t0)
      requires NIL in mem && (t0.Leaf? ==> mem[NIL].parent == Head(path0))
      modifies this`mem, this`root
      ensures mem.Keys == old(mem.Keys)
      ensures Focus(mem, root, junk, Top, tree) && Rb(tree) && IsBlack(tree) && Inorder(tree) == Whole(path0, t0)
    {
      hide Focus, Short, Whole, Rb, Inorder;
      var x := x0;
      ghost var path, t := path0, t0;
      ShortCells(mem, root, junk, path, t);
      while x != root && mem[x].color == Black
        invariant mem.Keys == old(mem.Keys)
        invariant Focus(mem, root, junk, path, t) && Short(path, t) && Whole(path, t) == Whole(path0, t0)
        invariant x == Root(t) && x in mem && NIL in mem && mem[x].parent == Head(path)
        invariant (x == root <==> path.Top?) && (mem[x].color == Black <==> IsBlack(t))
        decreases if IsBlack(t) && path.Step? then Depth(path) + 1 else 0
      {
        ShortSib(path, t);
        SibCells(mem, root, junk, path, t);
        assert Depth(path) == Depth(path.up) + 1;
        var p := mem[x].parent;
        var d := if x == mem[p].left then L else R;
        var w := Link(mem[p], Other(d));
        if mem[w].color == Red {
          LiftSibling(p, w, d, path, t);
          path := Step(d, path.ptr, path.kv, Red, Kid(path.sib, d),
                       Step(d, path.sib.ptr, path.sib.kv, Black, Kid(path.sib, Other(d)), path.up));
          SibCells(mem, root, junk, path, t);
          FocusCell(mem, root, junk, path, t);
          w := Link(mem[mem[x].parent], Other(d));
        }
        x, path, t := Rebalance(x, w, d, path, t);
        ShortCells(mem, root, junk, path, t);
      }
      if t.Leaf? {
        LeafWhole(mem, root, junk, path, t);
        assert PaintCell(mem, x, Black) == mem;
      } else {
        ShortEnds(path, t);
        PaintFocus(mem, root, junk, path, t, Black);
        ZoomTop(PaintCell(mem, x, Black), root, junk, path, Paint(t, Black));
      }
      SetColor(x, Black);
      tree := if t.Leaf? then t else Plug(path, Paint(t, Black));
    }

    // ---------------------------------------------------------------- search

    /** `rbtree_search`: the node with the key, or the sentinel where it would be. */
    method Search(key: bytes) returns (node: Ptr, ghost path: Path, ghost t: RbModel.Tree)
      requires Valid()
      ensures node == Root(t) && Plug(path, t) == tree && Focus(mem, root, junk, path, t)
      ensures t.Node? ==> t.kv.key == key
      ensures t.Leaf? ==> AllLess(Before(path), key) && AllMore(After(path), key)
      ensures node == NIL <==> t.Leaf?
    {
      hide Focus, Sorted, AllLess, AllMore, Less, Rb;
      node := root;
      path, t := Top, tree;
      NothingOutside(key);
      FocusCell(mem, root, junk, path, t);
      while node != NIL
        invariant Focus(mem, root, junk, path, t) && node == Root(t) && (node == NIL <==> t.Leaf?)
        invariant Plug(path, t) == tree && AllLess(Before(path), key) && AllMore(After(path), key)
        decreases t
      {
        FocusCell(mem, root, junk, path, t);
        PlugInorder(path, t);
        var cmp := StrCmp(key, mem[node].kv.key);
        if cmp < 0 {
          GoLeft(path, t, key);
          node := mem[node].left;
          ZoomIn(mem, root, junk, path, t, L);
          path, t := Below(path, t, L), t.l;
        } else if cmp > 0 {
          GoRight(path, t, key);
          node := mem[node].right;
          ZoomIn(mem, root, junk, path, t, R);
          path, t := Below(path, t, R), t.r;
        } else {
          return;
        }
        FocusCell(mem, root, junk, path, t);
      }
    }

    // ---------------------------------------------------------------- insert

    /** The descent of `rbtree_insert`: the node below which a new key goes. */
    method FindPlace(key: bytes) returns (found: bool, y: Ptr, ghost path: Path, ghost t: RbModel.Tree)
      requires Valid()
      ensures Plug(path, t) == tree && Focus(mem, root, junk, path, t)
      ensures found ==> t.Node? && t.kv.key == key
      ensures !found ==> t.Leaf? && y == Head(path) && AllLess(Before(path), key) && AllMore(After(path), key)
      ensures !found && path.Step? ==> (path.d == L <==> Less(key, path.kv.key))
    {
      hide Focus, Sorted, AllLess, AllMore, Less, Rb, Inorder, ToMap;
      var x := root;
      y, path, t := NIL, Top, tree;
      NothingOutside(key);
      FocusCell(mem, root, junk, path, t);
      while x != NIL
        invariant Focus(mem, root, junk, path, t) && x == Root(t) && (x == NIL <==> t.Leaf?) && y == Head(path)
        invariant Plug(path, t) == tree && AllLess(Before(path), key) && AllMore(After(path), key)
        invariant path.Step? ==> (path.d == L <==> Less(key, path.kv.key))
        decreases t
      {
        FocusCell(mem, root, junk, path, t);
        PlugInorder(path, t);
        y := x;
        var cmp := StrCmp(key, mem[x].kv.key);
        if cmp < 0 {
          GoLeft(path, t, key);
          x := mem[x].left;
          ZoomIn(mem, root, junk, path, t, L);
          path, t := Below(path, t, L), t.l;
        } else if cmp > 0 {
          GoRight(path, t, key);
          LessStrict(t.kv.key, key);
          x := mem[x].right;
          ZoomIn(mem, root, junk, path, t, R);
          path, t := Below(path, t, R), t.r;
        } else {
          return true, y, path, t;
        }
        FocusCell(mem, root, junk, path, t);
      }
      found := false;
    }

    /** `rbtree_insert` of the new node z.  A key that is already there changes nothing. */
    method Insert(z: Ptr, kv: Entry) returns (inserted: bool)
      requires Valid() && z !in mem
      modifies this`mem, this`root, this`junk, this`tree
      ensures Valid() && inserted == (kv.key !in old(View()))
      ensures mem.Keys == old(mem.Keys) + (if inserted then {z} else {})
      ensures View() == if inserted then old(View())[kv.key := kv.val] else old(View())
    {
      hide Focus, Sorted, AllLess, AllMore, Less, Rb, Inorder, ToMap;
      var found, y, path, t := FindPlace(kv.key);
      PlugInorder(path, t);
      if found {
        FoundEntry(path, t);
        return false;
      }
      inserted := true;
      ghost var mem0, root0 := mem, root;
      FocusCell(mem, root, junk, path, t);
      ParentCell(mem, root, junk, path, t);
      assert t == Leaf;
      AttachRb(path, z, kv);
      mem := mem[z := Cell(kv, Red, NIL, NIL, y)];
      if y == NIL {
        root := z;
      } else {
        var cmp := StrCmp(kv.key, mem[y].kv.key);
        if cmp < 0 {
          mem := mem[y := mem[y].(left := z)];
        } else {
          mem := mem[y := mem[y].(right := z)];
        }
      }
      Attach(mem0, root0, path, z, kv, mem, root);
      MissingEntry(path, kv);
      tree := InsertFixup(z, path, Node(z, kv, Red, Leaf, Leaf));
    }

    // ---------------------------------------------------------------- delete

    /** `rbtree_mini` below x. */
    method Mini(x: Ptr, ghost outer: Path, ghost t: RbModel.Tree)
      returns (y: Ptr, ghost inner: Path, ghost u: RbModel.Tree)
      requires Focus(mem, root, junk, outer, t) && t.Node? && x == t.ptr
      ensures Focus(mem, root, junk, Graft(inner, outer), u) && Plug(inner, u) == t && AllLeft(inner)
      ensures u.Node? && u.l.Leaf? && y == u.ptr
    {
      hide Focus;
      y, inner, u := x, Top, t;
      DeleteReads(mem, root, junk, outer, t);
      while mem[y].left != NIL
        invariant Focus(mem, root, junk, Graft(inner, outer), u) && Plug(inner, u) == t && AllLeft(inner)
        invariant u.Node? && y == u.ptr && y in mem && mem[y].left == Root(u.l) && (mem[y].left == NIL <==> u.l.Leaf?)
        decreases u
      {
        ZoomIn(mem, root, junk, Graft(inner, outer), u, L);
        y := mem[y].left;
        inner, u := Below(inner, u, L), u.l;
        FocusCell(mem, root, junk, Graft(inner, outer), u);
        DeleteReads(mem, root, junk, Graft(inner, outer), u);
      }
    }

    /** Unlinks y, which lacks its d child; the other child x takes its place. */
    method Splice(y: Ptr, x: Ptr, ghost d: Dir, ghost path: Path, ghost t: RbModel.Tree)
      requires Focus(mem, root, {}, path, t) && t.Node? && y == t.ptr && Kid(t, d).Leaf? && x == Root(Kid(t, Other(d)))
      modifies this`mem, this`root
      ensures mem.Keys == old(mem.Keys) && NIL in mem && y in mem && x in mem && mem[x].parent == Head(path)
      ensures mem[y].kv == t.kv && mem[y].color == t.color
      ensures Focus(mem, root, {y}, path, Kid(t, Other(d)))
    {
      ghost var mem0, root0 := mem, root;
      SpliceReads(mem, root, path, t, d);
      hide Focus, Keeps, Link;
      var up := mem[y].parent;
      mem := mem[x := mem[x].(parent := up)];
      assert up != NIL ==> mem[up] == mem0[up];
      ReplaceChild(up, y, x, L);
      SpliceCells(mem0, root0, path, t, d, mem, root);
      Unlink(mem0, root0, path, t, d, mem, root);
    }

    /** z lacks a child: z itself is unlinked. */
    method RemoveHere(z: Ptr, ghost path: Path, ghost t: RbModel.Tree) returns (x: Ptr, ghost x1: RbModel.Tree)
      requires Focus(mem, root, {}, path, t) && t.Node? && z == t.ptr && (t.l.Leaf? || t.r.Leaf?)
      requires Rb(Plug(path, t)) && IsBlack(Plug(path, t))
      modifies this`mem, this`root
      ensures mem.Keys == old(mem.Keys) && NIL in mem && z in mem && mem[z].color == t.color
      ensures Focus(mem, root, {z}, path, x1) && x == Root(x1) && x in mem && mem[x].parent == Head(path)
      ensures Gap(t.color, path, x1)
      ensures Whole(path, x1) == Before(path) + Inorder(t.l) + (Inorder(t.r) + After(path))
    {
      hide Focus, Rb, Inorder, Whole, Short, Before, After;
      DeleteReads(mem, root, {}, path, t);
      ghost var d := if t.l.Leaf? then L else R;
      x := if mem[z].left != NIL then mem[z].left else mem[z].right;
      x1 := Kid(t, Other(d));
      Splice(z, x, d, path, t);
      UnlinkWhole(path, t, d);
      if t.color == Black { UnlinkBlack(path, t, d); } else { UnlinkRed(path, t, d); }
    }

    /** z has both children: its successor y is unlinked and y's entry moves to z. */
    method RemoveSuccessor(z: Ptr, ghost path: Path, ghost t: RbModel.Tree)
      returns (y: Ptr, x: Ptr, ghost path1: Path, ghost x1: RbModel.Tree)
      requires junk == {} && Focus(mem, root, {}, path, t) && t.Node? && z == t.ptr && t.l.Node? && t.r.Node?
      requires Rb(Plug(path, t)) && IsBlack(Plug(path, t))
      modifies this`mem, this`root
      ensures mem.Keys == old(mem.Keys) && NIL in mem && y in mem
      ensures Focus(mem, root, {y}, path1, x1) && x == Root(x1) && x in mem && mem[x].parent == Head(path1)
      ensures Gap(mem[y].color, path1, x1)
      ensures Whole(path1, x1) == Before(path) + Inorder(t.l) + (Inorder(t.r) + After(path))
    {
      hide Focus, Rb, Inorder, Whole, Short, Before, After;
      DeleteReads(mem, root, {}, path, t);
      ghost var inner, u;
      ghost var outer := Below(path, t, R);
      ZoomIn(mem, root, {}, path, t, R);
      y, inner, u := Mini(mem[z].right, outer, t.r);
      DeleteReads(mem, root, {}, Graft(inner, outer), u);
      x := mem[y].right;
      Splice(y, x, L, Graft(inner, outer), u);
      GraftPlug(inner, outer, u);
      GapBelow(inner, outer, u);
      MoveEntry(z, y, inner, outer, u.r, u.kv);
      x1, path1 := u.r, Graft(inner, outer.(kv := u.kv));
      SuccessorWhole(path, t, inner, u);
      SameHead(inner, outer, u.kv);
    }

    /** `rbtree_delete` of node z; the unlinked node is returned. */
    method Delete(z: Ptr, ghost path: Path, ghost t: RbModel.Tree) returns (y: Ptr)
      requires Valid() && Focus(mem, root, {}, path, t) && t.Node? && z == t.ptr && Plug(path, t) == tree
      modifies this`mem, this`root, this`junk, this`tree
      ensures junk == {y} && y in old(mem) && mem.Keys == old(mem.Keys)
      ensures Focus(mem, root, {y}, Top, tree) && Rb(tree) && IsBlack(tree)
      ensures Inorder(tree) == Before(path) + Inorder(t.l) + (Inorder(t.r) + After(path))
    {
      hide Focus, Rb, Inorder, Whole, Short, Before, After, Sorted;
      DeleteReads(mem, root, {}, path, t);
      var x: Ptr;
      ghost var path1, x1 := path, t;
      if mem[z].left == NIL || mem[z].right == NIL {
        y := z;
        x, x1 := RemoveHere(z, path, t);
      } else {
        y, x, path1, x1 := RemoveSuccessor(z, path, t);
      }
      junk := {y};
      if mem[y].color == Black {
        tree := DeleteFixup(x, path1, x1);
      } else {
        RedGone(path1, x1);
        tree := Plug(path1, x1);
        ZoomTop(mem, root, junk, path1, x1);
      }
    }

    /** The entries of z and of its unlinked successor y change places. */
    method MoveEntry(z: Ptr, y: Ptr, ghost inner: Path, ghost outer: Path, ghost t: RbModel.Tree, ghost kv: Entry)
      requires Focus(mem, root, {y}, Graft(inner, outer), t) && outer.Step?
      requires z == outer.ptr && y in mem && mem[y].kv == kv
      requires Root(t) in mem
      modifies this`mem
      ensures mem.Keys == old(mem.Keys) && y in mem && mem[y].color == old(mem[y].color)
      ensures Root(t) in mem && mem[Root(t)].parent == old(mem[Root(t)].parent)
      ensures Focus(mem, root, {y}, Graft(inner, outer.(kv := kv)), t)
    {
      hide Focus;
      RewriteAbove(mem, root, {y}, inner, outer, t, kv);
      ghost var m1 := mem[z := mem[z].(kv := kv)];
      MoveReads(mem, root, {y}, inner, outer, t, y);
      var tmp := mem[z].kv;
      mem := mem[z := mem[z].(kv := mem[y].kv)];
      JunkWrite(mem, root, {y}, Graft(inner, outer.(kv := kv)), t, y, mem[y].(kv := tmp));
      mem := mem[y := mem[y].(kv := tmp)];
    }

    // ---------------------------------------------------------------- the engine's commands

    /** `kvs_rbtree_get`. */
    method Get(key: bytes) returns (r: Option<bytes>)
      requires Valid()
      ensures r == if key in Contents() then Some(Contents()[key]) else None
    {
      hide Focus, Rb, Inorder, ToMap, Sorted, AllLess, AllMore;
      var node, path, t := Search(key);
      PlugInorder(path, t);
      if node == NIL {
        MissingEntry(path, Entry(key, []));
        return None;
      }
      FoundEntry(path, t);
      FocusCell(mem, root, junk, path, t);
      return if key in blank then None else Some(mem[node].kv.val);
    }

    /** `kvs_rbtree_mod`: the old value is freed first, so without memory the key is left with none. */
    method Mod(key: bytes, val: bytes, memory: bool) returns (rc: int)
      requires Valid()
      modifies this
      ensures Valid() && mem.Keys == old(mem.Keys) && View().Keys == old(View().Keys)
      ensures rc == if key !in old(View()) then 1 else if !memory then -2 else 0
      ensures Contents() == if rc == 0 then old(Contents())[key := val] else if rc == 1 then old(Contents())
        else old(Contents()) - {key}
    {
      hide Focus, Rb, Inorder, ToMap, Sorted, AllLess, AllMore;
      var node, path, t := Search(key);
      PlugInorder(path, t);
      if node == NIL {
        MissingEntry(path, Entry(key, []));
        return 1;
      }
      FoundEntry(path, t);
      if !memory {
        blank := blank + {key};
        return -2;
      }
      blank := blank - {key};
      FocusCell(mem, root, junk, path, t);
      Rewrite(mem, root, junk, path, t, Entry(key, val), t.color);
      mem := mem[node := mem[node].(kv := Entry(key, val))];
      ZoomTop(mem, root, junk, path, t.(kv := Entry(key, val)));
      NewValue(path, t, val);
      tree := Plug(path, t.(kv := Entry(key, val)));
      rc := 0;
    }

    /** `kvs_rbtree_set`; `p` is the node the allocator hands out if one is needed. */
    method Set(key: bytes, val: bytes, p: Ptr, memory: bool) returns (rc: int)
      requires Valid() && p !in mem
      modifies this
      ensures Valid() && rc == if memory then 0 else -2
      ensures Contents() == if memory then old(Contents())[key := val] else old(Contents()) - {key}
      ensures View().Keys == old(View().Keys) + if memory then {key} else {}
      ensures mem.Keys == old(mem.Keys) + (if key in old(View()) || !memory then {} else {p})
    {
      hide Focus, Rb, Inorder, ToMap, Sorted, AllLess, AllMore;
      var node, path, t := Search(key);
      PlugInorder(path, t);
      if node != NIL {
        FoundEntry(path, t);
        rc := Mod(key, val, memory);
        return;
      }
      MissingEntry(path, Entry(key, val));
      if !memory {
        assert Contents() == Contents() - {key};
        return -2;
      }
      blank := blank - {key};
      var inserted := Insert(p, Entry(key, val));
      rc := 0;
    }

    /** `kvs_rbtree_del`; the removed node is freed. */
    method Del(key: bytes) returns (rc: int)
      requires Valid()
      modifies this
      ensures Valid() && rc == if key in old(View()) then 0 else 1
      ensures View() == old(View()) - {key} && Contents() == old(Contents()) - {key}
      ensures mem.Keys <= old(mem.Keys) && (rc == 0 ==> exists y :: y in old(mem) && mem.Keys == old(mem.Keys) - {y})
    {
      hide Focus, Rb, Inorder, ToMap, Sorted, AllLess, AllMore;
      var node, path, t := Search(key);
      PlugInorder(path, t);
      if node == NIL {
        MissingEntry(path, Entry(key, []));
        assert View() - {key} == View() && Contents() - {key} == Contents();
        return 1;
      }
      FoundEntry(path, t);
      LostEntry(path, t);
      blank := blank - {key};
      var y := Delete(node, path, t);
      Freed(mem, root, y, tree);
      mem := mem - {y};
      junk := {};
      assert y in old(mem) && mem.Keys == old(mem.Keys) - {y};
      rc := 0;
    }
  }

  // ---------------------------------------------------------------- what a delete reads

  lemma SpliceReads(mem: Mem, root: Ptr, path: Path, t: RbModel.Tree, d: Dir)
    requires Focus(mem, root, {}, path, t) && t.Node? && Kid(t, d).Leaf?
    ensures var x := Kid(t, Other(d));
      && NIL in mem && t.ptr in mem && t.ptr != NIL && Root(x) in mem && Root(x) != t.ptr
      && mem[t.ptr].parent == Head(path) && mem[t.ptr].kv == t.kv && mem[t.ptr].color == t.color
      && (x.Node? ==> x.ptr != NIL && x.ptr != Head(path))
      && (path.Step? ==> && path.ptr in mem && path.ptr != NIL && path.ptr != t.ptr && path.ptr != Root(x)
                         && Link(mem[path.ptr], path.d) == t.ptr && Link(mem[path.ptr], Other(path.d)) != t.ptr)
  {
    Pieces(mem, Head(path), t, d);
    NoNil(mem, Head(path), t);
    PathNoNil(mem, root, path, t.ptr);
    HeadIn(path);
    RootIn(Kid(t, Other(d)));
    ParentCell(mem, root, {}, path, t);
    FocusCell(mem, root, {}, path, t);
  }

  lemma SpliceCells(mem: Mem, root: Ptr, path: Path, t: RbModel.Tree, d: Dir, m': Mem, root': Ptr)
    requires Focus(mem, root, {}, path, t) && t.Node? && Kid(t, d).Leaf?
    requires var x, up := Root(Kid(t, Other(d))), Head(path);
      && x in mem && (up != NIL ==> up in mem)
      && var m1 := mem[x := mem[x].(parent := up)];
      && m' == (if up == NIL then m1 else m1[up := SetLink(m1[up], if t.ptr == Link(m1[up], L) then L else R, x)])
      && root' == if up == NIL then x else root
    ensures var x := Kid(t, Other(d));
      && NIL in mem && m'.Keys == mem.Keys && Keeps(mem, m', {Head(path), Root(x)}) && Root(x) in mem
      && m'[NIL].color == mem[NIL].color
      && m'[Root(x)] == mem[Root(x)].(parent := Head(path))
      && if path.Top? then root' == Root(x)
         else root' == root && path.ptr in mem && m'[path.ptr] == SetLink(mem[path.ptr], path.d, Root(x))
    ensures t.ptr in mem && m'[t.ptr] == mem[t.ptr]
  {
    SpliceReads(mem, root, path, t, d);
    hide Focus;
  }

  lemma DeleteReads(mem: Mem, root: Ptr, junk: set<Ptr>, path: Path, t: RbModel.Tree)
    requires Focus(mem, root, junk, path, t) && t.Node?
    ensures t.ptr in mem && mem[t.ptr].left == Root(t.l) && mem[t.ptr].right == Root(t.r) && mem[t.ptr].color == t.color
    ensures Root(t.l) == NIL <==> t.l.Leaf?
    ensures Root(t.r) == NIL <==> t.r.Leaf?
  {
    hide Focus;
    FocusCell(mem, root, junk, path, t);
    ZoomIn(mem, root, junk, path, t, L);
    ZoomIn(mem, root, junk, path, t, R);
    FocusCell(mem, root, junk, Below(path, t, L), t.l);
    FocusCell(mem, root, junk, Below(path, t, R), t.r);
  }

  lemma MoveReads(mem: Mem, root: Ptr, junk: set<Ptr>, inner: Path, outer: Path, t: RbModel.Tree, y: Ptr)
    requires Focus(mem, root, junk, Graft(inner, outer), t) && outer.Step? && y in junk
    ensures outer.ptr in mem && outer.ptr != y && Root(t) != y
  {
    RootIn(t);
    GraftAddr(inner, outer);
  }

  lemma {:induction false} GraftAddr(inner: Path, outer: Path)
    requires outer.Step?
    ensures outer.ptr in PathAddrs(Graft(inner, outer))
    decreases inner
  {
    if inner.Step? {
      GraftAddr(inner.up, outer);
    }
  }

  /** What unlinking a node of colour c leaves at its place. */
  ghost predicate Gap(c: Color, path: Path, x: RbModel.Tree) {
    if c == Black then Short(path, x) else x.Leaf? && RbPath(path, 0) && path.Step?
  }

  /** The gap where the successor was, once its entry has moved up. */
  lemma GapBelow(inner: Path, outer: Path, u: RbModel.Tree)
    requires outer.Step? && u.Node? && u.l.Leaf?
    requires Rb(Plug(Graft(inner, outer), u)) && IsBlack(Plug(Graft(inner, outer), u))
    ensures Gap(u.color, Graft(inner, outer.(kv := u.kv)), u.r)
  {
    hide Rb, Plug, RbPath, IsBlack;
    if u.color == Black {
      UnlinkBlack(Graft(inner, outer), u, L);
      GraftRb(inner, outer, u.kv, BlackHeight(u.r) + 1);
    } else {
      UnlinkRed(Graft(inner, outer), u, L);
      GraftRb(inner, outer, u.kv, 0);
    }
  }

  lemma SameHead(inner: Path, outer: Path, kv: Entry)
    requires outer.Step?
    ensures Head(Graft(inner, outer)) == Head(Graft(inner, outer.(kv := kv)))
  {
  }

  lemma RedGone(path: Path, x: RbModel.Tree)
    requires x.Leaf? && RbPath(path, 0) && path.Step?
    ensures Rb(Plug(path, x)) && IsBlack(Plug(path, x)) && Inorder(Plug(path, x)) == Whole(path, x)
  {
    PlugRb(path, x);
    PlugInorder(path, x);
  }

  // ---------------------------------------------------------------- order along the way down

  lemma NothingOutside(key: bytes)
    ensures AllLess(Before(Top), key) && AllMore(After(Top), key)
  {
  }

  /** The entries around a node. */
  lemma WholeSplit(path: Path, t: RbModel.Tree)
    requires t.Node?
    ensures Whole(path, t) == Before(path) + Inorder(t.l) + [t.kv] + (Inorder(t.r) + After(path))
  {
    Regroup(Before(path), Inorder(t.l), [t.kv], Inorder(t.r), After(path));
  }

  lemma Regroup(a: seq<Entry>, b: seq<Entry>, c: seq<Entry>, d: seq<Entry>, e: seq<Entry>)
    ensures a + (b + c + d) + e == a + b + c + (d + e)
    ensures c + d + e == c + (d + e)
  {
  }

  lemma MoreThan(key: bytes, mid: bytes, s: seq<Entry>)
    requires Less(key, mid) && AllMore(s, mid)
    ensures AllMore(s, key)
  {
    forall i | 0 <= i < |s| ensures Less(key, s[i].key) { LessTrans(key, mid, s[i].key); }
  }

  lemma LessThan(key: bytes, mid: bytes, s: seq<Entry>)
    requires Less(mid, key) && AllLess(s, mid)
    ensures AllLess(s, key)
  {
    forall i | 0 <= i < |s| ensures Less(s[i].key, key) { LessTrans(s[i].key, mid, key); }
  }

  lemma GoLeft(path: Path, t: RbModel.Tree, key: bytes)
    requires t.Node? && Sorted(Whole(path, t)) && Less(key, t.kv.key)
    requires AllLess(Before(path), key) && AllMore(After(path), key)
    ensures AllLess(Before(Below(path, t, L)), key) && AllMore(After(Below(path, t, L)), key)
  {
    var a, b := Before(path) + Inorder(t.l), Inorder(t.r) + After(path);
    WholeSplit(path, t);
    SortedAround(a, t.kv, b);
    MoreThan(key, t.kv.key, b);
    Regroup(a, a, [t.kv], Inorder(t.r), After(path));
    hide Inorder, Sorted, Less, Whole;
    assert After(Below(path, t, L)) == [t.kv] + b;
  }

  lemma GoRight(path: Path, t: RbModel.Tree, key: bytes)
    requires t.Node? && Sorted(Whole(path, t)) && Less(t.kv.key, key)
    requires AllLess(Before(path), key) && AllMore(After(path), key)
    ensures AllLess(Before(Below(path, t, R)), key) && AllMore(After(Below(path, t, R)), key)
  {
    var a, b := Before(path) + Inorder(t.l), Inorder(t.r) + After(path);
    WholeSplit(path, t);
    SortedAround(a, t.kv, b);
    LessThan(key, t.kv.key, a);
    hide Inorder, Sorted, Less, Whole;
    assert Before(Below(path, t, R)) == a + [t.kv];
  }

  /** The entry of a node is in the map. */
  lemma FoundEntry(path: Path, t: RbModel.Tree)
    requires t.Node? && Sorted(Whole(path, t))
    ensures Inorder(Plug(path, t)) == Before(path) + Inorder(t.l) + [t.kv] + (Inorder(t.r) + After(path))
    ensures t.kv.key in ToMap(Inorder(Plug(path, t))) && ToMap(Inorder(Plug(path, t)))[t.kv.key] == t.kv.val
  {
    var a, b := Before(path) + Inorder(t.l), Inorder(t.r) + After(path);
    PlugInorder(path, t);
    WholeSplit(path, t);
    ToMapReplace(a, t.kv, t.kv.val, b);
  }

  /** The entries without a node's own. */
  lemma LostEntry(path: Path, t: RbModel.Tree)
    requires t.Node? && Sorted(Whole(path, t))
    ensures var s := Before(path) + Inorder(t.l) + (Inorder(t.r) + After(path));
      Sorted(s) && ToMap(s) == ToMap(Inorder(Plug(path, t))) - {t.kv.key}
  {
    var a, b := Before(path) + Inorder(t.l), Inorder(t.r) + After(path);
    PlugInorder(path, t);
    WholeSplit(path, t);
    SortedAround(a, t.kv, b);
    ToMapMiddle(a, t.kv, b);
  }

  /** Another value in a node. */
  lemma NewValue(path: Path, t: RbModel.Tree, val: bytes)
    requires t.Node? && Sorted(Whole(path, t)) && Rb(Plug(path, t)) && IsBlack(Plug(path, t))
    ensures var t1 := t.(kv := Entry(t.kv.key, val));
      && Rb(Plug(path, t1)) && IsBlack(Plug(path, t1)) && Sorted(Inorder(Plug(path, t1)))
      && ToMap(Inorder(Plug(path, t1))) == ToMap(Inorder(Plug(path, t)))[t.kv.key := val]
  {
    var t1 := t.(kv := Entry(t.kv.key, val));
    var a, b := Before(path) + Inorder(t.l), Inorder(t.r) + After(path);
    UnplugRb(path, t);
    PlugRb(path, t1);
    PlugInorder(path, t);
    PlugInorder(path, t1);
    WholeSplit(path, t);
    WholeSplit(path, t1);
    ToMapReplace(a, t.kv, val, b);
  }

  /** A key between the entries before and after the place of a missing node. */
  lemma MissingEntry(path: Path, kv: Entry)
    requires Sorted(Inorder(Plug(path, Leaf))) && AllLess(Before(path), kv.key) && AllMore(After(path), kv.key)
    ensures kv.key !in ToMap(Inorder(Plug(path, Leaf)))
    ensures Sorted(Before(path) + [kv] + After(path))
    ensures ToMap(Before(path) + [kv] + After(path)) == ToMap(Inorder(Plug(path, Leaf)))[kv.key := kv.val]
  {
    PlugInorder(path, Leaf);
    assert Whole(path, Leaf) == Before(path) + After(path);
    SortedInsert(Before(path), kv, After(path));
    ToMapMiddle(Before(path), kv, After(path));
  }

  /** A context painted for the last rotation of a delete. */
  function Repainted(path: Path): Path
    requires path.Step? && path.sib.Node? && Kid(path.sib, Other(path.d)).Node?
  {
    var w, e := path.sib, Other(path.d);
    path.(color := Black, sib := Make(w.ptr, w.kv, path.color, e, Paint(Kid(w, e), Black), Kid(w, path.d)))
  }

  lemma WholeTop(t: RbModel.Tree)
    requires Rb(t) && IsBlack(t)
    ensures Whole(Top, t) == Inorder(t) && Short(Top, t)
  {
  }

  lemma ShortCells(mem: Mem, root: Ptr, junk: set<Ptr>, path: Path, t: RbModel.Tree)
    requires Focus(mem, root, junk, path, t)
    ensures NIL in mem && Root(t) in mem && (mem[Root(t)].color == Black <==> IsBlack(t))
    ensures t.Node? ==> mem[t.ptr].parent == Head(path)
    ensures Root(t) == root <==> path.Top?
  {
    hide Focus;
    FocusCell(mem, root, junk, path, t);
    ParentCell(mem, root, junk, path, t);
  }

  /** The sibling of a subtree that is short is a node; it has black children if it is red. */
  lemma ShortSib(path: Path, t: RbModel.Tree)
    requires Short(path, t) && path.Step?
    ensures path.sib.Node?
  {
  }

  lemma LeafWhole(mem: Mem, root: Ptr, junk: set<Ptr>, path: Path, t: RbModel.Tree)
    requires Focus(mem, root, junk, path, t) && t.Leaf? && path.Top?
    ensures Whole(path, t) == [] && Inorder(t) == [] && Rb(t) && NIL in mem && mem[NIL].color == Black
  {
  }

  /** The near nephew in the sibling's place. */
  function NephewUp(w: RbModel.Tree, d: Dir): RbModel.Tree
    requires w.Node? && Kid(w, d).Node?
  {
    var n := Kid(w, d);
    Make(n.ptr, n.kv, Black, d, Kid(n, d), Make(w.ptr, w.kv, Red, d, Kid(n, Other(d)), Kid(w, Other(d))))
  }

  predicate NephewCell(mem: Mem, t: RbModel.Tree) {
    Root(t) in mem && (mem[Root(t)].color == Black <==> IsBlack(t)) && (t.Node? ==> t.ptr != NIL)
  }

  /** Parent, sibling and nephews of a subtree that is short. */
  lemma SibCells(mem: Mem, root: Ptr, junk: set<Ptr>, path: Path, t: RbModel.Tree)
    requires Focus(mem, root, junk, path, t) && path.Step? && path.sib.Node?
    ensures NIL in mem && path.ptr in mem && path.ptr != NIL && path.sib.ptr in mem && path.sib.ptr != NIL
    ensures mem[path.ptr] == CellOf(path.kv, path.color, path.d, Root(t), path.sib.ptr, Head(path.up))
    ensures mem[path.sib.ptr] == Cell(path.sib.kv, path.sib.color, Root(path.sib.l), Root(path.sib.r), path.ptr)
    ensures forall d :: NephewCell(mem, Kid(path.sib, d))
    ensures Root(t) != path.sib.ptr && root != Root(t)
  {
    hide Focus;
    ParentCell(mem, root, junk, path, t);
    Turn(mem, root, junk, path, t);
    var side := Turned(path, t);
    FocusCell(mem, root, junk, side, path.sib);
    forall d ensures NephewCell(mem, Kid(path.sib, d)) {
      ZoomIn(mem, root, junk, side, path.sib, d);
      FocusCell(mem, root, junk, Below(side, path.sib, d), Kid(path.sib, d));
    }
  }

  lemma RaisedFacts(mem: Mem, root: Ptr, junk: set<Ptr>, path: Path, t: RbModel.Tree)
    requires Focus(mem, root, junk, path, t) && Raised(path, t)
    ensures t.Node? && t.ptr in mem && mem[t.ptr].parent == Head(path) && Head(path) in mem
    ensures mem[Head(path)].color == Black <==> HeadBlack(path)
  {
    hide Focus;
    FocusCell(mem, root, junk, path, t);
    ParentCell(mem, root, junk, path, t);
  }

  /** Parent, grandparent and uncle of a red node below a red node. */
  lemma FamilyCells(mem: Mem, root: Ptr, junk: set<Ptr>, path: Path, t: RbModel.Tree)
    requires Focus(mem, root, junk, path, t) && Raised(path, t) && !HeadBlack(path)
    ensures path.up.Step? && path.up.color == Black
    ensures t.ptr in mem && mem[t.ptr].parent == path.ptr && path.ptr in mem && mem[path.ptr].parent == path.up.ptr
    ensures path.up.ptr in mem
    ensures path.d == L ==> mem[path.ptr].left == t.ptr && mem[path.ptr].right != t.ptr
    ensures path.d == R ==> mem[path.ptr].right == t.ptr && mem[path.ptr].left != t.ptr
    ensures path.up.d == L ==> mem[path.up.ptr].left == path.ptr && mem[path.up.ptr].right == Root(path.up.sib)
    ensures path.up.d == R ==> mem[path.up.ptr].right == path.ptr && mem[path.up.ptr].left == Root(path.up.sib)
    ensures Root(path.up.sib) != path.ptr && Root(path.up.sib) in mem
    ensures mem[Root(path.up.sib)].color == Black <==> IsBlack(path.up.sib)
  {
    hide Focus;
    FocusCell(mem, root, junk, path, t);
    ParentCell(mem, root, junk, path, t);
    ZoomOut(mem, root, junk, path, t);
    ParentCell(mem, root, junk, path.up, Above(path, t));
  }

  /** When the parent is black, painting the root black gives a balanced tree. */
  lemma RaisedEnds(path: Path, t: RbModel.Tree)
    requires Raised(path, t) && HeadBlack(path)
    ensures var tree := Plug(path, t);
      tree.Node? && Rb(Paint(tree, Black)) && Inorder(Paint(tree, Black)) == Whole(path, t)
  {
    PlugInorder(path, t);
    PlugRb(path, t);
    PlugNode(path, t);
  }

  lemma {:induction false} PlugNode(path: Path, t: RbModel.Tree)
    requires t.Node?
    ensures Plug(path, t).Node?
    decreases path
  {
    if path.Step? {
      PlugNode(path.up, Above(path, t));
    }
  }

  /** The memory after the writes of a rotation. */
  function RotateMem(m: Mem, x: Ptr, y: Ptr, b: Ptr, up: Ptr, side: Dir, d: Dir): Mem
    requires x in m && y in m && (b != NIL ==> b in m) && (up != NIL ==> up in m)
  {
    var m1 := m[x := SetLink(m[x], Other(d), b)];
    var m2 := if b != NIL then m1[b := m1[b].(parent := x)] else m1;
    var m3 := m2[y := m2[y].(parent := up)];
    var m4 := if up != NIL then m3[up := SetLink(m3[up], side, y)] else m3;
    var m5 := m4[y := SetLink(m4[y], d, x)];
    m5[x := m5[x].(parent := y)]
  }

  lemma RotateCells(m: Mem, x: Ptr, y: Ptr, b: Ptr, up: Ptr, side: Dir, d: Dir)
    requires NIL in m && x in m && y in m && (b != NIL ==> b in m) && (up != NIL ==> up in m)
    requires x != NIL && y != NIL && x != y && b != x && b != y && up != x && up != y && (b == NIL || b != up)
    ensures var m' := RotateMem(m, x, y, b, up, side, d);
      && m'.Keys == m.Keys && m'[NIL] == m[NIL]
      && m'[x] == SetLink(m[x], Other(d), b).(parent := y)
      && m'[y] == SetLink(m[y].(parent := up), d, x)
      && (b != NIL ==> m'[b] == m[b].(parent := x))
      && (up != NIL ==> m'[up] == SetLink(m[up], side, y))
      && Keeps(m, m', {x, y, b, up})
  {
    hide SetLink;
  }

  /** What a rotation reads. */
  lemma RotateReads(mem: Mem, root: Ptr, junk: set<Ptr>, path: Path, t: RbModel.Tree, d: Dir)
    requires Focus(mem, root, junk, path, t) && t.Node? && Kid(t, Other(d)).Node?
    ensures var y := Kid(t, Other(d));
      var b := Kid(y, d);
      && NIL in mem && t.ptr in mem && y.ptr in mem && t.ptr != y.ptr && t.ptr != NIL && y.ptr != NIL
      && Link(mem[t.ptr], Other(d)) == y.ptr && Link(mem[y.ptr], d) == Root(b)
      && (b.Node? ==> b.ptr in mem && b.ptr != NIL && b.ptr != t.ptr && b.ptr != y.ptr)
      && mem[t.ptr].parent == Head(path)
      && (path.Step? ==> && path.ptr in mem && path.ptr != NIL && path.ptr != t.ptr
                         && path.ptr != y.ptr && path.ptr != Root(b)
                         && Link(mem[path.ptr], path.d) == t.ptr && Link(mem[path.ptr], Other(path.d)) != t.ptr)
  {
    RotateParts(mem, root, junk, path, t, d);
    NoNil(mem, Head(path), t);
    ParentCell(mem, root, junk, path, t);
    RootIn(Kid(Kid(t, Other(d)), d));
    HeadIn(path);
  }

  lemma RotateDone(mem: Mem, root: Ptr, junk: set<Ptr>, path: Path, t: RbModel.Tree, d: Dir, m': Mem, root': Ptr)
    requires Focus(mem, root, junk, path, t) && t.Node? && Kid(t, Other(d)).Node?
    requires var y := Kid(t, Other(d));
      var b := Kid(y, d);
      && t.ptr in mem && y.ptr in mem && m'.Keys == mem.Keys
      && m'[t.ptr] == SetLink(mem[t.ptr], Other(d), Root(b)).(parent := y.ptr)
      && m'[y.ptr] == SetLink(mem[y.ptr].(parent := Head(path)), d, t.ptr)
      && (b.Node? ==> b.ptr in mem && m'[b.ptr] == mem[b.ptr].(parent := t.ptr))
      && (path.Step? ==> path.ptr in mem && m'[path.ptr] == SetLink(mem[path.ptr], path.d, y.ptr) && root' == root)
      && (path.Top? ==> root' == y.ptr)
      && NIL in mem && m'[NIL] == mem[NIL] && Keeps(mem, m', {t.ptr, y.ptr, Root(b), Head(path)})
    ensures RotateWrites(mem, root, junk, path, t, d, m', root')
  {
    hide Focus, Keeps;
  }
}
