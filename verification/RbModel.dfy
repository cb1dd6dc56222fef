/** Red-black trees as values: trees with a focus, what balance means, and why every turn of the two
    fix-up loops keeps it.  The left and right versions of a case are one case with a direction. */
module RbModel {
  import opened Ordered

  type Ptr = nat

  const NIL: Ptr := 0

  datatype Color = Red | Black

  datatype Dir = L | R

  function Other(d: Dir): Dir {
    if d == L then R else L
  }

  /** A subtree; `ptr` is the address of its root node. */
  datatype Tree = Leaf | Node(ptr: Ptr, kv: Entry, color: Color, l: Tree, r: Tree)

  /** The way from a subtree up to the root: the subtree is the `d` child of `ptr`, `sib` is the other. */
  datatype Path = Top | Step(d: Dir, ptr: Ptr, kv: Entry, color: Color, sib: Tree, up: Path)

  function Root(t: Tree): Ptr {
    if t.Leaf? then NIL else t.ptr
  }

  function Head(path: Path): Ptr {
    if path.Top? then NIL else path.ptr
  }

  function Kid(t: Tree, d: Dir): Tree
    requires t.Node?
  {
    if d == L then t.l else t.r
  }

  /** The node whose `d` child is `near`. */
  function Make(ptr: Ptr, kv: Entry, color: Color, d: Dir, near: Tree, far: Tree): (t: Tree)
    ensures t.Node? && t.ptr == ptr && t.kv == kv && t.color == color
    ensures Kid(t, d) == near && Kid(t, Other(d)) == far
  {
    if d == L then Node(ptr, kv, color, near, far) else Node(ptr, kv, color, far, near)
  }

  lemma MadeOf(t: Tree, d: Dir)
    requires t.Node?
    ensures t == Make(t.ptr, t.kv, t.color, d, Kid(t, d), Kid(t, Other(d)))
  {
  }

  lemma Mirror(ptr: Ptr, kv: Entry, color: Color, d: Dir, near: Tree, far: Tree)
    ensures Make(ptr, kv, color, d, near, far) == Make(ptr, kv, color, Other(d), far, near)
  {
  }

  function Plug(path: Path, t: Tree): Tree
    decreases path
  {
    match path
    case Top => t
    case Step(d, p, kv, c, sib, up) => Plug(up, Make(p, kv, c, d, t, sib))
  }

  function Depth(path: Path): nat {
    if path.Top? then 0 else 1 + Depth(path.up)
  }

  // ---------------------------------------------------------------- contents

  function Inorder(t: Tree): seq<Entry> {
    if t.Leaf? then [] else Inorder(t.l) + [t.kv] + Inorder(t.r)
  }

  function Before(path: Path): seq<Entry> {
    match path
    case Top => []
    case Step(d, _, kv, _, sib, up) => if d == L then Before(up) else Before(up) + Inorder(sib) + [kv]
  }

  function After(path: Path): seq<Entry> {
    match path
    case Top => []
    case Step(d, _, kv, _, sib, up) => if d == L then [kv] + Inorder(sib) + After(up) else After(up)
  }

  function Whole(path: Path, t: Tree): seq<Entry> {
    Before(path) + Inorder(t) + After(path)
  }

  lemma {:induction false} PlugInorder(path: Path, t: Tree)
    ensures Inorder(Plug(path, t)) == Whole(path, t)
    decreases path
  {
    if path.Top? {
      assert [] + Inorder(t) + [] == Inorder(t);
    } else {
      var t1 := Make(path.ptr, path.kv, path.color, path.d, t, path.sib);
      PlugInorder(path.up, t1);
      assert Whole(path.up, t1) == Whole(path, t);
    }
  }

  /** A rotation keeps the order of the entries. */
  lemma RotateInorder(x: Ptr, xe: Entry, y: Ptr, ye: Entry, c: Color, c': Color, d: Dir, e: Color, e': Color,
                      near: Tree, mid: Tree, far: Tree)
    ensures Inorder(Make(x, xe, c, d, near, Make(y, ye, c', d, mid, far)))
         == Inorder(Make(y, ye, e, d, Make(x, xe, e', d, near, mid), far))
  {
  }

  // ---------------------------------------------------------------- balance

  predicate IsBlack(t: Tree) {
    t.Leaf? || t.color == Black
  }

  predicate HeadBlack(path: Path) {
    path.Top? || path.color == Black
  }

  function One(c: Color): nat {
    if c == Black then 1 else 0
  }

  /** Black nodes on the way down to a leaf. */
  function BlackHeight(t: Tree): nat {
    if t.Leaf? then 0 else BlackHeight(t.l) + One(t.color)
  }

  /** Equal black height on both sides everywhere, and no red node below a red node. */
  predicate Rb(t: Tree) {
    t.Leaf? ||
    (Rb(t.l) && Rb(t.r) && BlackHeight(t.l) == BlackHeight(t.r) && (t.color == Red ==> IsBlack(t.l) && IsBlack(t.r)))
  }

  /** Balanced, but the root may be red above a red child. */
  predicate Weak(t: Tree) {
    t.Leaf? || (Rb(t.l) && Rb(t.r) && BlackHeight(t.l) == BlackHeight(t.r))
  }

  /** A balanced context for a subtree of black height n; its topmost node is black. */
  predicate RbPath(path: Path, n: nat)
    decreases path
  {
    path.Top? ||
    (&& Rb(path.sib) && BlackHeight(path.sib) == n
     && (path.color == Red ==> IsBlack(path.sib) && path.up.Step? && path.up.color == Black)
     && RbPath(path.up, n + One(path.color)))
  }

  function Paint(t: Tree, c: Color): Tree
    requires t.Node?
  {
    t.(color := c)
  }

  lemma {:induction false} PlugRb(path: Path, t: Tree)
    requires RbPath(path, BlackHeight(t)) && Rb(t) && (IsBlack(t) || HeadBlack(path))
    ensures Rb(Plug(path, t))
    ensures IsBlack(Plug(path, t)) || path.Top?
    decreases path
  {
    if path.Step? {
      PlugRb(path.up, Make(path.ptr, path.kv, path.color, path.d, t, path.sib));
    }
  }

  lemma MakeRb(p: Ptr, kv: Entry, c: Color, d: Dir, near: Tree, far: Tree)
    requires Rb(near) && Rb(far) && BlackHeight(near) == BlackHeight(far)
    requires c == Red ==> IsBlack(near) && IsBlack(far)
    ensures Rb(Make(p, kv, c, d, near, far))
    ensures BlackHeight(Make(p, kv, c, d, near, far)) == BlackHeight(near) + One(c)
  {
  }

  lemma KidsRb(t: Tree, d: Dir)
    requires t.Node? && Rb(t)
    ensures Rb(Kid(t, d)) && Rb(Kid(t, Other(d)))
    ensures BlackHeight(t) == BlackHeight(Kid(t, d)) + One(t.color) == BlackHeight(Kid(t, Other(d))) + One(t.color)
    ensures t.color == Red ==> IsBlack(Kid(t, d)) && IsBlack(Kid(t, Other(d)))
  {
  }

  lemma PaintRb(t: Tree, c: Color)
    requires t.Node? && Rb(t) && (c == Red ==> IsBlack(t.l) && IsBlack(t.r))
    ensures Rb(Paint(t, c)) && BlackHeight(Paint(t, c)) + One(t.color) == BlackHeight(t) + One(c)
    ensures Inorder(Paint(t, c)) == Inorder(t)
  {
  }

  /** Replacing a subtree by one with the same entries. */
  lemma SwapInorder(p: Ptr, kv: Entry, c: Color, c': Color, d: Dir, near: Tree, near': Tree, far: Tree, far': Tree)
    requires Inorder(near) == Inorder(near') && Inorder(far) == Inorder(far')
    ensures Inorder(Make(p, kv, c, d, near, far)) == Inorder(Make(p, kv, c', d, near', far'))
  {
  }

  // ---------------------------------------------------------------- insert fix-up

  /** The state at the head of the insert loop: all is well but for a red node whose parent may be red. */
  predicate Raised(path: Path, t: Tree) {
    t.Node? && t.color == Red && Rb(t) && RbPath(path, BlackHeight(t))
  }

  /** Red uncle: the conflict moves two levels up. */
  lemma RecolorUp(path: Path, t: Tree)
    requires Raised(path, t) && !HeadBlack(path) && !IsBlack(path.up.sib)
    ensures path.up.Step? && path.up.color == Black
    ensures var g := path.up;
      var t1 := Make(g.ptr, g.kv, Red, g.d, Make(path.ptr, path.kv, Black, path.d, t, path.sib), Paint(g.sib, Black));
      Raised(g.up, t1) && Whole(g.up, t1) == Whole(path, t)
  {
    var g := path.up;
    var p0 := Make(path.ptr, path.kv, path.color, path.d, t, path.sib);
    var p1 := Make(path.ptr, path.kv, Black, path.d, t, path.sib);
    var u1 := Paint(g.sib, Black);
    assert RbPath(g, BlackHeight(t));
    PaintRb(g.sib, Black);
    MakeRb(path.ptr, path.kv, Black, path.d, t, path.sib);
    MakeRb(g.ptr, g.kv, Red, g.d, p1, u1);
    hide Rb, Inorder, BlackHeight;
    SwapInorder(path.ptr, path.kv, path.color, Black, path.d, t, t, path.sib, path.sib);
    SwapInorder(g.ptr, g.kv, g.color, Red, g.d, p0, p1, g.sib, u1);
    SameWhole(path, t);
    SameWhole(g, p0);
  }

  /** Zooming out by two levels. */
  lemma SameWhole(path: Path, t: Tree)
    requires path.Step?
    ensures Whole(path, t) == Whole(path.up, Make(path.ptr, path.kv, path.color, path.d, t, path.sib))
  {
    var t1 := Make(path.ptr, path.kv, path.color, path.d, t, path.sib);
    PlugInorder(path, t);
    PlugInorder(path.up, t1);
  }

  /** Inner grandchild: rotating the parent makes it an outer one. */
  lemma StraightenUp(path: Path, t: Tree)
    requires Raised(path, t) && !HeadBlack(path) && path.d != path.up.d && path.up.Step?
    ensures var d := path.up.d;
      var t1 := Make(path.ptr, path.kv, Red, d, path.sib, Kid(t, d));
      var path1 := Step(d, t.ptr, t.kv, Red, Kid(t, Other(d)), path.up);
      Raised(path1, t1) && Whole(path1, t1) == Whole(path, t)
  {
    var d := path.up.d;
    var t1 := Make(path.ptr, path.kv, Red, d, path.sib, Kid(t, d));
    var path1 := Step(d, t.ptr, t.kv, Red, Kid(t, Other(d)), path.up);
    SameWhole(path, t);
    SameWhole(path1, t1);
    MadeOf(t, d);
    RotateInorder(path.ptr, path.kv, t.ptr, t.kv, Red, Red, d, Red, Red, path.sib, Kid(t, d), Kid(t, Other(d)));
  }

  /** Outer grandchild, black uncle: rotating the grandparent ends the conflict. */
  lemma RotateUp(path: Path, t: Tree)
    requires Raised(path, t) && !HeadBlack(path) && path.up.Step? && path.d == path.up.d && IsBlack(path.up.sib)
    ensures var g := path.up;
      var path1 := Step(g.d, path.ptr, path.kv, Black, Make(g.ptr, g.kv, Red, g.d, path.sib, g.sib), g.up);
      Raised(path1, t) && HeadBlack(path1) && Whole(path1, t) == Whole(path, t)
  {
    var g, d := path.up, path.d;
    var g1 := Make(g.ptr, g.kv, Red, d, path.sib, g.sib);
    var path1 := Step(d, path.ptr, path.kv, Black, g1, g.up);
    SameWhole(path, t);
    SameWhole(path.up, Make(path.ptr, path.kv, path.color, d, t, path.sib));
    SameWhole(path1, t);
    // the rotation is the mirror image: towards Other(d)
    var e := Other(d);
    Mirror(path.ptr, path.kv, path.color, d, t, path.sib);
    Mirror(path.ptr, path.kv, Black, d, t, g1);
    Mirror(g.ptr, g.kv, Red, d, path.sib, g.sib);
    Mirror(g.ptr, g.kv, g.color, d, Make(path.ptr, path.kv, path.color, d, t, path.sib), g.sib);
    RotateInorder(g.ptr, g.kv, path.ptr, path.kv, g.color, path.color, e, Black, Red, g.sib, path.sib, t);
    assert RbPath(g, BlackHeight(t));
    MakeRb(g.ptr, g.kv, Red, d, path.sib, g.sib);
  }

  // ---------------------------------------------------------------- delete fix-up

  /** The state at the head of the delete loop: the subtree is one black node short. */
  predicate Short(path: Path, t: Tree) {
    Weak(t) && RbPath(path, BlackHeight(t) + 1)
  }

  /** Colouring the short subtree's red root black, or having reached the root, ends it. */
  lemma ShortEnds(path: Path, t: Tree)
    requires Short(path, t) && t.Node? && (t.color == Red || path.Top?)
    ensures Rb(Plug(path, Paint(t, Black))) && IsBlack(Plug(path, Paint(t, Black)))
    ensures Inorder(Plug(path, Paint(t, Black))) == Whole(path, t)
  {
    PlugInorder(path, Paint(t, Black));
    PlugRb(path, Paint(t, Black));
  }

  /** Red sibling: after a rotation the sibling is black. */
  lemma RedSibling(path: Path, t: Tree)
    requires Short(path, t) && path.Step? && !IsBlack(path.sib)
    ensures var d, w := path.d, path.sib;
      var path1 := Step(d, path.ptr, path.kv, Red, Kid(w, d), Step(d, w.ptr, w.kv, Black, Kid(w, Other(d)), path.up));
      Short(path1, t) && IsBlack(path1.sib) && path1.sib.Node? && Whole(path1, t) == Whole(path, t)
  {
    var d, w := path.d, path.sib;
    var outer := Step(d, w.ptr, w.kv, Black, Kid(w, Other(d)), path.up);
    var path1 := Step(d, path.ptr, path.kv, Red, Kid(w, d), outer);
    MadeOf(w, d);
    SameWhole(path, t);
    SameWhole(path1, t);
    SameWhole(outer, Make(path.ptr, path.kv, Red, d, t, Kid(w, d)));
    RotateInorder(path.ptr, path.kv, w.ptr, w.kv, path.color, Red, d, Black, Red, t, Kid(w, d), Kid(w, Other(d)));
  }

  /** Black sibling with black children: it turns red, and the parent's subtree is the short one. */
  lemma BlackNephews(path: Path, t: Tree)
    requires Short(path, t) && IsBlack(t) && path.Step? && path.sib.Node? && path.sib.color == Black
    requires IsBlack(path.sib.l) && IsBlack(path.sib.r)
    ensures var t1 := Make(path.ptr, path.kv, path.color, path.d, t, Paint(path.sib, Red));
      Short(path.up, t1) && Whole(path.up, t1) == Whole(path, t)
  {
    SameWhole(path, t);
    assert Inorder(Paint(path.sib, Red)) == Inorder(path.sib);
  }

  /** Only the near nephew red: rotating the sibling makes the far one red. */
  lemma NearNephew(path: Path, t: Tree)
    requires Short(path, t) && path.Step? && path.sib.Node? && path.sib.color == Black
    requires IsBlack(Kid(path.sib, Other(path.d))) && !IsBlack(Kid(path.sib, path.d))
    ensures var d, w := path.d, path.sib;
      var n := Kid(w, d);
      var w1 := Make(n.ptr, n.kv, Black, d, Kid(n, d), Make(w.ptr, w.kv, Red, d, Kid(n, Other(d)), Kid(w, Other(d))));
      Short(path.(sib := w1), t) && Whole(path.(sib := w1), t) == Whole(path, t)
  {
    var d, w := path.d, path.sib;
    var e, n := Other(d), Kid(w, d);
    var w0 := Make(w.ptr, w.kv, Red, d, Kid(n, e), Kid(w, e));
    var w1 := Make(n.ptr, n.kv, Black, d, Kid(n, d), w0);
    KidsRb(w, d);
    KidsRb(n, d);
    MakeRb(w.ptr, w.kv, Red, d, Kid(n, e), Kid(w, e));
    MakeRb(n.ptr, n.kv, Black, d, Kid(n, d), w0);
    hide Rb, Inorder, BlackHeight;
    MadeOf(w, e);
    MadeOf(n, e);
    Mirror(w.ptr, w.kv, Red, d, Kid(n, e), Kid(w, e));
    Mirror(n.ptr, n.kv, Black, d, Kid(n, d), w0);
    RotateInorder(w.ptr, w.kv, n.ptr, n.kv, w.color, n.color, e, Black, Red, Kid(w, e), Kid(n, e), Kid(n, d));
    SwapInorder(path.ptr, path.kv, path.color, path.color, d, t, t, w, w1);
    SameWhole(path, t);
    SameWhole(path.(sib := w1), t);
  }

  /** Far nephew red: one rotation makes the tree balanced again. */
  lemma FarNephew(path: Path, t: Tree)
    requires Short(path, t) && IsBlack(t) && path.Step? && path.sib.Node? && path.sib.color == Black
    requires !IsBlack(Kid(path.sib, Other(path.d)))
    ensures var d, w := path.d, path.sib;
      var f := Kid(w, Other(d));
      var t1 := Make(w.ptr, w.kv, path.color, d, Make(path.ptr, path.kv, Black, d, t, Kid(w, d)), Paint(f, Black));
      && Rb(Plug(path.up, t1)) && Inorder(Plug(path.up, t1)) == Whole(path, t)
      && (path.up.Step? ==> IsBlack(Plug(path.up, t1))) && (path.up.Top? ==> t1.color == Black)
  {
    var d, w := path.d, path.sib;
    var e := Other(d);
    var f := Kid(w, e);
    var t1 := Make(w.ptr, w.kv, path.color, d, Make(path.ptr, path.kv, Black, d, t, Kid(w, d)), Paint(f, Black));
    var p1 := Make(path.ptr, path.kv, Black, d, t, Kid(w, d));
    KidsRb(w, d);
    PaintRb(f, Black);
    WeakBlack(t);
    MakeRb(path.ptr, path.kv, Black, d, t, Kid(w, d));
    MakeRb(w.ptr, w.kv, path.color, d, p1, Paint(f, Black));
    PlugRb(path.up, t1);
    hide Rb, Inorder, BlackHeight;
    MadeOf(w, d);
    SameWhole(path, t);
    RotateInorder(path.ptr, path.kv, w.ptr, w.kv, path.color, w.color, d, path.color, Black, t, Kid(w, d), f);
    SwapInorder(w.ptr, w.kv, path.color, path.color, d, p1, p1, f, Paint(f, Black));
    PlugInorder(path.up, t1);
  }

  lemma WeakBlack(t: Tree)
    requires Weak(t) && IsBlack(t)
    ensures Rb(t)
  {
  }
}
