/** How high a red-black tree can be, and the dump's walk over it with a fixed stack. */
module RbWalk {
  import opened Ordered
  import opened RbModel
  import opened RbHeap
  import RbTree

  const STACK_SIZE := 256

  function Size(t: Tree): nat {
    if t.Leaf? then 0 else Size(t.l) + 1 + Size(t.r)
  }

  function Height(t: Tree): nat {
    if t.Leaf? then 0 else 1 + if Height(t.l) > Height(t.r) then Height(t.l) else Height(t.r)
  }

  function Pow2(n: nat): nat {
    if n == 0 then 1 else 2 * Pow2(n - 1)
  }

  lemma {:induction false} Pow2Grows(a: nat, b: nat)
    requires a <= b
    ensures Pow2(a) <= Pow2(b)
    decreases b
  {
    if a < b { Pow2Grows(a, b - 1); }
  }

  /** A balanced tree is full down to its black height. */
  lemma {:induction false} AtLeast(t: Tree)
    requires Rb(t)
    ensures Pow2(BlackHeight(t)) <= Size(t) + 1
  {
    if t.Node? {
      AtLeast(t.l);
      AtLeast(t.r);
    }
  }

  /** At most every second node on a way down is red. */
  lemma {:induction false} AtMost(t: Tree)
    requires Rb(t)
    ensures Height(t) <= 2 * BlackHeight(t) + (if IsBlack(t) then 0 else 1)
  {
    if t.Node? {
      AtMost(t.l);
      AtMost(t.r);
    }
  }

  /** HEIGHT.  A red-black tree of fewer than 2^(k+1) - 1 nodes is at most 2k high. */
  lemma HeightBound(t: Tree, k: nat)
    requires Rb(t) && IsBlack(t) && Size(t) + 1 < Pow2(k + 1)
    ensures Height(t) <= 2 * k
  {
    AtLeast(t);
    AtMost(t);
    if BlackHeight(t) > k {
      Pow2Grows(k + 1, BlackHeight(t));
    }
  }

  /** The walk's stack is deep enough for every tree of fewer than 2^127 nodes. */
  lemma StackDeepEnough(t: Tree)
    requires Rb(t) && IsBlack(t) && Size(t) < Pow2(127)
    ensures Height(t) < STACK_SIZE
  {
    assert Pow2(127) >= 1 by { Pow2Grows(0, 127); }
    assert Pow2(128) == 2 * Pow2(127);
    HeightBound(t, 127);
  }

  // ---------------------------------------------------------------- the walk

  /** The memory holds t somewhere. */
  predicate Held(mem: Mem, t: Tree) {
    t.Leaf? || (t.ptr in mem && Shape(mem, mem[t.ptr].parent, t))
  }

  lemma HeldKids(mem: Mem, t: Tree)
    requires Held(mem, t) && t.Node?
    ensures t.ptr in mem && t.ptr != NIL
    ensures mem[t.ptr].kv == t.kv && mem[t.ptr].left == Root(t.l) && mem[t.ptr].right == Root(t.r)
    ensures Held(mem, t.l) && Held(mem, t.r)
  {
    assert Shape(mem, t.ptr, t.l) && Shape(mem, t.ptr, t.r);
  }

  /** What is still to be visited from the stack: each node and its right subtree, top first. */
  function Rest(stack: seq<Tree>): seq<Entry> {
    if stack == [] then []
    else
      var t := stack[|stack| - 1];
      (if t.Leaf? then [] else [t.kv] + Inorder(t.r)) + Rest(stack[..|stack| - 1])
  }

  lemma RestPush(stack: seq<Tree>, t: Tree)
    requires t.Node?
    ensures Rest(stack + [t]) == [t.kv] + Inorder(t.r) + Rest(stack)
  {
    assert (stack + [t])[..|stack|] == stack;
  }

  ghost predicate Stacked(mem: Mem, stack: seq<Tree>, h: nat) {
    forall i :: 0 <= i < |stack| ==> stack[i].Node? && Held(mem, stack[i]) && i + Height(stack[i]) <= h
  }

  /** Going down to the left moves the node to the stack. */
  lemma PushStep(out: seq<Entry>, stack: seq<Tree>, t: Tree)
    requires t.Node?
    ensures out + Inorder(t.l) + Rest(stack + [t]) == out + Inorder(t) + Rest(stack)
  {
    RestPush(stack, t);
    PushGrouped(out, Inorder(t.l), [t.kv], Inorder(t.r), Rest(stack));
  }

  lemma PushGrouped(a: seq<Entry>, b: seq<Entry>, c: seq<Entry>, d: seq<Entry>, e: seq<Entry>)
    ensures a + b + (c + d + e) == a + (b + c + d) + e
  {
  }

  /** Visiting the node on top of the stack and turning to its right subtree. */
  lemma PopStep(out: seq<Entry>, stack: seq<Tree>)
    requires stack != [] && stack[|stack| - 1].Node?
    ensures var t := stack[|stack| - 1];
      out + [t.kv] + Inorder(t.r) + Rest(stack[..|stack| - 1]) == out + [] + Rest(stack)
  {
    var t := stack[|stack| - 1];
    PopGrouped(out, [t.kv], Inorder(t.r), Rest(stack[..|stack| - 1]));
  }

  lemma PopGrouped(a: seq<Entry>, b: seq<Entry>, c: seq<Entry>, d: seq<Entry>)
    ensures a + b + c + d == a + [] + (b + c + d)
  {
  }

  lemma HeightKids(t: Tree)
    requires t.Node?
    ensures Height(t) >= 1 + Height(t.l) && Height(t) >= 1 + Height(t.r)
  {
  }

  lemma HeldRoot(mem: Mem, t: Tree)
    requires Held(mem, t)
    ensures Root(t) == NIL <==> t.Leaf?
    ensures t.Node? ==> t.ptr in mem
  {
  }

  lemma Emptied(t: Tree, stack: seq<Tree>)
    ensures t.Leaf? ==> Inorder(t) == []
    ensures stack == [] ==> Rest(stack) == []
  {
  }

  lemma WalkStarts(mem: Mem, root: Ptr, t: Tree)
    requires Focus(mem, root, {}, Top, t)
    ensures root == Root(t) && Held(mem, t)
  {
  }

  /** The dump's walk: every entry once, in key order, on a stack of 256 node pointers. */
  method Walk(tr: RbTree.Tree) returns (out: seq<Entry>)
    requires tr.Valid() && Size(tr.tree) < Pow2(127)
    ensures out == Inorder(tr.tree)
  {
    hide Pow2, Rb, Sorted, Inorder, Rest, Height, Held, Focus;
    var stack := new Ptr[STACK_SIZE](_ => NIL);
    var top := 0;
    var cur := tr.root;
    ghost var t, held: seq<Tree>, h := tr.tree, [], Height(tr.tree);
    out := [];
    StackDeepEnough(tr.tree);
    WalkStarts(tr.mem, tr.root, tr.tree);
    HeldRoot(tr.mem, t);
    Emptied(t, held);
    assert [] + Inorder(t) + [] == Inorder(t);
    while cur != NIL || top > 0
      invariant top == |held| && cur == Root(t) && (cur == NIL <==> t.Leaf?) && h < STACK_SIZE
      invariant Stacked(tr.mem, held, h) && Held(tr.mem, t) && top + Height(t) <= h
      invariant forall i :: 0 <= i < top ==> i < STACK_SIZE && stack[i] == held[i].ptr
      invariant out + Inorder(t) + Rest(held) == Inorder(tr.tree)
      decreases |Inorder(tr.tree)| - |out|
    {
      while cur != NIL
        invariant top == |held| && cur == Root(t) && (cur == NIL <==> t.Leaf?) && h < STACK_SIZE
        invariant Stacked(tr.mem, held, h) && Held(tr.mem, t) && top + Height(t) <= h
        invariant forall i :: 0 <= i < top ==> i < STACK_SIZE && stack[i] == held[i].ptr
        invariant out + Inorder(t) + Rest(held) == Inorder(tr.tree)
        invariant top > 0 || cur != NIL
        decreases t
      {
        HeldKids(tr.mem, t);
        HeightKids(t);
        PushStep(out, held, t);
        HeldRoot(tr.mem, t.l);
        stack[top] := cur;
        top := top + 1;
        cur := tr.mem[cur].left;
        held, t := held + [t], t.l;
      }
      Emptied(t, held);
      PopStep(out, held);
      top := top - 1;
      HeldKids(tr.mem, held[top]);
      HeightKids(held[top]);
      HeldRoot(tr.mem, held[top].r);
      cur := stack[top];
      out := out + [tr.mem[cur].kv];
      cur := tr.mem[cur].right;
      held, t := held[..top], held[top].r;
    }
    Emptied(t, held);
    assert out + [] + [] == out;
  }
}
