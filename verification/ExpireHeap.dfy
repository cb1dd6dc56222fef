/** The expiry heap's order: a binary heap on positions with one place out of order. */
module ExpireHeap {

  function Parent(i: nat): (p: nat)
    requires i > 0
    ensures p < i && (i == 2 * p + 1 || i == 2 * p + 2)
  {
    (i - 1) / 2
  }

  predicate Edge(ks: seq<int>, j: nat) {
    0 < j < |ks| ==> ks[Parent(j)] <= ks[j]
  }

  ghost predicate Ordered(ks: seq<int>) {
    forall j: nat :: Edge(ks, j)
  }

  /** Around place i, what is below is not before what is above. */
  predicate Over(ks: seq<int>, i: nat, j: nat) {
    0 < i < j < |ks| && Parent(j) == i ==> ks[Parent(i)] <= ks[j]
  }

  /** Only place i may be out of order. */
  ghost predicate Hole(ks: seq<int>, i: nat) {
    && (forall j: nat :: j != i && (j == 0 || Parent(j) != i) ==> Edge(ks, j))
    && (forall j: nat :: Over(ks, i, j))
  }

  /** ... and only towards its parent. */
  ghost predicate UpHole(ks: seq<int>, i: nat) {
    && (forall j: nat :: j != i ==> Edge(ks, j))
    && (forall j: nat :: Over(ks, i, j))
  }

  function Swapped(ks: seq<int>, i: nat, j: nat): seq<int>
    requires i < |ks| && j < |ks|
  {
    ks[i := ks[j]][j := ks[i]]
  }

  lemma UpStep(ks: seq<int>, i: nat)
    requires UpHole(ks, i) && 0 < i < |ks| && ks[Parent(i)] > ks[i]
    ensures UpHole(Swapped(ks, Parent(i), i), Parent(i))
  {
    var p, s := Parent(i), Swapped(ks, Parent(i), i);
    forall j: nat | j != p ensures Edge(s, j) {
      assert Edge(ks, j) || j == i;
      assert Over(ks, i, j);
    }
    forall j: nat ensures Over(s, p, j) {
      if 0 < p < j < |s| && Parent(j) == p { assert Edge(ks, p) && (j == i || Edge(ks, j)); }
    }
  }

  lemma UpDone(ks: seq<int>, i: nat)
    requires UpHole(ks, i) && Edge(ks, i)
    ensures Ordered(ks)
  {
  }

  lemma DownStep(ks: seq<int>, i: nat, s: nat)
    requires Hole(ks, i) && i < s < |ks| && Parent(s) == i && ks[s] < ks[i]
    requires forall j: nat :: 0 < j < |ks| && Parent(j) == i ==> ks[s] <= ks[j]
    ensures Hole(Swapped(ks, i, s), s) && Edge(Swapped(ks, i, s), s) && Edge(Swapped(ks, i, s), i)
  {
    var t := Swapped(ks, i, s);
    assert Over(ks, i, s);
    assert Edge(t, i);
    forall j: nat | j != s && (j == 0 || Parent(j) != s) ensures Edge(t, j) {
      if 0 < j < |t| && j != i && Parent(j) != i { assert Edge(ks, j); }
    }
    forall j: nat ensures Over(t, s, j) {
      if s < j < |t| && Parent(j) == s { assert Edge(ks, j); }
    }
  }

  /** Nothing below place i comes before it. */
  lemma DownDone(ks: seq<int>, i: nat)
    requires Hole(ks, i) && i < |ks| && forall j: nat :: 0 < j < |ks| && Parent(j) == i ==> ks[i] <= ks[j]
    ensures UpHole(ks, i)
  {
    forall j: nat | j != i ensures Edge(ks, j) {
      if 0 < j < |ks| && Parent(j) == i { assert ks[i] <= ks[j]; } else { assert Edge(ks, j); }
    }
  }

  /** The smaller child that comes before place i, or i. */
  function Smallest(ks: seq<int>, i: nat): (s: nat)
    requires i < |ks|
    ensures i <= s < |ks| && (s != i ==> Parent(s) == i && ks[s] < ks[i])
    ensures forall j: nat :: 0 < j < |ks| && Parent(j) == i ==> ks[s] <= ks[j]
  {
    var l, r := 2 * i + 1, 2 * i + 2;
    var a := if l < |ks| && ks[l] < ks[i] then l else i;
    var s := if r < |ks| && ks[r] < ks[a] then r else a;
    assert forall j: nat :: 0 < j < |ks| && Parent(j) == i ==> j == l || j == r;
    s
  }

  lemma OrderedHole(ks: seq<int>, i: nat)
    requires Ordered(ks)
    ensures UpHole(ks, i)
  {
    forall j: nat ensures Over(ks, i, j) {
      if 0 < i < j < |ks| && Parent(j) == i { assert Edge(ks, i) && Edge(ks, j); }
    }
  }

  /** The root is the least. */
  lemma {:induction false} RootLeast(ks: seq<int>, i: nat)
    requires Ordered(ks) && i < |ks|
    ensures ks[0] <= ks[i]
    decreases i
  {
    if i > 0 {
      assert Edge(ks, i);
      RootLeast(ks, Parent(i));
    }
  }

  /** One more at the end. */
  lemma Pushed(ks: seq<int>, k: int)
    requires Ordered(ks)
    ensures UpHole(ks + [k], |ks|)
  {
    forall j: nat | j != |ks| ensures Edge(ks + [k], j) { assert Edge(ks, j); }
  }

  /** Another key in a place. */
  lemma Rekeyed(ks: seq<int>, i: nat, k: int)
    requires Ordered(ks) && i < |ks|
    ensures Hole(ks[i := k], i)
  {
    var t := ks[i := k];
    forall j: nat | j != i && (j == 0 || Parent(j) != i) ensures Edge(t, j) { assert Edge(ks, j); }
    forall j: nat ensures Over(t, i, j) {
      if 0 < i < j < |t| && Parent(j) == i { assert Edge(ks, i) && Edge(ks, j); }
    }
  }

  /** The last place given up. */
  lemma ShortenedOrdered(ks: seq<int>)
    requires Ordered(ks) && ks != []
    ensures Ordered(ks[..|ks| - 1])
  {
    var t := ks[..|ks| - 1];
    forall j: nat ensures Edge(t, j) { assert Edge(ks, j); }
  }
}
