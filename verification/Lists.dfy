/** Lists without repetition: page lists, free stacks and bucket chains. */
module Lists {

  predicate NoDup<T(==)>(s: seq<T>) {
    s == [] || (s[0] !in s[1..] && NoDup(s[1..]))
  }

  function ToSet<T(!new, ==)>(s: seq<T>): (r: set<T>)
    ensures forall x :: x in r <==> x in s
  {
    if s == [] then {} else {s[0]} + ToSet(s[1..])
  }

  lemma {:induction false} NoDupSet<T(!new)>(s: seq<T>)
    requires NoDup(s)
    ensures |ToSet(s)| == |s|
  {
    if s != [] {
      NoDupSet(s[1..]);
      assert s[0] !in ToSet(s[1..]);
    }
  }

  lemma {:induction false} DistinctNoDup<T>(s: seq<T>)
    requires forall i, j :: 0 <= i < j < |s| ==> s[i] != s[j]
    ensures NoDup(s)
  {
    if s != [] {
      DistinctNoDup(s[1..]);
    }
  }

  lemma SubsetSize<T>(a: set<T>, b: set<T>)
    requires a <= b
    ensures |a| <= |b|
  {
    assert b == a + (b - a);
  }

  /** The list without the first x. */
  function Without<T(!new, ==)>(s: seq<T>, x: T): (r: seq<T>)
    ensures forall y :: y in r ==> y in s
  {
    if s == [] then [] else if s[0] == x then s[1..] else [s[0]] + Without(s[1..], x)
  }

  lemma WithoutAt<T(!new)>(s: seq<T>, i: nat, x: T)
    requires i < |s|
    ensures s[..i] + Without(s[i..], x) ==
      if s[i] == x then s[..i] + s[i + 1..] else s[..i + 1] + Without(s[i + 1..], x)
  {
    assert s[i..][1..] == s[i + 1..] && s[i..][0] == s[i];
    var r := Without(s[i + 1..], x);
    assert s[..i] + ([s[i]] + r) == s[..i + 1] + r;
  }

  lemma WithoutNone<T(!new)>(s: seq<T>, x: T)
    ensures s[..|s|] + Without(s[|s|..], x) == s
  {
    assert s[|s|..] == [];
  }

  lemma {:induction false} WithoutIs<T(!new)>(s: seq<T>, x: T)
    requires NoDup(s)
    ensures NoDup(Without(s, x)) && forall y :: y in Without(s, x) <==> y in s && y != x
  {
    if s != [] && s[0] != x {
      WithoutIs(s[1..], x);
      var r := Without(s[1..], x);
      assert ([s[0]] + r)[1..] == r;
    }
  }
}
