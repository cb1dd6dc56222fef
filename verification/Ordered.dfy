/** Keys in `strcmp` order, and sorted entry lists as maps. */
module Ordered {
  import opened Bytes

  datatype Entry = Entry(key: bytes, val: bytes)

  /** `strcmp(a, b) < 0` on strings without a NUL: bytes compare unsigned, a prefix comes first. */
  predicate Less(a: bytes, b: bytes)
    decreases |b|
  {
    b != [] && (a == [] || a[0] < b[0] || (a[0] == b[0] && Less(a[1..], b[1..])))
  }

  lemma {:induction false} LessTrans(a: bytes, b: bytes, c: bytes)
    requires Less(a, b) && Less(b, c)
    ensures Less(a, c)
    decreases |c|
  {
    if a != [] && a[0] == b[0] && b[0] == c[0] {
      LessTrans(a[1..], b[1..], c[1..]);
    }
  }

  lemma {:induction false} LessTotal(a: bytes, b: bytes)
    ensures Less(a, b) || a == b || Less(b, a)
    decreases |b|
  {
    if a != [] && b != [] && a[0] == b[0] {
      LessTotal(a[1..], b[1..]);
      assert a[1..] == b[1..] ==> a == [a[0]] + a[1..] && b == [b[0]] + b[1..];
    }
  }

  lemma {:induction false} LessStrict(a: bytes, b: bytes)
    requires Less(a, b)
    ensures a != b && !Less(b, a)
    decreases |b|
  {
    if a != [] && a[0] == b[0] {
      LessStrict(a[1..], b[1..]);
    }
  }

  /** `strcmp`: the first difference decides, the end of a string counting as less than any byte. */
  method StrCmp(a: bytes, b: bytes) returns (r: int)
    ensures r < 0 <==> Less(a, b)
    ensures r == 0 <==> a == b
    ensures r > 0 <==> Less(b, a)
  {
    var i := 0;
    assert a[0..] == a && b[0..] == b;
    while i < |a| && i < |b| && a[i] == b[i]
      invariant i <= |a| && i <= |b| && a[..i] == b[..i]
      invariant Less(a, b) == Less(a[i..], b[i..]) && Less(b, a) == Less(b[i..], a[i..])
    {
      assert a[i..][1..] == a[i + 1..] && b[i..][1..] == b[i + 1..];
      i := i + 1;
    }
    var x: int := if i < |a| then a[i] else -1;
    var y: int := if i < |b| then b[i] else -1;
    r := x - y;
    assert a == a[..i] + a[i..] && b == b[..i] + b[i..];
    if a == b { LessTotal(a, b); assert a[i..] == []; }
  }

  // ---------------------------------------------------------------- sorted lists

  ghost predicate Sorted(s: seq<Entry>) {
    forall i, j :: 0 <= i < j < |s| ==> Less(s[i].key, s[j].key)
  }

  ghost predicate AllLess(s: seq<Entry>, key: bytes) {
    forall i :: 0 <= i < |s| ==> Less(s[i].key, key)
  }

  ghost predicate AllMore(s: seq<Entry>, key: bytes) {
    forall i :: 0 <= i < |s| ==> Less(key, s[i].key)
  }

  function ToMap(s: seq<Entry>): map<bytes, bytes> {
    if s == [] then map[] else ToMap(s[1..])[s[0].key := s[0].val]
  }

  lemma {:induction false} ToMapKeys(s: seq<Entry>)
    ensures forall k :: k in ToMap(s) <==> exists i :: 0 <= i < |s| && s[i].key == k
  {
    if s != [] {
      ToMapKeys(s[1..]);
      forall k ensures k in ToMap(s) <==> exists i :: 0 <= i < |s| && s[i].key == k {
        if k in ToMap(s) {
          if k == s[0].key {
          } else {
            var i :| 0 <= i < |s[1..]| && s[1..][i].key == k;
            assert s[i + 1].key == k;
          }
        }
        if i :| 0 <= i < |s| && s[i].key == k {
          if i > 0 { assert s[1..][i - 1].key == k; }
        }
      }
    }
  }

  /** An entry between smaller and larger keys: what the list is with and without it. */
  lemma {:induction false} ToMapMiddle(a: seq<Entry>, e: Entry, b: seq<Entry>)
    requires AllLess(a, e.key) && AllMore(b, e.key)
    ensures ToMap(a + [e] + b) == ToMap(a + b)[e.key := e.val]
    ensures e.key !in ToMap(a + b)
    ensures ToMap(a + b) == ToMap(a + [e] + b) - {e.key}
  {
    AbsentKey(a + b, e.key);
    if a == [] {
      assert a + [e] + b == [e] + b && a + b == b;
      assert ([e] + b)[1..] == b;
    } else {
      assert (a + [e] + b)[1..] == a[1..] + [e] + b && (a + b)[1..] == a[1..] + b;
      ToMapMiddle(a[1..], e, b);
      LessStrict(a[0].key, e.key);
    }
  }

  lemma AbsentKey(s: seq<Entry>, key: bytes)
    requires forall i :: 0 <= i < |s| ==> Less(s[i].key, key) || Less(key, s[i].key)
    ensures key !in ToMap(s)
  {
    ToMapKeys(s);
    forall i | 0 <= i < |s| ensures s[i].key != key {
      if Less(s[i].key, key) { LessStrict(s[i].key, key); } else { LessStrict(key, s[i].key); }
    }
  }

  /** Around any entry of a sorted list. */
  lemma SortedAround(a: seq<Entry>, e: Entry, b: seq<Entry>)
    requires Sorted(a + [e] + b)
    ensures AllLess(a, e.key) && AllMore(b, e.key) && Sorted(a + b)
  {
    var s := a + [e] + b;
    assert s[|a|] == e;
    forall i | 0 <= i < |a| ensures Less(a[i].key, e.key) { assert s[i] == a[i]; }
    forall i | 0 <= i < |b| ensures Less(e.key, b[i].key) { assert s[|a| + 1 + i] == b[i]; }
    forall i, j | 0 <= i < j < |a + b| ensures Less((a + b)[i].key, (a + b)[j].key) {
      assert (a + b)[i] == s[if i < |a| then i else i + 1];
      assert (a + b)[j] == s[if j < |a| then j else j + 1];
    }
  }

  lemma SortedInsert(a: seq<Entry>, e: Entry, b: seq<Entry>)
    requires Sorted(a + b) && AllLess(a, e.key) && AllMore(b, e.key)
    ensures Sorted(a + [e] + b)
  {
    var s := a + [e] + b;
    forall i, j | 0 <= i < j < |s| ensures Less(s[i].key, s[j].key) {
      if i != |a| && j != |a| {
        assert s[i] == (a + b)[if i < |a| then i else i - 1];
        assert s[j] == (a + b)[if j < |a| then j else j - 1];
      }
    }
  }

  /** Another value for an entry's key. */
  lemma ToMapReplace(a: seq<Entry>, e: Entry, val: bytes, b: seq<Entry>)
    requires Sorted(a + [e] + b)
    ensures Sorted(a + [Entry(e.key, val)] + b)
    ensures ToMap(a + [Entry(e.key, val)] + b) == ToMap(a + [e] + b)[e.key := val]
    ensures e.key in ToMap(a + [e] + b) && ToMap(a + [e] + b)[e.key] == e.val
  {
    SortedAround(a, e, b);
    SortedInsert(a, Entry(e.key, val), b);
    ToMapMiddle(a, e, b);
    ToMapMiddle(a, Entry(e.key, val), b);
  }
}
