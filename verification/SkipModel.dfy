/** The skip list's memory: nodes with one forward pointer per level, against the list of towers they
    stand for. */
module SkipModel {
  import opened Bytes
  import opened Ordered

  type Ptr = nat

  const NULL: Ptr := 0
  const HEAD: Ptr := 1
  const MAX_LEVEL := 12

  /** A node as the memory holds it. */
  datatype Cell = Cell(kv: Entry, level: nat, fwd: seq<Ptr>)

  /** A node as a tower: where it is, what it stores, how high it is. */
  datatype Tower = Tower(ptr: Ptr, kv: Entry, level: nat)

  type Mem = map<Ptr, Cell>

  /** The first tower from `pos` on that reaches level i. */
  function Idx(ts: seq<Tower>, pos: nat, i: nat): (r: nat)
    requires pos <= |ts|
    ensures pos <= r <= |ts|
    ensures r < |ts| ==> ts[r].level >= i
    ensures forall j :: pos <= j < r ==> ts[j].level < i
    decreases |ts| - pos
  {
    if pos == |ts| || ts[pos].level >= i then pos else Idx(ts, pos + 1, i)
  }

  lemma {:induction false} IdxIs(ts: seq<Tower>, pos: nat, i: nat, r: nat)
    requires pos <= r <= |ts| && (r < |ts| ==> ts[r].level >= i) && forall j :: pos <= j < r ==> ts[j].level < i
    ensures Idx(ts, pos, i) == r
    decreases r - pos
  {
    if pos < r { IdxIs(ts, pos + 1, i, r); }
  }

  /** The last place at or before n that reaches level i; place 0 is the header. */
  function Pred(ts: seq<Tower>, n: nat, i: nat): (r: nat)
    requires n <= |ts| && i <= MAX_LEVEL
    ensures r <= n && Height(ts, r) >= i
    ensures forall j :: r <= j < n ==> ts[j].level < i
  {
    if n == 0 || ts[n - 1].level >= i then n else Pred(ts, n - 1, i)
  }

  lemma {:induction false} PredIs(ts: seq<Tower>, n: nat, i: nat, r: nat)
    requires r <= n <= |ts| && i <= MAX_LEVEL && Height(ts, r) >= i && forall j :: r <= j < n ==> ts[j].level < i
    ensures Pred(ts, n, i) == r
  {
    if r < n { PredIs(ts, n - 1, i, r); }
  }

  function At(ts: seq<Tower>, pos: nat): Ptr
    requires pos <= |ts|
  {
    if pos == 0 then HEAD else ts[pos - 1].ptr
  }

  function Height(ts: seq<Tower>, pos: nat): nat
    requires pos <= |ts|
  {
    if pos == 0 then MAX_LEVEL else ts[pos - 1].level
  }

  /** The address of a tower, NULL past the end. */
  function Addr(ts: seq<Tower>, r: nat): Ptr
    requires r <= |ts|
  {
    if r == |ts| then NULL else ts[r].ptr
  }

  function Ptrs(ts: seq<Tower>): (r: set<Ptr>)
    ensures forall t :: t in ts ==> t.ptr in r
  {
    if ts == [] then {} else {ts[0].ptr} + Ptrs(ts[1..])
  }

  predicate CellOk(mem: Mem, t: Tower) {
    && t.ptr in mem && t.ptr > HEAD && mem[t.ptr].kv == t.kv && mem[t.ptr].level == t.level <= MAX_LEVEL
    && |mem[t.ptr].fwd| == t.level + 1
  }

  /** Every tower has its cell, and no two towers the same one. */
  ghost predicate CellsOk(mem: Mem, ts: seq<Tower>) {
    && HEAD in mem && |mem[HEAD].fwd| == MAX_LEVEL + 1
    && (forall j :: 0 <= j < |ts| ==> CellOk(mem, ts[j]))
    && (forall j, k :: 0 <= j < k < |ts| ==> ts[j].ptr != ts[k].ptr)
  }

  lemma PlaceOk(mem: Mem, ts: seq<Tower>, pos: nat)
    requires CellsOk(mem, ts) && pos <= |ts|
    ensures At(ts, pos) in mem && |mem[At(ts, pos)].fwd| == Height(ts, pos) + 1 && Height(ts, pos) <= MAX_LEVEL
  {
    if pos > 0 { assert CellOk(mem, ts[pos - 1]); }
  }

  /** The forward pointer at a place and level is the next tower that high. */
  ghost predicate LinkOk(mem: Mem, ts: seq<Tower>, i: nat, pos: nat) {
    && pos <= |ts| && At(ts, pos) in mem && i < |mem[At(ts, pos)].fwd|
    && mem[At(ts, pos)].fwd[i] == Addr(ts, Idx(ts, pos, i))
  }

  ghost predicate LevelOk(mem: Mem, ts: seq<Tower>, i: nat) {
    forall pos: nat :: pos <= |ts| && Height(ts, pos) >= i ==> LinkOk(mem, ts, i, pos)
  }

  ghost predicate AllOk(mem: Mem, ts: seq<Tower>) {
    CellsOk(mem, ts) && forall i: nat :: i <= MAX_LEVEL ==> LevelOk(mem, ts, i)
  }

  // ---------------------------------------------------------------- one tower more

  function Grown(ts: seq<Tower>, n: nat, t: Tower): seq<Tower>
    requires n <= |ts|
  {
    ts[..n] + [t] + ts[n..]
  }

  /** Where a place of the shorter list is in the longer one. */
  function Shift(n: nat, pos: nat): nat {
    if pos <= n then pos else pos + 1
  }

  lemma ShiftAt(ts: seq<Tower>, n: nat, t: Tower, pos: nat)
    requires n <= |ts| && pos <= |ts|
    ensures var g := Grown(ts, n, t); At(g, Shift(n, pos)) == At(ts, pos) && Height(g, Shift(n, pos)) == Height(ts, pos)
    ensures At(Grown(ts, n, t), n + 1) == t.ptr && Height(Grown(ts, n, t), n + 1) == t.level
  {
  }

  /** The next tower at a level that the new one does not reach. */
  lemma IdxLow(ts: seq<Tower>, n: nat, t: Tower, i: nat, pos: nat)
    requires n <= |ts| && pos <= |ts| && t.level < i
    ensures Addr(Grown(ts, n, t), Idx(Grown(ts, n, t), Shift(n, pos), i)) == Addr(ts, Idx(ts, pos, i))
  {
    var g, r := Grown(ts, n, t), Idx(ts, pos, i);
    var r' := if r < n then r else r + 1;
    forall j | Shift(n, pos) <= j < r' ensures g[j].level < i {
      if j != n { assert g[j] == ts[if j < n then j else j - 1]; }
    }
    IdxIs(g, Shift(n, pos), i, r');
  }

  /** ... and at one it reaches: the place before it is now followed by it. */
  lemma IdxHigh(ts: seq<Tower>, n: nat, t: Tower, i: nat, pos: nat)
    requires n <= |ts| && pos <= |ts| && t.level >= i && i <= MAX_LEVEL && Height(ts, pos) >= i
    ensures var g := Grown(ts, n, t);
      Addr(g, Idx(g, Shift(n, pos), i)) == if pos == Pred(ts, n, i) then t.ptr else Addr(ts, Idx(ts, pos, i))
  {
    var g, p := Grown(ts, n, t), Pred(ts, n, i);
    if pos == p {
      forall j | pos <= j < n ensures g[j].level < i { assert g[j] == ts[j]; }
      IdxIs(g, pos, i, n);
    } else if pos < p {
      IdxBefore(ts, n, t, i, pos, p);
    } else {
      assert pos > n;
      IdxAfter(ts, n, t, i, pos);
    }
  }

  lemma IdxBefore(ts: seq<Tower>, n: nat, t: Tower, i: nat, pos: nat, p: nat)
    requires pos < p <= n <= |ts| && Height(ts, p) >= i
    ensures var g := Grown(ts, n, t); Addr(g, Idx(g, pos, i)) == Addr(ts, Idx(ts, pos, i))
  {
    var g, r := Grown(ts, n, t), Idx(ts, pos, i);
    assert ts[p - 1].level >= i;
    assert r <= p - 1;
    forall j | pos <= j < r ensures g[j].level < i { assert g[j] == ts[j]; }
    IdxIs(g, pos, i, r);
  }

  lemma IdxAfter(ts: seq<Tower>, n: nat, t: Tower, i: nat, pos: nat)
    requires n <= pos <= |ts|
    ensures var g := Grown(ts, n, t); Addr(g, Idx(g, pos + 1, i)) == Addr(ts, Idx(ts, pos, i))
  {
    var g, r := Grown(ts, n, t), Idx(ts, pos, i);
    forall j | pos + 1 <= j < r + 1 ensures g[j].level < i { assert g[j] == ts[j - 1]; }
    IdxIs(g, pos + 1, i, r + 1);
  }

  /** What follows the new tower is what followed the place before it. */
  lemma IdxNew(ts: seq<Tower>, n: nat, t: Tower, i: nat)
    requires n <= |ts| && t.level >= i && i <= MAX_LEVEL
    ensures var g := Grown(ts, n, t); Addr(g, Idx(g, n + 1, i)) == Addr(ts, Idx(ts, Pred(ts, n, i), i))
  {
    IdxSkips(ts, Pred(ts, n, i), n, i);
    IdxAfter(ts, n, t, i, n);
  }

  lemma {:induction false} IdxSkips(ts: seq<Tower>, p: nat, n: nat, i: nat)
    requires p <= n <= |ts| && forall j :: p <= j < n ==> ts[j].level < i
    ensures Idx(ts, p, i) == Idx(ts, n, i)
    decreases n - p
  {
    if p < n { IdxSkips(ts, p + 1, n, i); }
  }

  /** A place of the longer list is the new tower's or one of the shorter list's. */
  function Unshift(n: nat, pos: nat): nat
    requires pos != n + 1
    ensures Shift(n, Unshift(n, pos)) == pos
  {
    if pos <= n then pos else pos - 1
  }

  /** Levels above a tower are the same with and without it. */
  lemma LevelAbove(mem: Mem, ts: seq<Tower>, n: nat, t: Tower, i: nat)
    requires n <= |ts| && t.level < i
    ensures LevelOk(mem, ts, i) <==> LevelOk(mem, Grown(ts, n, t), i)
  {
    hide Grown, Idx, Addr;
    var g := Grown(ts, n, t);
    GrownSize(ts, n, t);
    if LevelOk(mem, ts, i) {
      forall pos: nat | pos <= |g| && Height(g, pos) >= i ensures LinkOk(mem, g, i, pos) {
        ShiftAt(ts, n, t, 0);
        var was := Unshift(n, pos);
        ShiftAt(ts, n, t, was);
        IdxLow(ts, n, t, i, was);
        assert LinkOk(mem, ts, i, was);
      }
    }
    if LevelOk(mem, g, i) {
      forall pos: nat | pos <= |ts| && Height(ts, pos) >= i ensures LinkOk(mem, ts, i, pos) {
        ShiftAt(ts, n, t, pos);
        IdxLow(ts, n, t, i, pos);
        assert LinkOk(mem, g, i, Shift(n, pos));
      }
    }
  }

  lemma GrownSize(ts: seq<Tower>, n: nat, t: Tower)
    requires n <= |ts|
    ensures |Grown(ts, n, t)| == |ts| + 1
  {
  }

  /** The two memories have the same pointers at level i, except for two cells. */
  ghost predicate SameLevel(mem: Mem, mem': Mem, i: nat, p: Ptr, q: Ptr) {
    forall x :: x in mem && x != p && x != q && i < |mem[x].fwd| ==>
      x in mem' && i < |mem'[x].fwd| && mem'[x].fwd[i] == mem[x].fwd[i]
  }

  /** Linking a tower in at one level. */
  lemma LevelLinked(mem: Mem, mem': Mem, ts: seq<Tower>, n: nat, t: Tower, i: nat)
    requires n <= |ts| && i <= t.level && i <= MAX_LEVEL && CellsOk(mem, Grown(ts, n, t)) && LevelOk(mem, ts, i)
    requires var u := At(ts, Pred(ts, n, i));
      && u in mem && u in mem' && i < |mem[u].fwd| && i < |mem'[u].fwd| && t.ptr in mem' && i < |mem'[t.ptr].fwd|
      && mem'[u].fwd[i] == t.ptr && mem'[t.ptr].fwd[i] == mem[u].fwd[i] && SameLevel(mem, mem', i, u, t.ptr)
    ensures LevelOk(mem', Grown(ts, n, t), i)
  {
    hide Grown, Idx, Addr, Pred;
    var g, p := Grown(ts, n, t), Pred(ts, n, i);
    GrownSize(ts, n, t);
    forall pos: nat | pos <= |g| && Height(g, pos) >= i ensures LinkOk(mem', g, i, pos) {
      if pos == n + 1 {
        ShiftAt(ts, n, t, p);
        IdxNew(ts, n, t, i);
        assert LinkOk(mem, ts, i, p);
      } else {
        var was := Unshift(n, pos);
        ShiftAt(ts, n, t, was);
        ShiftAt(ts, n, t, p);
        IdxHigh(ts, n, t, i, was);
        assert LinkOk(mem, ts, i, was);
        PlacesApart(mem, g, pos, n + 1);
        if was != p { PlacesApart(mem, g, pos, Shift(n, p)); }
      }
    }
  }

  /** Unlinking it again. */
  lemma LevelUnlinked(mem: Mem, mem': Mem, ts: seq<Tower>, n: nat, t: Tower, i: nat)
    requires n <= |ts| && i <= t.level && i <= MAX_LEVEL
    requires CellsOk(mem, Grown(ts, n, t)) && LevelOk(mem, Grown(ts, n, t), i)
    requires var u := At(ts, Pred(ts, n, i));
      && u in mem && u in mem' && i < |mem[u].fwd| && i < |mem'[u].fwd| && t.ptr in mem && i < |mem[t.ptr].fwd|
      && mem'[u].fwd[i] == mem[t.ptr].fwd[i] && SameLevel(mem, mem', i, u, t.ptr)
    ensures LevelOk(mem', ts, i)
  {
    hide Grown, Idx, Addr, Pred;
    var g, p := Grown(ts, n, t), Pred(ts, n, i);
    GrownSize(ts, n, t);
    forall pos: nat | pos <= |ts| && Height(ts, pos) >= i ensures LinkOk(mem', ts, i, pos) {
      ShiftAt(ts, n, t, pos);
      ShiftAt(ts, n, t, p);
      IdxHigh(ts, n, t, i, pos);
      assert LinkOk(mem, g, i, Shift(n, pos));
      if pos == p {
        IdxNew(ts, n, t, i);
        assert LinkOk(mem, g, i, n + 1);
      } else {
        PlacesApart(mem, g, Shift(n, pos), n + 1);
        PlacesApart(mem, g, Shift(n, pos), Shift(n, p));
      }
    }
  }

  lemma PlacesApart(mem: Mem, ts: seq<Tower>, a: nat, b: nat)
    requires CellsOk(mem, ts) && a <= |ts| && b <= |ts| && a != b
    ensures At(ts, a) != At(ts, b)
  {
    if a > 0 { assert CellOk(mem, ts[a - 1]); }
    if b > 0 { assert CellOk(mem, ts[b - 1]); }
  }

  ghost predicate KeptAt(mem: Mem, mem': Mem, i: nat) {
    forall x :: x in mem && i < |mem[x].fwd| ==> x in mem' && i < |mem'[x].fwd| && mem'[x].fwd[i] == mem[x].fwd[i]
  }

  /** A level nothing was written at. */
  lemma LevelKept(mem: Mem, mem': Mem, ts: seq<Tower>, i: nat)
    requires LevelOk(mem, ts, i) && KeptAt(mem, mem', i)
    ensures LevelOk(mem', ts, i)
  {
    forall pos: nat | pos <= |ts| && Height(ts, pos) >= i ensures LinkOk(mem', ts, i, pos) {
      assert LinkOk(mem, ts, i, pos);
    }
  }

  // ---------------------------------------------------------------- contents

  ghost function Entries(ts: seq<Tower>): (s: seq<Entry>)
    ensures |s| == |ts| && forall i :: 0 <= i < |s| ==> s[i] == ts[i].kv
  {
    seq(|ts|, i requires 0 <= i < |ts| => ts[i].kv)
  }

  /** The number of keys before `key`. */
  function Slot(ts: seq<Tower>, key: bytes): (n: nat)
    ensures n <= |ts|
  {
    if ts == [] || !Less(ts[0].kv.key, key) then 0 else 1 + Slot(ts[1..], key)
  }

  lemma {:induction false} SlotSplits(ts: seq<Tower>, key: bytes, j: nat)
    requires Sorted(Entries(ts)) && j < |ts|
    ensures Less(ts[j].kv.key, key) <==> j < Slot(ts, key)
  {
    var s := Entries(ts);
    if !Less(ts[0].kv.key, key) {
      if Less(ts[j].kv.key, key) && j > 0 {
        assert Less(s[0].key, s[j].key);
        LessTrans(s[0].key, s[j].key, key);
      }
    } else if j > 0 {
      SortedTail(ts);
      SlotSplits(ts[1..], key, j - 1);
    }
  }

  lemma SortedTail(ts: seq<Tower>)
    requires Sorted(Entries(ts)) && ts != []
    ensures Sorted(Entries(ts[1..]))
  {
    var s, r := Entries(ts), Entries(ts[1..]);
    forall i, j | 0 <= i < j < |r| ensures Less(r[i].key, r[j].key) {
      assert r[i] == s[i + 1] && r[j] == s[j + 1];
    }
  }
}
