/** The in-place insertion sort of the scan table (fmr_core.cpp) and what it promises. */
module ScanSort {
  import opened ScanSpec

  datatype Order = Unsorted | Up | Down

  predicate Before(order: Order, x: int, y: int) {
    match order
    case Unsorted => true
    case Up => x <= y
    case Down => x >= y
  }

  ghost predicate Ordered(order: Order, s: seq<Slot>) {
    forall i, j :: 0 <= i < j < |s| ==> Before(order, s[i].rssi, s[j].rssi)
  }

  /** The slots of one signal strength, in sequence order. */
  function ByRssi(s: seq<Slot>, v: int): seq<Slot> {
    if s == [] then []
    else if s[|s| - 1].rssi == v then ByRssi(s[..|s| - 1], v) + [s[|s| - 1]]
    else ByRssi(s[..|s| - 1], v)
  }

  /** t is s ordered by strength, equals kept in place. Says nothing about how it was computed. */
  ghost predicate StableSort(order: Order, s: seq<Slot>, t: seq<Slot>) {
    && (order == Unsorted ==> t == s)
    && Ordered(order, t)
    && SameClasses(s, t)
  }

  lemma {:induction false} ByRssiConcat(s: seq<Slot>, t: seq<Slot>, v: int)
    ensures ByRssi(s + t, v) == ByRssi(s, v) + ByRssi(t, v)
  {
    if t == [] {
      assert s + t == s;
    } else {
      ByRssiConcat(s, t[..|t| - 1], v);
      assert (s + t)[..|s + t| - 1] == s + t[..|t| - 1];
    }
  }

  /** Same slots of every strength, in the same order. */
  ghost predicate SameClasses(s: seq<Slot>, t: seq<Slot>) {
    |s| == |t| && forall v :: ByRssi(s, v) == ByRssi(t, v)
  }

  function Swapped(s: seq<Slot>, j: nat): (t: seq<Slot>)
    requires 0 < j < |s|
    ensures |t| == |s|
  {
    s[j := s[j - 1]][j - 1 := s[j]]
  }

  lemma SwapKeeps(s: seq<Slot>, j: nat)
    requires 0 < j < |s| && s[j - 1].rssi != s[j].rssi
    ensures SameClasses(s, Swapped(s, j))
  {
    var x, y := s[j - 1], s[j];
    var lo, hi := s[..j - 1], s[j + 1..];
    assert s == lo + [x, y] + hi;
    assert Swapped(s, j) == lo + [y, x] + hi;
    forall v ensures ByRssi(s, v) == ByRssi(Swapped(s, j), v) {
      ByRssiConcat(lo + [x, y], hi, v);
      ByRssiConcat(lo, [x, y], v);
      ByRssiConcat(lo + [y, x], hi, v);
      ByRssiConcat(lo, [y, x], v);
      assert [x, y][..1] == [x] && [y, x][..1] == [y];
    }
  }

  /** Elements 0..i are ordered except that the one at j may still belong further left. */
  ghost predicate Inserting(order: Order, s: seq<Slot>, i: nat, j: nat) {
    && j <= i < |s|
    && (forall x, y :: 0 <= x < y <= i && x != j && y != j ==> Before(order, s[x].rssi, s[y].rssi))
    && (forall y :: j < y <= i ==> Before(order, s[j].rssi, s[y].rssi))
  }

  lemma SwapStep(order: Order, s: seq<Slot>, i: nat, j: nat)
    requires order != Unsorted && 0 < j && Inserting(order, s, i, j)
    requires !Before(order, s[j - 1].rssi, s[j].rssi)
    ensures Inserting(order, Swapped(s, j), i, j - 1)
  {
  }

  lemma InsertDone(order: Order, s: seq<Slot>, i: nat, j: nat)
    requires Inserting(order, s, i, j)
    requires j == 0 || Before(order, s[j - 1].rssi, s[j].rssi)
    ensures Ordered(order, s[..i + 1])
  {
    forall x, y | 0 <= x < y <= i ensures Before(order, s[x].rssi, s[y].rssi) {
      if y == j && x < j - 1 {
        assert Before(order, s[x].rssi, s[j - 1].rssi);
      }
    }
  }

  method InsertOne(order: Order, a: array<Slot>, num: nat, i: nat)
    requires order != Unsorted
    requires 0 < i < num <= a.Length
    requires Ordered(order, a[..i])
    modifies a
    ensures Ordered(order, a[..i + 1])
    ensures SameClasses(old(a[..num]), a[..num])
    ensures a[num..] == old(a[num..])
  {
    var j := i;
    assert forall x :: 0 <= x < i ==> a[..num][x] == a[..i][x];
    while j > 0 && (if order == Down then a[j - 1].rssi < a[j].rssi else a[j - 1].rssi > a[j].rssi)
      invariant 0 <= j <= i
      invariant Inserting(order, a[..num], i, j)
      invariant SameClasses(old(a[..num]), a[..num])
      invariant a[num..] == old(a[num..])
    {
      ghost var s := a[..num];
      SwapStep(order, s, i, j);
      SwapKeeps(s, j);
      a[j], a[j - 1] := a[j - 1], a[j];
      assert a[..num] == Swapped(s, j);
      j := j - 1;
    }
    InsertDone(order, a[..num], i, j);
    assert a[..num][..i + 1] == a[..i + 1];
  }

  /** FMR_scan_Channels, sort stage. */
  method SortSlots(order: Order, a: array<Slot>, num: nat)
    requires num <= a.Length
    modifies a
    ensures StableSort(order, old(a[..num]), a[..num])
    ensures a[num..] == old(a[num..])
  {
    if order == Unsorted {
      return;
    }
    var i := 1;
    while i < num
      invariant 1 <= i && (num == 0 || i <= num)
      invariant num > 0 ==> Ordered(order, a[..i])
      invariant SameClasses(old(a[..num]), a[..num])
      invariant a[num..] == old(a[num..])
    {
      InsertOne(order, a, num, i);
      i := i + 1;
    }
    assert num > 0 ==> a[..i] == a[..num];
  }

  lemma {:induction false} CountByRssi(s: seq<Slot>, x: Slot)
    ensures multiset(s)[x] == multiset(ByRssi(s, x.rssi))[x]
  {
    if s != [] {
      var r := s[..|s| - 1];
      CountByRssi(r, x);
      assert s == r + [s[|s| - 1]];
    }
  }

  /** A stable sort is a permutation. */
  lemma StableSortPermutes(order: Order, s: seq<Slot>, t: seq<Slot>)
    requires StableSort(order, s, t)
    ensures multiset(s) == multiset(t)
  {
    forall x ensures multiset(s)[x] == multiset(t)[x] {
      CountByRssi(s, x);
      CountByRssi(t, x);
    }
  }

  lemma LastIsExtreme(order: Order, s: seq<Slot>, t: seq<Slot>)
    requires s != [] && Ordered(order, s) && Ordered(order, t)
    requires SameClasses(s, t)
    ensures t != [] && Before(order, s[|s| - 1].rssi, t[|t| - 1].rssi)
  {
    var v := s[|s| - 1].rssi;
    assert ByRssi(t, v) != [];
    var k := ByRssiHas(t, v);
  }

  lemma {:induction false} ByRssiHas(t: seq<Slot>, v: int) returns (k: nat)
    requires ByRssi(t, v) != []
    ensures k < |t| && t[k].rssi == v
  {
    if t[|t| - 1].rssi == v {
      k := |t| - 1;
    } else {
      k := ByRssiHas(t[..|t| - 1], v);
    }
  }

  /** Order and stability leave no freedom: the sorted table is unique. */
  lemma {:induction false} StableSortUnique(order: Order, s: seq<Slot>, t: seq<Slot>)
    requires order != Unsorted && Ordered(order, s) && Ordered(order, t) && SameClasses(s, t)
    ensures s == t
  {
    if s != [] {
      var n := |s| - 1;
      LastIsExtreme(order, s, t);
      LastIsExtreme(order, t, s);
      var v := s[n].rssi;
      assert ByRssi(s, v) == ByRssi(s[..n], v) + [s[n]];
      assert ByRssi(t, v) == ByRssi(t[..n], v) + [t[n]];
      assert ByRssi(s, v)[|ByRssi(s, v)| - 1] == s[n];
      assert ByRssi(t, v)[|ByRssi(t, v)| - 1] == t[n];
      forall w ensures ByRssi(s[..n], w) == ByRssi(t[..n], w) {
        assert ByRssi(s, w) == ByRssi(t, w);
        if w == v {
          assert ByRssi(s[..n], v) == ByRssi(s, v)[..|ByRssi(s, v)| - 1];
          assert ByRssi(t[..n], v) == ByRssi(t, v)[..|ByRssi(t, v)| - 1];
        }
      }
      StableSortUnique(order, s[..n], t[..n]);
      assert s == s[..n] + [s[n]] && t == t[..n] + [t[n]];
    }
  }

  /** In either order every strength is followed by its like or by weaker ones, going down, or stronger ones,
      going up; equally strong slots keep their places. */
  lemma SortedMeans(order: Order, s: seq<Slot>, t: seq<Slot>, i: nat, j: nat)
    requires StableSort(order, s, t) && i < j < |t|
    ensures order == Up ==> t[i].rssi <= t[j].rssi
    ensures order == Down ==> t[i].rssi >= t[j].rssi
    ensures order == Unsorted ==> t[i] == s[i] && t[j] == s[j]
  {
  }
}
