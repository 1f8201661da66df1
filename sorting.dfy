/** Sorting as the beacon uses it: Go's sort.Slice and sort.Strings reorder a
  * slice in place by a "less" comparator. The model sorts an array in place
  * by insertion and promises what sort.Slice promises: the result is a
  * rearrangement of the input, and when the comparator is a strict weak
  * order on the elements, no element is less than one before it. */
module Sorting {

  /** No element is strictly less than an earlier one. */
  ghost predicate SortedBy<T>(s: seq<T>, less: (T, T) -> bool)
  {
    forall i, j :: 0 <= i < j < |s| ==> !less(s[j], s[i])
  }

  /** The comparator is a strict weak order on the elements of s: it is
    * asymmetric, and "not less" is transitive. */
  ghost predicate StrictWeakOn<T>(s: set<T>, less: (T, T) -> bool)
  {
    (forall x, y :: x in s && y in s && less(x, y) ==> !less(y, x)) &&
    (forall x, y, z :: x in s && y in s && z in s && !less(y, x) && !less(z, y) ==> !less(z, x))
  }

  /** Insertion sort in place (a stand-in for sort.Slice, which fixes no
    * order among equivalent elements; this model keeps them stable). */
  method InsertionSort<T(==)>(a: array<T>, less: (T, T) -> bool)
    modifies a
    ensures multiset(a[..]) == multiset(old(a[..]))
    ensures StrictWeakOn((set x | x in old(a[..])), less) ==> SortedBy(a[..], less)
  {
    ghost var elems := set x | x in a[..];
    ghost var sw := StrictWeakOn(elems, less);
    if a.Length == 0 {
      return;
    }
    var i := 1;
    while i < a.Length
      invariant 1 <= i <= a.Length
      invariant multiset(a[..]) == multiset(old(a[..]))
      invariant forall k :: 0 <= k < a.Length ==> a[k] in elems
      invariant sw ==> SortedBy(a[..i], less)
    {
      InsertOne(a, i, less, elems, sw);
      i := i + 1;
    }
    assert a[..] == a[..a.Length];
  }

  /** Moves a[i] left into the sorted prefix a[..i]. */
  method InsertOne<T(==)>(a: array<T>, i: int, less: (T, T) -> bool, ghost elems: set<T>, ghost sw: bool)
    requires 1 <= i < a.Length
    requires forall k :: 0 <= k < a.Length ==> a[k] in elems
    requires sw ==> StrictWeakOn(elems, less)
    requires sw ==> SortedBy(a[..i], less)
    modifies a
    ensures multiset(a[..]) == multiset(old(a[..]))
    ensures forall k :: 0 <= k < a.Length ==> a[k] in elems
    ensures sw ==> SortedBy(a[..i + 1], less)
  {
    var j := i;
    MovingStart(a[..], i, less, elems, sw);
    while j > 0 && less(a[j], a[j - 1])
      invariant 0 <= j <= i
      invariant multiset(a[..]) == multiset(old(a[..]))
      invariant Moving(a[..], i, j, less, elems, sw)
    {
      SwapLeft(a, i, j, less, elems, sw);
      j := j - 1;
    }
    if sw {
      InsertedIsSorted(a[..], i, j, less, elems);
      assert a[..][..i + 1] == a[..i + 1];
    }
  }

  /** The state of the insertion while the element moves left from i to j:
    * every element is in elems, and, for a strict weak order, the prefix up
    * to i is ordered apart from position j, whose element is less than
    * everything after it. */
  ghost predicate Moving<T>(s: seq<T>, i: int, j: int, less: (T, T) -> bool, elems: set<T>, sw: bool)
  {
    && 0 <= j <= i < |s|
    && (forall k :: 0 <= k < |s| ==> s[k] in elems)
    && (sw ==> forall p, q :: 0 <= p < q <= i && p != j && q != j ==> !less(s[q], s[p]))
    && (sw ==> forall q :: j < q <= i ==> less(s[j], s[q]))
  }

  /** Before the first step the element at i has not moved, and the prefix
    * before it is ordered. */
  lemma MovingStart<T>(s: seq<T>, i: int, less: (T, T) -> bool, elems: set<T>, sw: bool)
    requires 1 <= i < |s|
    requires forall k :: 0 <= k < |s| ==> s[k] in elems
    requires sw ==> SortedBy(s[..i], less)
    ensures Moving(s, i, i, less, elems, sw)
  {
    if sw {
      forall p, q | 0 <= p < q <= i && p != i && q != i
        ensures !less(s[q], s[p])
      {
        assert s[q] == s[..i][q] && s[p] == s[..i][p];
      }
    }
  }

  /** One step left: swap the moving element with its larger neighbour. */
  method SwapLeft<T>(a: array<T>, i: int, j: int, less: (T, T) -> bool, ghost elems: set<T>, ghost sw: bool)
    requires 0 < j && Moving(a[..], i, j, less, elems, sw) && less(a[j], a[j - 1])
    modifies a
    ensures multiset(a[..]) == multiset(old(a[..]))
    ensures Moving(a[..], i, j - 1, less, elems, sw)
  {
    ghost var s := a[..];
    SwapAdjacent(a, j);
    if sw {
      SwapKeepsOrder(s, a[..], i, j, less);
    }
    forall k | 0 <= k < a.Length ensures a[..][k] in elems {
      assert k == j - 1 ==> a[..][k] == s[j];
      assert k == j ==> a[..][k] == s[j - 1];
      assert k != j - 1 && k != j ==> a[..][k] == s[k];
    }
  }

  method SwapAdjacent<T>(a: array<T>, j: int)
    requires 0 < j < a.Length
    modifies a
    ensures a[..] == old(a[..])[j - 1 := old(a[j])][j := old(a[j - 1])]
    ensures multiset(a[..]) == multiset(old(a[..]))
  {
    a[j - 1], a[j] := a[j], a[j - 1];
  }

  /** One step of the insertion: swapping the moving element with its
    * larger left neighbour keeps the rest of the prefix ordered. */
  lemma SwapKeepsOrder<T>(s: seq<T>, t: seq<T>, i: int, j: int, less: (T, T) -> bool)
    requires 0 < j <= i < |s|
    requires t == s[j - 1 := s[j]][j := s[j - 1]]
    requires less(s[j], s[j - 1])
    requires forall p, q :: 0 <= p < q <= i && p != j && q != j ==> !less(s[q], s[p])
    requires forall q :: j < q <= i ==> less(s[j], s[q])
    ensures forall p, q :: 0 <= p < q <= i && p != j - 1 && q != j - 1 ==> !less(t[q], t[p])
    ensures forall q :: j - 1 < q <= i ==> less(t[j - 1], t[q])
  {
    forall p, q | 0 <= p < q <= i && p != j - 1 && q != j - 1
      ensures !less(t[q], t[p])
    {
      if p == j {
        assert t[p] == s[j - 1] && t[q] == s[q];
      } else if q == j {
        assert t[p] == s[p] && t[q] == s[j - 1];
      } else {
        assert t[p] == s[p] && t[q] == s[q];
      }
    }
  }

  lemma InsertedIsSorted<T>(s: seq<T>, i: int, j: int, less: (T, T) -> bool, elems: set<T>)
    requires 0 <= j <= i < |s|
    requires forall k :: 0 <= k < |s| ==> s[k] in elems
    requires StrictWeakOn(elems, less)
    requires forall p, q :: 0 <= p < q <= i && p != j && q != j ==> !less(s[q], s[p])
    requires forall q :: j < q <= i ==> less(s[j], s[q])
    requires j == 0 || !less(s[j], s[j - 1])
    ensures SortedBy(s[..i + 1], less)
  {
    forall p, q | 0 <= p < q <= i ensures !less(s[q], s[p]) {
      if q == j {
        if p < j - 1 {
          assert s[p] in elems && s[j - 1] in elems && s[j] in elems;
          assert !less(s[j - 1], s[p]);
        }
      } else if p == j {
        assert s[p] in elems && s[q] in elems;
      }
    }
  }

  /** In a sorted sequence without repeated elements, under a strict weak
    * order whose equivalent elements are equal, every element is strictly
    * less than every later one. */
  lemma SortedDistinctAscending<T>(s: seq<T>, less: (T, T) -> bool)
    requires SortedBy(s, less)
    requires forall x :: multiset(s)[x] <= 1
    requires forall x, y :: x in s && y in s && x != y ==> less(x, y) || less(y, x)
    ensures forall i, j :: 0 <= i < j < |s| ==> less(s[i], s[j])
  {
    forall i, j | 0 <= i < j < |s| ensures less(s[i], s[j]) {
      DistinctAt(s, i, j);
      assert s[i] in s && s[j] in s;
    }
  }

  lemma DistinctAt<T>(s: seq<T>, i: int, j: int)
    requires 0 <= i < j < |s|
    requires forall x :: multiset(s)[x] <= 1
    ensures s[i] != s[j]
  {
    assert s == s[..i] + [s[i]] + s[i + 1..j] + [s[j]] + s[j + 1..];
    assert multiset(s)[s[j]] >= multiset([s[i]])[s[j]] + multiset([s[j]])[s[j]];
  }

  /** A sequence without repeats holds each element at most once. */
  lemma {:induction false} DistinctCounts<T>(s: seq<T>)
    requires forall i, j :: 0 <= i < j < |s| ==> s[i] != s[j]
    ensures forall x :: multiset(s)[x] <= 1
    decreases |s|
  {
    if |s| > 0 {
      var s' := s[..|s| - 1];
      DistinctCounts(s');
      assert s == s' + [s[|s| - 1]];
      assert s[|s| - 1] !in s' by {
        forall i | 0 <= i < |s'| ensures s'[i] != s[|s| - 1] {
          assert s'[i] == s[i];
        }
      }
    }
  }

  /** The keys of a Go map, in whichever order its iteration yields them. */
  method KeysOf<T(==)>(keys: set<T>) returns (r: seq<T>)
    ensures forall x :: x in r <==> x in keys
    ensures forall i, j :: 0 <= i < j < |r| ==> r[i] != r[j]
  {
    r := [];
    var rest := keys;
    while rest != {}
      invariant forall x :: x in keys <==> x in r || x in rest
      invariant forall x :: x in r ==> x !in rest
      invariant forall i, j :: 0 <= i < j < |r| ==> r[i] != r[j]
      decreases |rest|
    {
      var x :| x in rest;
      r := r + [x];
      rest := rest - {x};
    }
  }

  /** Sorting a list without repeats by a comparator that is a strict weak
    * order ranking every two different elements: the result lists the same
    * elements in strictly ascending order. */
  method SortDistinct<T(==)>(ks: seq<T>, less: (T, T) -> bool) returns (r: seq<T>)
    requires forall i, j :: 0 <= i < j < |ks| ==> ks[i] != ks[j]
    requires StrictWeakOn((set x | x in ks), less)
    requires forall x, y :: x in ks && y in ks && x != y ==> less(x, y) || less(y, x)
    ensures multiset(r) == multiset(ks)
    ensures forall i, j :: 0 <= i < j < |r| ==> less(r[i], r[j])
  {
    var a := new T[|ks|](i requires 0 <= i < |ks| => ks[i]);
    assert a[..] == ks;
    InsertionSort(a, less);
    r := a[..];
    DistinctCounts(ks);
    forall x, y | x in r && y in r && x != y ensures less(x, y) || less(y, x) {
      assert x in multiset(ks) && y in multiset(ks);
    }
    SortedDistinctAscending(r, less);
  }

  // ---------------------------------------------------------------------
  // Go's string order: byte-wise lexicographic comparison

  predicate LexLess(a: string, b: string)
  {
    if |a| == 0 then |b| > 0
    else if |b| == 0 then false
    else if a[0] != b[0] then a[0] < b[0]
    else LexLess(a[1..], b[1..])
  }

  lemma {:induction false} LexLessIrreflexive(a: string)
    ensures !LexLess(a, a)
    decreases |a|
  {
    if |a| > 0 {
      LexLessIrreflexive(a[1..]);
    }
  }

  lemma {:induction false} LexLessTransitive(a: string, b: string, c: string)
    requires LexLess(a, b) && LexLess(b, c)
    ensures LexLess(a, c)
    decreases |a|
  {
    if |a| > 0 && |b| > 0 && |c| > 0 && a[0] == b[0] && b[0] == c[0] {
      LexLessTransitive(a[1..], b[1..], c[1..]);
    }
  }

  /** Two different strings are always ordered one way or the other. */
  lemma {:induction false} LexLessTotal(a: string, b: string)
    requires a != b
    ensures LexLess(a, b) || LexLess(b, a)
    decreases |a|
  {
    if |a| > 0 && |b| > 0 && a[0] == b[0] {
      LexLessTotal(a[1..], b[1..]);
    }
  }

  lemma LexLessAsymmetric(a: string, b: string)
    requires LexLess(a, b)
    ensures !LexLess(b, a)
  {
    if LexLess(b, a) {
      LexLessTransitive(a, b, a);
      LexLessIrreflexive(a);
    }
  }

  /** sort.Strings' comparator. */
  function ByString(): (string, string) -> bool
  {
    (x: string, y: string) => LexLess(x, y)
  }

  /** The string order is a strict weak order on any set of strings. */
  lemma LexStrictWeak(s: set<string>)
    ensures StrictWeakOn(s, ByString())
  {
    var less := ByString();
    forall x, y | x in s && y in s && less(x, y) ensures !less(y, x) {
      LexLessAsymmetric(x, y);
    }
    forall x, y, z | x in s && y in s && z in s && !less(y, x) && !less(z, y) ensures !less(z, x) {
      if LexLess(z, x) {
        if x == y {
        } else if y == z {
        } else {
          LexLessTotal(x, y);
          LexLessTotal(y, z);
          LexLessTransitive(x, y, z);
          LexLessAsymmetric(z, x);
        }
      }
    }
  }
}
