/**
 * `data.sort(comparator)` for the two sort keys the page offers. JavaScript's
 * sort is stable, so the result is fixed by the comparator: `SortBy` computes it
 * by insertion, and `StableSortUnique` shows that any sorted, stable
 * rearrangement is that same sequence.
 */
module Sorting {
  import opened Seqs
  import opened Directory

  datatype Order = ByFees | ByExperience

  /** The page's comparators: `a.fees - b.fees` and `b.experience - a.experience`. */
  function Compare(o: Order, a: Doctor, b: Doctor): int
  {
    match o
    case ByFees => a.fees - b.fees
    case ByExperience => b.experience - a.experience
  }

  /** No later element compares below an earlier one. */
  ghost predicate Sorted(s: seq<Doctor>, o: Order)
  {
    forall i, j :: 0 <= i < j < |s| ==> Compare(o, s[i], s[j]) <= 0
  }

  /** The elements of `s` that compare equal to `x`, in their order in `s`. */
  function Ties(s: seq<Doctor>, o: Order, x: Doctor): seq<Doctor>
  {
    Keep(s, TiesWith(o, x))
  }

  function TiesWith(o: Order, x: Doctor): Doctor -> bool
  {
    y => Compare(o, y, x) == 0
  }

  lemma TiesOne(x: Doctor, o: Order, y: Doctor)
    ensures Ties([x], o, y) == if Compare(o, x, y) == 0 then [x] else []
  {
    assert [x][1..] == [];
  }

  lemma TiesSnoc(s: seq<Doctor>, x: Doctor, o: Order, y: Doctor)
    ensures Ties(s + [x], o, y) == Ties(s, o, y) + (if Compare(o, x, y) == 0 then [x] else [])
  {
    KeepAppend(s, [x], TiesWith(o, y));
    TiesOne(x, o, y);
  }

  /** Places `x` after the last element of `s` that does not compare above it. */
  function Insert(s: seq<Doctor>, x: Doctor, o: Order): seq<Doctor>
    decreases |s|
  {
    if s == [] || Compare(o, s[|s| - 1], x) <= 0 then s + [x]
    else Insert(s[..|s| - 1], x, o) + [s[|s| - 1]]
  }

  /** Stable insertion sort, one element at a time from the front. */
  function SortBy(s: seq<Doctor>, o: Order): seq<Doctor>
    decreases |s|
  {
    if s == [] then [] else Insert(SortBy(s[..|s| - 1], o), s[|s| - 1], o)
  }

  lemma {:induction false} InsertPermutes(s: seq<Doctor>, x: Doctor, o: Order)
    ensures multiset(Insert(s, x, o)) == multiset(s) + multiset{x}
    decreases |s|
  {
    if !(s == [] || Compare(o, s[|s| - 1], x) <= 0) {
      InsertPermutes(s[..|s| - 1], x, o);
      assert s == s[..|s| - 1] + [s[|s| - 1]];
    }
  }

  lemma {:induction false} InsertSorted(s: seq<Doctor>, x: Doctor, o: Order)
    requires Sorted(s, o)
    ensures Sorted(Insert(s, x, o), o)
    decreases |s|
  {
    if !(s == [] || Compare(o, s[|s| - 1], x) <= 0) {
      var init, last := s[..|s| - 1], s[|s| - 1];
      InsertSorted(init, x, o);
      InsertPermutes(init, x, o);
      var t := Insert(init, x, o);
      forall y | y in t ensures Compare(o, y, last) <= 0 {
        assert y in multiset(t);
        if y != x {
          assert y in init;
        }
      }
      assert Insert(s, x, o) == t + [last];
    }
  }

  /** The sorted result is a rearrangement of the input ... */
  lemma {:induction false} SortByPermutes(s: seq<Doctor>, o: Order)
    ensures multiset(SortBy(s, o)) == multiset(s)
    decreases |s|
  {
    if s != [] {
      SortByPermutes(s[..|s| - 1], o);
      InsertPermutes(SortBy(s[..|s| - 1], o), s[|s| - 1], o);
      assert s == s[..|s| - 1] + [s[|s| - 1]];
    }
  }

  /** ... in comparator order ... */
  lemma {:induction false} SortBySorted(s: seq<Doctor>, o: Order)
    ensures Sorted(SortBy(s, o), o)
    decreases |s|
  {
    if s != [] {
      SortBySorted(s[..|s| - 1], o);
      InsertSorted(SortBy(s[..|s| - 1], o), s[|s| - 1], o);
    }
  }

  lemma {:induction false} InsertTies(s: seq<Doctor>, x: Doctor, o: Order, y: Doctor)
    ensures Ties(Insert(s, x, o), o, y) == Ties(s, o, y) + Ties([x], o, y)
    decreases |s|
  {
    TiesOne(x, o, y);
    if s == [] || Compare(o, s[|s| - 1], x) <= 0 {
      TiesSnoc(s, x, o, y);
    } else {
      var init, last := s[..|s| - 1], s[|s| - 1];
      var tx := if Compare(o, x, y) == 0 then [x] else [];
      var tl := if Compare(o, last, y) == 0 then [last] else [];
      InsertTies(init, x, o, y);
      TiesSnoc(Insert(init, x, o), last, o, y);
      assert s == init + [last];
      TiesSnoc(init, last, o, y);
      // x compares below last, so at most one of them ties with y
      assert tx == [] || tl == [];
      assert Ties(Insert(s, x, o), o, y) == Ties(init, o, y) + tx + tl;
      assert Ties(s, o, y) + tx == Ties(init, o, y) + tl + tx;
    }
  }

  /** ... that keeps every group of equal elements in its original order. */
  lemma {:induction false} SortByStable(s: seq<Doctor>, o: Order, y: Doctor)
    ensures Ties(SortBy(s, o), o, y) == Ties(s, o, y)
    decreases |s|
  {
    if s != [] {
      var init, last := s[..|s| - 1], s[|s| - 1];
      SortByStable(init, o, y);
      InsertTies(SortBy(init, o), last, o, y);
      assert s == init + [last];
      TiesSnoc(init, last, o, y);
      TiesOne(last, o, y);
    }
  }

  /** Sorting what is already in order changes nothing. */
  lemma {:induction false} SortBySortedIdentity(s: seq<Doctor>, o: Order)
    requires Sorted(s, o)
    ensures SortBy(s, o) == s
    decreases |s|
  {
    if s != [] {
      var init := s[..|s| - 1];
      SortBySortedIdentity(init, o);
      assert s == init + [s[|s| - 1]];
    }
  }

  /** In a sorted sequence no element compares above the last one. */
  lemma SortedLast(t: seq<Doctor>, o: Order, x: Doctor)
    requires Sorted(t, o) && x in t
    ensures Compare(o, x, t[|t| - 1]) <= 0
  {
    var i :| 0 <= i < |t| && t[i] == x;
  }

  lemma SortedInit(t: seq<Doctor>, o: Order)
    requires Sorted(t, o) && t != []
    ensures Sorted(t[..|t| - 1], o)
  {
  }

  /** An element of `t` is in every sequence with the same group for it. */
  lemma InSameTies(t: seq<Doctor>, u: seq<Doctor>, o: Order, x: Doctor)
    requires x in t && Ties(t, o, x) == Ties(u, o, x)
    ensures x in u
  {
    KeepMembers(t, TiesWith(o, x), x);
    KeepMembers(u, TiesWith(o, x), x);
  }

  /** The last element of a sequence is the last of its group there. */
  lemma LastOfTies(t: seq<Doctor>, o: Order, y: Doctor)
    requires t != [] && Compare(o, t[|t| - 1], y) == 0
    ensures var g := Ties(t, o, y); g != [] && g[|g| - 1] == t[|t| - 1]
  {
    assert t == t[..|t| - 1] + [t[|t| - 1]];
    TiesSnoc(t[..|t| - 1], t[|t| - 1], o, y);
  }

  /** Sorted sequences with the same groups of equal elements end alike. */
  lemma SortedTiesLast(t: seq<Doctor>, u: seq<Doctor>, o: Order)
    requires Sorted(t, o) && Sorted(u, o) && t != [] && u != []
    requires forall y :: Ties(t, o, y) == Ties(u, o, y)
    ensures t[|t| - 1] == u[|u| - 1]
  {
    var x, z := t[|t| - 1], u[|u| - 1];
    assert Ties(t, o, x) == Ties(u, o, x);
    assert Ties(t, o, z) == Ties(u, o, z);
    InSameTies(t, u, o, x);
    InSameTies(u, t, o, z);
    SortedLast(u, o, x);
    SortedLast(t, o, z);
    LastOfTies(t, o, x);
    LastOfTies(u, o, x);
  }

  lemma TiesInit(t: seq<Doctor>, u: seq<Doctor>, o: Order, y: Doctor)
    requires t != [] && u != [] && t[|t| - 1] == u[|u| - 1]
    requires Ties(t, o, y) == Ties(u, o, y)
    ensures Ties(t[..|t| - 1], o, y) == Ties(u[..|u| - 1], o, y)
  {
    var t0, u0, x := t[..|t| - 1], u[..|u| - 1], t[|t| - 1];
    assert t == t0 + [x] && u == u0 + [x];
    TiesSnoc(t0, x, o, y);
    TiesSnoc(u0, x, o, y);
    var a := Ties(t, o, y);
    assert Ties(t0, o, y) == a[..|Ties(t0, o, y)|];
    assert Ties(u0, o, y) == a[..|Ties(u0, o, y)|];
  }

  lemma TiesInitAll(t: seq<Doctor>, u: seq<Doctor>, o: Order, t0: seq<Doctor>, u0: seq<Doctor>)
    requires t != [] && u != [] && t[|t| - 1] == u[|u| - 1]
    requires t0 == t[..|t| - 1] && u0 == u[..|u| - 1]
    requires forall y :: Ties(t, o, y) == Ties(u, o, y)
    ensures forall y :: Ties(t0, o, y) == Ties(u0, o, y)
  {
    forall y ensures Ties(t0, o, y) == Ties(u0, o, y) {
      TiesInit(t, u, o, y);
    }
  }

  lemma TiesNonEmpty(t: seq<Doctor>, u: seq<Doctor>, o: Order)
    requires t != [] && Ties(t, o, t[0]) == Ties(u, o, t[0])
    ensures u != []
  {
    KeepMembers(t, TiesWith(o, t[0]), t[0]);
  }

  /** Two sorted sequences with the same groups of equal elements are equal. */
  lemma {:induction false} SortedTiesDetermine(t: seq<Doctor>, u: seq<Doctor>, o: Order)
    requires Sorted(t, o) && Sorted(u, o)
    requires forall y :: Ties(t, o, y) == Ties(u, o, y)
    ensures t == u
    decreases |t| + |u|
  {
    if t == [] || u == [] {
      if t != [] {
        TiesNonEmpty(t, u, o);
      } else if u != [] {
        TiesNonEmpty(u, t, o);
      }
    } else {
      SortedTiesLast(t, u, o);
      SortedInit(t, o);
      SortedInit(u, o);
      var t0, u0 := t[..|t| - 1], u[..|u| - 1];
      TiesInitAll(t, u, o, t0, u0);
      SortedTiesDetermine(t0, u0, o);
      assert t == t0 + [t[|t| - 1]] && u == u0 + [u[|u| - 1]];
    }
  }

  /**
   * Any rearrangement that is in comparator order and keeps equal elements in
   * their input order is the insertion sort's result: every stable sort of
   * `s` with this comparator returns `SortBy(s, o)`.
   */
  lemma StableSortUnique(s: seq<Doctor>, t: seq<Doctor>, o: Order)
    requires Sorted(t, o)
    requires forall y :: Ties(t, o, y) == Ties(s, o, y)
    ensures t == SortBy(s, o)
  {
    SortBySorted(s, o);
    forall y ensures Ties(t, o, y) == Ties(SortBy(s, o), o, y) {
      SortByStable(s, o, y);
    }
    SortedTiesDetermine(t, SortBy(s, o), o);
  }
}

/**
 * The in-place `data.sort(...)` on the copied array: `SortInPlace` runs the
 * insertion passes on an `array` and ends holding `SortBy` of its old contents.
 */
module SortArray {
  import opened Directory
  import opened Sorting

  /** Inserting below a run of elements that all compare above `x` leaves that run after it. */
  lemma {:induction false} InsertBelowRun(s: seq<Doctor>, x: Doctor, o: Order, j: nat)
    requires j <= |s|
    requires forall k :: j <= k < |s| ==> Compare(o, s[k], x) > 0
    ensures Insert(s, x, o) == Insert(s[..j], x, o) + s[j..]
    decreases |s| - j
  {
    if j < |s| {
      var init := s[..|s| - 1];
      InsertBelowRun(init, x, o, j);
      assert init[..j] == s[..j];
      assert init[j..] + [s[|s| - 1]] == s[j..];
    } else {
      assert s[..j] == s;
    }
  }

  /** Where the insertion stops: after an element not above `x`, before a run above it. */
  lemma InsertLands(s: seq<Doctor>, x: Doctor, o: Order, j: nat)
    requires j <= |s|
    requires j == 0 || Compare(o, s[j - 1], x) <= 0
    requires forall k :: j <= k < |s| ==> Compare(o, s[k], x) > 0
    ensures Insert(s, x, o) == s[..j] + [x] + s[j..]
  {
    InsertBelowRun(s, x, o, j);
    var p := s[..j];
    assert p == [] || p[|p| - 1] == s[j - 1];
  }

  /**
   * One pass of insertion sort: the element at `i` moves left past every
   * element of the sorted prefix that compares above it.
   */
  method InsertNext(a: array<Doctor>, i: nat, o: Order)
    requires i < a.Length
    modifies a
    ensures a[..i + 1] == Insert(old(a[..i]), old(a[i]), o)
    ensures a[i + 1..] == old(a[i + 1..])
  {
    var x := a[i];
    ghost var s := a[..i];
    var j := i;
    while j > 0 && Compare(o, a[j - 1], x) > 0
      invariant 0 <= j <= i
      invariant forall k :: 0 <= k < j ==> a[k] == s[k]
      invariant forall k :: j < k <= i ==> a[k] == s[k - 1]
      invariant forall k :: i < k < a.Length ==> a[k] == old(a[k])
      invariant forall k :: j <= k < i ==> Compare(o, s[k], x) > 0
    {
      a[j] := a[j - 1];
      j := j - 1;
    }
    a[j] := x;
    InsertLands(s, x, o, j);
    forall k | 0 <= k <= i ensures a[k] == (s[..j] + [x] + s[j..])[k] {
    }
    assert a[..i + 1] == s[..j] + [x] + s[j..];
  }

  /** `data.sort(comparator)`, done in place by insertion. */
  method SortInPlace(a: array<Doctor>, o: Order)
    modifies a
    ensures a[..] == SortBy(old(a[..]), o)
  {
    ghost var orig := a[..];
    var i := 0;
    while i < a.Length
      invariant 0 <= i <= a.Length
      invariant a[..i] == SortBy(orig[..i], o)
      invariant a[i..] == orig[i..]
    {
      assert orig[..i + 1] == orig[..i] + [orig[i]];
      InsertNext(a, i, o);
      i := i + 1;
    }
    assert a[..] == a[..a.Length] && orig == orig[..a.Length];
  }

  /** `data.sort(comparator)` on the array holding `data`. */
  method SortData(data: seq<Doctor>, o: Order) returns (sorted: seq<Doctor>)
    ensures sorted == SortBy(data, o)
  {
    var a := new Doctor[|data|](k requires 0 <= k < |data| => data[k]);
    assert a[..] == data;
    SortInPlace(a, o);
    sorted := a[..];
  }
}
