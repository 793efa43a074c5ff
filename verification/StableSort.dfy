/**
  The stable sort behind every `sort_by` call. `Sort` is an insertion sort; `StableSortUnique`
  shows that being sorted and stable determines the result, so any stable algorithm returns it.
*/
module StableSort {
  import opened Sequences

  predicate Comparable<T>(le: (T, T) -> bool, x: T, y: T) {
    le(x, y) || le(y, x)
  }

  predicate Chains<T>(le: (T, T) -> bool, x: T, y: T, z: T) {
    le(x, y) && le(y, z) ==> le(x, z)
  }

  /** A total preorder; the proofs name the instances they use. */
  ghost predicate TotalPreorder<T(!new)>(le: (T, T) -> bool) {
    && (forall x, y :: Comparable(le, x, y))
    && (forall x, y, z :: Chains(le, x, y, z))
  }

  ghost predicate Sorted<T(!new)>(s: seq<T>, le: (T, T) -> bool) {
    forall i, j | 0 <= i < j < |s| :: le(s[i], s[j])
  }

  function Insert<T>(x: T, s: seq<T>, le: (T, T) -> bool): (r: seq<T>)
    ensures multiset(r) == multiset{x} + multiset(s)
    ensures |r| == |s| + 1
  {
    if s == [] then [x]
    else if le(x, s[0]) then [x] + s
    else
      assert s == [s[0]] + s[1..];
      [s[0]] + Insert(x, s[1..], le)
  }

  function Sort<T>(s: seq<T>, le: (T, T) -> bool): (r: seq<T>)
    ensures multiset(r) == multiset(s)
    ensures |r| == |s|
  {
    if s == [] then []
    else
      assert s == [s[0]] + s[1..];
      Insert(s[0], Sort(s[1..], le), le)
  }

  /** Two sorted sequences woven together, the left one first on ties. */
  function Merge<T>(a: seq<T>, b: seq<T>, le: (T, T) -> bool): (r: seq<T>)
    ensures |r| == |a| + |b|
  {
    if a == [] then b
    else if b == [] then a
    else if le(a[0], b[0]) then [a[0]] + Merge(a[1..], b, le)
    else [b[0]] + Merge(a, b[1..], le)
  }

  lemma {:induction false} InsertSorted<T(!new)>(x: T, s: seq<T>, le: (T, T) -> bool)
    requires TotalPreorder(le) && Sorted(s, le)
    ensures Sorted(Insert(x, s, le), le)
  {
    if s == [] {
    } else if le(x, s[0]) {
      forall j | 0 <= j < |s|
        ensures le(x, s[j])
      {
        assert Comparable(le, x, x) && Comparable(le, s[0], s[0]) && Chains(le, x, s[0], s[j]);
      }
      assert Comparable(le, x, x);
    } else {
      InsertSorted(x, s[1..], le);
      assert forall i | 0 <= i < |s[1..]| :: le(s[0], s[1..][i]);
      var t := Insert(x, s[1..], le);
      forall j | 0 <= j < |t|
        ensures le(s[0], t[j])
      {
        assert t[j] in multiset(t);
        assert t[j] == x || t[j] in s[1..];
        assert Comparable(le, x, s[0]);
      }
    }
  }

  lemma {:induction false} SortSorts<T(!new)>(s: seq<T>, le: (T, T) -> bool)
    requires TotalPreorder(le)
    ensures Sorted(Sort(s, le), le)
  {
    if s != [] {
      SortSorts(s[1..], le);
      InsertSorted(s[0], Sort(s[1..], le), le);
    }
  }

  lemma {:induction false} SortFixesSorted<T(!new)>(s: seq<T>, le: (T, T) -> bool)
    requires TotalPreorder(le) && Sorted(s, le)
    ensures Sort(s, le) == s
  {
    if s != [] {
      SortFixesSorted(s[1..], le);
      assert s == [s[0]] + s[1..];
    }
  }

  lemma {:induction false} FilterInsert<T(!new)>(x: T, s: seq<T>, le: (T, T) -> bool, p: T -> bool)
    requires TotalPreorder(le) && Sorted(s, le)
    ensures Filter(Insert(x, s, le), p) == if p(x) then Insert(x, Filter(s, p), le) else Filter(s, p)
  {
    if s == [] {
    } else if le(x, s[0]) {
      assert ([x] + s)[1..] == s;
      if p(x) {
        var f := Filter(s, p);
        if f != [] {
          FilterMembers(s, p, f[0]);
          assert Comparable(le, s[0], s[0]) && Chains(le, x, s[0], f[0]);
        }
      }
    } else {
      FilterInsert(x, s[1..], le, p);
      assert ([s[0]] + Insert(x, s[1..], le))[1..] == Insert(x, s[1..], le);
      if p(s[0]) {
        assert ([s[0]] + Filter(s[1..], p))[1..] == Filter(s[1..], p);
      }
    }
  }

  lemma SortCons<T(!new)>(x: T, s: seq<T>, le: (T, T) -> bool)
    ensures Sort([x] + s, le) == Insert(x, Sort(s, le), le)
  {
    assert ([x] + s)[1..] == s;
  }

  /** Sorting commutes with selecting, which is what stability means for any selection. */
  lemma {:induction false} FilterSort<T(!new)>(s: seq<T>, le: (T, T) -> bool, p: T -> bool)
    requires TotalPreorder(le)
    ensures Filter(Sort(s, le), p) == Sort(Filter(s, p), le)
  {
    if s != [] {
      FilterSort(s[1..], le, p);
      SortSorts(s[1..], le);
      FilterInsert(s[0], Sort(s[1..], le), le, p);
      SortCons(s[0], Filter(s[1..], p), le);
    }
  }

  /** A selection that was in order before the sort is the same sequence after it. */
  lemma SortKeepsOrderedSelection<T(!new)>(s: seq<T>, le: (T, T) -> bool, p: T -> bool)
    requires TotalPreorder(le) && Sorted(Filter(s, p), le)
    ensures Filter(Sort(s, le), p) == Filter(s, p)
  {
    FilterSort(s, le, p);
    SortFixesSorted(Filter(s, p), le);
  }

  lemma {:induction false} InsertMerge<T(!new)>(x: T, a: seq<T>, b: seq<T>, le: (T, T) -> bool)
    requires TotalPreorder(le) && Sorted(a, le) && Sorted(b, le)
    ensures Insert(x, Merge(a, b, le), le) == Merge(Insert(x, a, le), b, le)
    decreases |a| + |b|
  {
    if a == [] {
      if b != [] && !le(x, b[0]) {
        InsertMerge(x, a, b[1..], le);
        assert ([b[0]] + b[1..]) == b;
      }
    } else if b == [] {
    } else if le(a[0], b[0]) {
      if le(x, a[0]) {
        assert ([x] + a)[1..] == a;
        assert Chains(le, x, a[0], b[0]);
      } else {
        InsertMerge(x, a[1..], b, le);
        var ia := Insert(x, a, le);
        assert ia[1..] == Insert(x, a[1..], le);
        assert Merge(a, b, le)[1..] == Merge(a[1..], b, le);
      }
    } else {
      InsertMerge(x, a, b[1..], le);
      var ia := Insert(x, a, le);
      assert Merge(a, b, le)[1..] == Merge(a, b[1..], le);
      if le(x, b[0]) {
        assert Comparable(le, a[0], b[0]) && Chains(le, x, b[0], a[0]);
        assert ia[1..] == a;
      } else {
        assert ia[0] == x || ia[0] == a[0];
      }
    }
  }

  lemma {:induction false} SortConcat<T(!new)>(a: seq<T>, b: seq<T>, le: (T, T) -> bool)
    requires TotalPreorder(le)
    ensures Sort(a + b, le) == Merge(Sort(a, le), Sort(b, le), le)
  {
    if a == [] {
      assert a + b == b;
    } else {
      assert (a + b)[1..] == a[1..] + b;
      SortConcat(a[1..], b, le);
      SortSorts(a[1..], le);
      SortSorts(b, le);
      InsertMerge(a[0], Sort(a[1..], le), Sort(b, le), le);
    }
  }

  // ── Uniqueness ─────────────────────────────────────────────────────────

  /** The elements that compare equal to `x`. */
  function Ties<T>(x: T, le: (T, T) -> bool): T -> bool {
    y => le(x, y) && le(y, x)
  }

  /** `t` rearranges `s` without reordering any elements that compare equal. */
  ghost predicate StableRearrangement<T(!new)>(s: seq<T>, t: seq<T>, le: (T, T) -> bool) {
    forall x :: Filter(t, Ties(x, le)) == Filter(s, Ties(x, le))
  }

  lemma HeadIsItsOwnTie<T(!new)>(u: seq<T>, le: (T, T) -> bool)
    requires TotalPreorder(le)
    ensures u != [] ==> Filter(u, Ties(u[0], le)) != []
  {
    if u != [] {
      assert Comparable(le, u[0], u[0]);
      FilterMembers(u, Ties(u[0], le), u[0]);
    }
  }

  lemma {:induction false} SortedStableUnique<T(!new)>(t: seq<T>, u: seq<T>, le: (T, T) -> bool)
    requires TotalPreorder(le) && Sorted(t, le) && Sorted(u, le)
    requires StableRearrangement(t, u, le)
    ensures t == u
  {
    if t == [] {
      HeadIsItsOwnTie(u, le);
    } else {
      var p := Ties(t[0], le);
      assert Comparable(le, t[0], t[0]);
      assert p(t[0]);
      assert Filter(t, p)[0] == t[0];
      FilterMembers(u, p, t[0]);
      FilterMembers(t, p, t[0]);
      assert u != [];
      assert Comparable(le, u[0], u[0]);
      FilterMembers(u, Ties(u[0], le), u[0]);
      FilterMembers(t, Ties(u[0], le), u[0]);
      assert Filter(u, Ties(u[0], le))[0] == u[0];
      assert le(u[0], t[0]) && le(t[0], u[0]);
      assert p(u[0]);
      assert t[0] == u[0];
      forall x
        ensures Filter(t[1..], Ties(x, le)) == Filter(u[1..], Ties(x, le))
      {
        var q := Ties(x, le);
        assert Filter(t, q) == Filter(u, q);
        assert Filter(t[1..], q) == Filter(t, q)[if q(t[0]) then 1 else 0..];
      }
      SortedStableUnique(t[1..], u[1..], le);
      assert t == [t[0]] + t[1..] && u == [u[0]] + u[1..];
    }
  }

  /** Sorted and stable pins the result: there is exactly one such sequence. */
  lemma StableSortUnique<T(!new)>(s: seq<T>, t: seq<T>, le: (T, T) -> bool)
    requires TotalPreorder(le)
    ensures Sorted(t, le) && StableRearrangement(s, t, le) <==> t == Sort(s, le)
  {
    SortSorts(s, le);
    forall x
      ensures Filter(Sort(s, le), Ties(x, le)) == Filter(s, Ties(x, le))
    {
      var p := Ties(x, le);
      forall i, j | 0 <= i < j < |Filter(s, p)|
        ensures le(Filter(s, p)[i], Filter(s, p)[j])
      {
        FilterMembers(s, p, Filter(s, p)[i]);
        FilterMembers(s, p, Filter(s, p)[j]);
        assert Chains(le, Filter(s, p)[i], x, Filter(s, p)[j]);
      }
      SortKeepsOrderedSelection(s, le, p);
    }
    if Sorted(t, le) && StableRearrangement(s, t, le) {
      SortedStableUnique(t, Sort(s, le), le);
    }
  }
}
