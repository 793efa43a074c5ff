/** Iterator adaptors over sequences, and what they keep. */
module Sequences {
  import opened Wrappers

  /** `truncate(n)`. */
  function Take<T>(s: seq<T>, n: nat): (r: seq<T>)
    ensures |r| == if n <= |s| then n else |s|
    ensures r <= s
  {
    if n <= |s| then s[..n] else s
  }

  /** `iter().map(f).collect()`. */
  function MapSeq<A, B>(items: seq<A>, f: A -> B): (r: seq<B>)
    ensures |r| == |items|
    ensures forall i | 0 <= i < |items| :: r[i] == f(items[i])
  {
    if items == [] then [] else [f(items[0])] + MapSeq(items[1..], f)
  }

  lemma MapSeqConcat<A, B>(a: seq<A>, b: seq<A>, f: A -> B)
    ensures MapSeq(a + b, f) == MapSeq(a, f) + MapSeq(b, f)
  {
    var whole, parts := MapSeq(a + b, f), MapSeq(a, f) + MapSeq(b, f);
    assert forall i | 0 <= i < |a + b| :: whole[i] == parts[i];
  }

  lemma MapSeqAround<A, B>(front: seq<A>, x: A, back: seq<A>, f: A -> B)
    ensures multiset(MapSeq(front + [x] + back, f)) == multiset{f(x)} + multiset(MapSeq(front + back, f))
  {
    MapSeqConcat(front + [x], back, f);
    MapSeqConcat(front, [x], f);
    MapSeqConcat(front, back, f);
    assert MapSeq([x], f) == [f(x)];
  }

  lemma SplitAround<A>(s: seq<A>, x: A) returns (front: seq<A>, back: seq<A>)
    requires x in s
    ensures s == front + [x] + back
    ensures multiset(front + back) == multiset(s) - multiset{x}
  {
    var i :| 0 <= i < |s| && s[i] == x;
    front, back := s[..i], s[i + 1..];
    assert s == front + [x] + back;
    assert multiset(front + [x] + back) == multiset(front + back) + multiset{x};
  }

  lemma MapSeqSplit<A, B>(s: seq<A>, x: A, f: A -> B) returns (rest: seq<A>)
    requires x in s
    ensures multiset(rest) == multiset(s) - multiset{x} && |rest| == |s| - 1
    ensures multiset(MapSeq(s, f)) == multiset{f(x)} + multiset(MapSeq(rest, f))
  {
    var front, back := SplitAround(s, x);
    MapSeqAround(front, x, back, f);
    rest := front + back;
  }

  lemma {:induction false} MapSeqRearranged<A(!new), B>(a: seq<A>, b: seq<A>, f: A -> B)
    requires multiset(a) == multiset(b)
    ensures multiset(MapSeq(a, f)) == multiset(MapSeq(b, f))
    decreases |a|
  {
    if a == [] {
      assert |multiset(b)| == |b|;
    } else {
      MemberByMultiset(a, b, a[0]);
      var a' := MapSeqSplit(a, a[0], f);
      var b' := MapSeqSplit(b, a[0], f);
      MapSeqRearranged(a', b', f);
    }
  }

  /** `iter().flat_map(f).collect()`. */
  function FlatMap<A, B>(items: seq<A>, f: A -> seq<B>): seq<B> {
    if items == [] then [] else FlatMap(items[..|items| - 1], f) + f(items[|items| - 1])
  }

  lemma FlatMapSnoc<A, B>(items: seq<A>, x: A, f: A -> seq<B>)
    ensures FlatMap(items + [x], f) == FlatMap(items, f) + f(x)
  {
    assert (items + [x])[..|items|] == items;
  }

  lemma {:induction false} FlatMapConcat<A, B>(a: seq<A>, b: seq<A>, f: A -> seq<B>)
    ensures FlatMap(a + b, f) == FlatMap(a, f) + FlatMap(b, f)
  {
    if b == [] {
      assert a + b == a;
    } else {
      var front, last := b[..|b| - 1], b[|b| - 1];
      FlatMapConcat(a, front, f);
      assert a + b == (a + front) + [last] && b == front + [last];
      FlatMapSnoc(a + front, last, f);
      FlatMapSnoc(front, last, f);
      assert (FlatMap(a, f) + FlatMap(front, f)) + f(last) == FlatMap(a, f) + (FlatMap(front, f) + f(last));
    }
  }

  lemma FlatMapAround<A, B>(front: seq<A>, x: A, back: seq<A>, f: A -> seq<B>)
    ensures multiset(FlatMap(front + [x] + back, f)) == multiset(f(x)) + multiset(FlatMap(front + back, f))
  {
    FlatMapConcat(front + [x], back, f);
    FlatMapSnoc(front, x, f);
    FlatMapConcat(front, back, f);
  }

  lemma FlatMapSplit<A, B>(s: seq<A>, x: A, f: A -> seq<B>) returns (rest: seq<A>)
    requires x in s
    ensures multiset(rest) == multiset(s) - multiset{x} && |rest| == |s| - 1
    ensures multiset(FlatMap(s, f)) == multiset(f(x)) + multiset(FlatMap(rest, f))
  {
    var front, back := SplitAround(s, x);
    FlatMapAround(front, x, back, f);
    rest := front + back;
  }

  lemma {:induction false} FlatMapRearranged<A(!new), B>(a: seq<A>, b: seq<A>, f: A -> seq<B>)
    requires multiset(a) == multiset(b)
    ensures multiset(FlatMap(a, f)) == multiset(FlatMap(b, f))
    decreases |a|
  {
    if a == [] {
      assert |multiset(b)| == |b|;
    } else {
      MemberByMultiset(a, b, a[0]);
      var a' := FlatMapSplit(a, a[0], f);
      var b' := FlatMapSplit(b, a[0], f);
      FlatMapRearranged(a', b', f);
    }
  }

  lemma {:induction false} FlatMapMembers<A(!new), B(!new)>(items: seq<A>, f: A -> seq<B>, b: B)
    ensures b in FlatMap(items, f) <==> exists i :: 0 <= i < |items| && b in f(items[i])
  {
    if items != [] {
      var front := items[..|items| - 1];
      FlatMapMembers(front, f, b);
      if i :| 0 <= i < |front| && b in f(front[i]) {
        assert b in f(items[i]);
      }
      if i :| 0 <= i < |items| && b in f(items[i]) && i < |front| {
        assert b in f(front[i]);
      }
    }
  }

  /** `iter().filter(p).collect()`. */
  function Filter<T>(s: seq<T>, p: T -> bool): seq<T> {
    if s == [] then []
    else if p(s[0]) then [s[0]] + Filter(s[1..], p)
    else Filter(s[1..], p)
  }

  lemma {:induction false} FilterMembers<T(!new)>(s: seq<T>, p: T -> bool, x: T)
    ensures x in Filter(s, p) <==> x in s && p(x)
  {
    if s != [] {
      FilterMembers(s[1..], p, x);
      assert x in s <==> x == s[0] || x in s[1..];
    }
  }

  lemma {:induction false} FilterTwice<T(!new)>(s: seq<T>, p: T -> bool, q: T -> bool, both: T -> bool)
    requires forall x :: both(x) <==> p(x) && q(x)
    ensures Filter(Filter(s, p), q) == Filter(s, both)
  {
    if s != [] {
      FilterTwice(s[1..], p, q, both);
    }
  }

  lemma {:induction false} FilterAgrees<T(!new)>(s: seq<T>, p: T -> bool, p': T -> bool)
    requires forall x :: p(x) == p'(x)
    ensures Filter(s, p) == Filter(s, p')
  {
    if s != [] {
      FilterAgrees(s[1..], p, p');
    }
  }

  /** `iter().filter_map(f).collect()`. */
  function Collect<A, B>(items: seq<A>, f: A -> Option<B>): seq<B> {
    if items == [] then []
    else
      match f(items[0])
      case Some(b) => [b] + Collect(items[1..], f)
      case None => Collect(items[1..], f)
  }

  lemma {:induction false} CollectAll<A, B>(items: seq<A>, f: A -> Option<B>)
    requires forall i | 0 <= i < |items| :: f(items[i]).Some?
    ensures |Collect(items, f)| == |items|
    ensures forall i | 0 <= i < |items| :: Collect(items, f)[i] == f(items[i]).value
  {
    if items != [] {
      CollectAll(items[1..], f);
    }
  }

  lemma {:induction false} CollectFull<A, B>(items: seq<A>, f: A -> Option<B>)
    ensures |Collect(items, f)| <= |items|
    ensures |Collect(items, f)| == |items| ==> forall i | 0 <= i < |items| :: f(items[i]).Some?
  {
    if items != [] {
      CollectFull(items[1..], f);
    }
  }

  lemma {:induction false} CollectTake<A, B>(items: seq<A>, f: A -> Option<B>, n: nat)
    requires forall i | 0 <= i < |items| :: f(items[i]).Some?
    ensures Collect(Take(items, n), f) == Take(Collect(items, f), n)
  {
    CollectAll(items, f);
    CollectAll(Take(items, n), f);
  }

  lemma {:induction false} CollectSnoc<A, B>(items: seq<A>, x: A, f: A -> Option<B>)
    ensures Collect(items + [x], f) == Collect(items, f) + if f(x).Some? then [f(x).value] else []
  {
    if items == [] {
      assert items + [x] == [x] && [x][1..] == [];
    } else {
      assert (items + [x])[1..] == items[1..] + [x];
      CollectSnoc(items[1..], x, f);
    }
  }

  /** `collect()` into a map: of pairs with the same key the last stays. */
  function MapOf<K, V>(pairs: seq<(K, V)>): map<K, V> {
    if pairs == [] then map[]
    else MapOf(pairs[..|pairs| - 1])[pairs[|pairs| - 1].0 := pairs[|pairs| - 1].1]
  }

  lemma MapOfSnoc<K, V>(pairs: seq<(K, V)>, k: K, v: V)
    ensures MapOf(pairs + [(k, v)]) == MapOf(pairs)[k := v]
  {
    assert (pairs + [(k, v)])[..|pairs|] == pairs;
  }

  lemma {:induction false} MapOfEntries<K, V>(pairs: seq<(K, V)>)
    ensures forall k | k in MapOf(pairs) :: exists i :: 0 <= i < |pairs| && pairs[i] == (k, MapOf(pairs)[k])
    ensures forall i | 0 <= i < |pairs| :: pairs[i].0 in MapOf(pairs)
  {
    if pairs != [] {
      var front := pairs[..|pairs| - 1];
      MapOfEntries(front);
      forall k | k in MapOf(pairs)
        ensures exists i :: 0 <= i < |pairs| && pairs[i] == (k, MapOf(pairs)[k])
      {
        if k == pairs[|pairs| - 1].0 {
          assert pairs[|pairs| - 1] == (k, MapOf(pairs)[k]);
        } else {
          assert k in MapOf(front);
          var i :| 0 <= i < |front| && front[i] == (k, MapOf(front)[k]);
          assert pairs[i] == (k, MapOf(pairs)[k]);
        }
      }
      forall i | 0 <= i < |pairs|
        ensures pairs[i].0 in MapOf(pairs)
      {
        assert i < |front| ==> pairs[i] == front[i];
      }
    }
  }

  /** `iter().find(p)`. */
  function Find<T>(items: seq<T>, p: T -> bool): Option<T> {
    if items == [] then None
    else if p(items[0]) then Some(items[0])
    else Find(items[1..], p)
  }

  lemma {:induction false} FindMeans<T>(items: seq<T>, p: T -> bool)
    ensures Find(items, p).Some? ==> p(Find(items, p).value) && Find(items, p).value in items
    ensures Find(items, p).None? ==> forall x | x in items :: !p(x)
  {
    if items != [] && !p(items[0]) {
      FindMeans(items[1..], p);
      assert items == [items[0]] + items[1..];
    }
  }

  /** The first item that satisfies `p` is the one at `i`. */
  ghost predicate FirstAt<T>(items: seq<T>, p: T -> bool, i: int) {
    0 <= i < |items| && p(items[i]) && forall j | 0 <= j < i :: !p(items[j])
  }

  lemma {:induction false} FindIsFirst<T>(items: seq<T>, p: T -> bool, i: int)
    requires FirstAt(items, p, i)
    ensures Find(items, p) == Some(items[i])
  {
    if !p(items[0]) {
      FindIsFirst(items[1..], p, i - 1);
    }
  }

  lemma {:induction false} FindPosition<T>(items: seq<T>, p: T -> bool) returns (i: nat)
    requires Find(items, p).Some?
    ensures FirstAt(items, p, i) && Find(items, p) == Some(items[i])
  {
    if p(items[0]) {
      i := 0;
    } else {
      var j := FindPosition(items[1..], p);
      i := j + 1;
      assert forall k | 0 < k < i :: items[k] == items[1..][k - 1];
    }
  }

  /** Searching what was collected is searching the items for one that gives what is sought. */
  lemma {:induction false} FindCollected<A(!new), B>(items: seq<A>, f: A -> Option<B>, p: B -> bool, gives: A -> bool)
    requires forall x :: gives(x) <==> f(x).Some? && p(f(x).value)
    ensures Find(Collect(items, f), p) == if Find(items, gives).Some? then f(Find(items, gives).value) else None
  {
    if items != [] {
      FindCollected(items[1..], f, p, gives);
    }
  }

  /** What is found is the first item that satisfies `p`. */
  lemma FindFirst<T>(items: seq<T>, p: T -> bool)
    ensures forall i :: FirstAt(items, p, i) ==> Find(items, p) == Some(items[i])
    ensures Find(items, p).Some? <==> exists i :: FirstAt(items, p, i)
  {
    forall i | FirstAt(items, p, i)
      ensures Find(items, p) == Some(items[i])
    {
      FindIsFirst(items, p, i);
    }
    if Find(items, p).Some? {
      var i := FindPosition(items, p);
    }
  }

  /** The last item that satisfies `p` is the one at `i`. */
  ghost predicate LastAt<T>(items: seq<T>, p: T -> bool, i: int) {
    0 <= i < |items| && p(items[i]) && forall j | i < j < |items| :: !p(items[j])
  }

  /** If some item satisfies `p`, one is the last that does. */
  lemma {:induction false} SomeIsLast<T>(items: seq<T>, p: T -> bool) returns (i: int)
    requires exists x :: x in items && p(x)
    ensures LastAt(items, p, i)
  {
    i := |items| - 1;
    if !p(items[i]) {
      var x :| x in items && p(x);
      assert x in items[..i];
      i := SomeIsLast(items[..i], p);
    }
  }

  lemma MemberByMultiset<T>(s: seq<T>, t: seq<T>, x: T)
    requires multiset(s) == multiset(t)
    ensures x in s <==> x in t
  {
    assert x in s <==> x in multiset(s);
    assert x in t <==> x in multiset(t);
  }

  lemma OccursTwice<T>(t: seq<T>, i: nat, j: nat)
    requires i < j < |t| && t[i] == t[j]
    ensures multiset(t)[t[i]] >= 2
  {
    assert t == t[..i] + [t[i]] + t[i + 1..j] + [t[j]] + t[j + 1..];
  }

  lemma OccursOnce<T>(s: seq<T>, a: nat)
    requires a < |s| && forall b | 0 <= b < |s| && b != a :: s[b] != s[a]
    ensures multiset(s)[s[a]] == 1
  {
    assert s == s[..a] + [s[a]] + s[a + 1..];
    assert s[a] !in s[..a] && s[a] !in s[a + 1..];
  }

  // ── Keys without repetition ────────────────────────────────────────────

  ghost predicate DistinctBy<T(!new), K(!new)>(s: seq<T>, key: T -> K) {
    forall i, j | 0 <= i < j < |s| :: key(s[i]) != key(s[j])
  }

  lemma DistinctAcrossRearrangement<T(!new), K(!new)>(s: seq<T>, t: seq<T>, key: T -> K)
    requires multiset(s) == multiset(t) && DistinctBy(s, key)
    ensures DistinctBy(t, key)
  {
    forall i, j | 0 <= i < j < |t|
      ensures key(t[i]) != key(t[j])
    {
      if key(t[i]) == key(t[j]) {
        MemberByMultiset(s, t, t[i]);
        MemberByMultiset(s, t, t[j]);
        var a :| 0 <= a < |s| && s[a] == t[i];
        var b :| 0 <= b < |s| && s[b] == t[j];
        assert a == b;
        OccursTwice(t, i, j);
        OccursOnce(s, a);
        assert false;
      }
    }
  }

  lemma {:induction false} DistinctFilter<T(!new), K(!new)>(s: seq<T>, p: T -> bool, key: T -> K)
    requires DistinctBy(s, key)
    ensures DistinctBy(Filter(s, p), key)
  {
    if s != [] {
      DistinctFilter(s[1..], p, key);
      var f := Filter(s[1..], p);
      forall j | 0 <= j < |f|
        ensures f[j] in s[1..]
      {
        FilterMembers(s[1..], p, f[j]);
      }
    }
  }

  lemma {:induction false} CollectMembers<A(!new), B(!new)>(items: seq<A>, f: A -> Option<B>, b: B)
    ensures b in Collect(items, f) <==> exists i :: 0 <= i < |items| && f(items[i]) == Some(b)
  {
    if items != [] {
      CollectMembers(items[1..], f, b);
      if b in Collect(items[1..], f) {
        var i :| 0 <= i < |items[1..]| && f(items[1..][i]) == Some(b);
        assert f(items[i + 1]) == Some(b);
      }
      if i :| 0 < i < |items| && f(items[i]) == Some(b) {
        assert f(items[1..][i - 1]) == Some(b);
      }
    }
  }
}
