/**
  src/handlers/runs_by_label.rs: the newest runs carrying a set of labels, from the cluster and
  from the archive, each capped at `limit` before the live-wins merge.
*/
module RunsByLabel {
  import opened Wrappers
  import opened Sequences
  import opened Text
  import opened StableSort
  import opened RunModel
  import opened LabelSelector

  datatype RunsByLabelError = Kube(message: string) | Db(message: string)

  /** `sort_by(|a, b| b.created_time.cmp(&a.created_time))`: newest first. */
  predicate Newer(a: RunSummary, b: RunSummary) {
    StrLe(b.createdTime, a.createdTime)
  }

  lemma NewerIsPreorder()
    ensures TotalPreorder(Newer)
  {
    forall x: RunSummary, y: RunSummary
      ensures Comparable(Newer, x, y)
    {
      StrLeTotal(x.createdTime, y.createdTime);
    }
    forall x: RunSummary, y: RunSummary, z: RunSummary
      ensures Chains(Newer, x, y, z)
    {
      if Newer(x, y) && Newer(y, z) {
        StrLeTransitive(z.createdTime, y.createdTime, x.createdTime);
      }
    }
  }

  lemma SortNewest(runs: seq<RunSummary>)
    ensures Sorted(Sort(runs, Newer), Newer)
  {
    NewerIsPreorder();
    SortSorts(runs, Newer);
  }

  // ── Live source ────────────────────────────────────────────────────────

  /** The metadata of a listed PipelineRun. */
  datatype LiveObject = LiveObject(name: Option<string>, created: Option<string>)

  function LiveSummaryOf(obj: LiveObject): Option<RunSummary> {
    if obj.name.Some? && obj.created.Some?
    then Some(RunSummary(obj.name.value, obj.created.value, Tekton))
    else None
  }

  /** `slice` is newest first, and what it leaves of `all` is `rest`, none of it newer. */
  ghost predicate Leaves(all: seq<RunSummary>, slice: seq<RunSummary>, rest: seq<RunSummary>) {
    && Sorted(slice, Newer) && multiset(slice + rest) == multiset(all)
    && forall i, j | 0 <= i < |slice| && 0 <= j < |rest| :: Newer(slice[i], rest[j])
  }

  /** The newest `limit` of `all`, or all if there are fewer. */
  ghost predicate NewestSlice(all: seq<RunSummary>, limit: nat, slice: seq<RunSummary>) {
    && |slice| == (if |all| < limit then |all| else limit)
    && exists rest :: Leaves(all, slice, rest)
  }

  lemma PrefixIsNewest(all: seq<RunSummary>, sorted: seq<RunSummary>, limit: nat)
    requires Sorted(sorted, Newer) && multiset(sorted) == multiset(all) && |sorted| == |all|
    ensures NewestSlice(all, limit, Take(sorted, limit))
  {
    var slice := Take(sorted, limit);
    var rest := sorted[|slice|..];
    assert slice + rest == sorted;
    assert Leaves(all, slice, rest);
  }

  lemma SortedPrefixIsNewest(all: seq<RunSummary>, limit: nat)
    ensures NewestSlice(all, limit, Take(Sort(all, Newer), limit))
  {
    SortNewest(all);
    PrefixIsNewest(all, Sort(all, Newer), limit);
  }

  /** The live slice: the newest of the listed runs that have a name and a time. */
  lemma LiveSliceIsNewest(listed: seq<LiveObject>, limit: nat)
    ensures var all := Collect(listed, LiveSummaryOf);
            && NewestSlice(all, limit, Take(Sort(all, Newer), limit))
            && forall name: string, time: string ::
                 RunSummary(name, time, Tekton) in all <==> LiveObject(Some(name), Some(time)) in listed
  {
    var all := Collect(listed, LiveSummaryOf);
    SortedPrefixIsNewest(all, limit);
    forall name: string, time: string
      ensures RunSummary(name, time, Tekton) in all <==> LiveObject(Some(name), Some(time)) in listed
    {
      CollectMembers(listed, LiveSummaryOf, RunSummary(name, time, Tekton));
    }
  }

  method LiveSummaries(listed: Result<seq<LiveObject>, string>, limit: nat)
    returns (r: Result<seq<RunSummary>, RunsByLabelError>)
    ensures listed.Err? ==> r == Err(Kube(listed.error))
    ensures listed.Ok? ==> r == Ok(Take(Sort(Collect(listed.value, LiveSummaryOf), Newer), limit))
  {
    if listed.Err? {
      return Err(Kube(listed.error));
    }
    var summaries := Collect(listed.value, LiveSummaryOf);
    summaries := Sort(summaries, Newer);
    summaries := Take(summaries, limit);
    return Ok(summaries);
  }

  // ── Archive source ─────────────────────────────────────────────────────

  /** One PipelineRun record as the query sees it. */
  datatype Row = Row(
    namespace: string, labels: map<string, string>, name: Option<string>, created: Option<string>)

  datatype Param = TextParam(text: string) | JsonParam(obj: map<string, string>) | IntParam(number: int)

  /** The generated statement: which placeholder each condition mentions, and the bound values. */
  datatype Query = Query(
    namespacePlaceholder: nat, clauses: seq<nat>, limitPlaceholder: nat, params: seq<Param>)
  {
    /** The value a `$n` stands for; placeholders count from 1. */
    function Bound(placeholder: nat): Option<Param> {
      if 1 <= placeholder <= |params| then Some(params[placeholder - 1]) else None
    }
  }

  /** `@>` on flat JSON objects. */
  predicate Contains(labels: map<string, string>, obj: map<string, string>) {
    forall k | k in obj :: k in labels && labels[k] == obj[k]
  }

  /** The WHERE clause. */
  predicate Selected(q: Query, row: Row) {
    && q.Bound(q.namespacePlaceholder) == Some(TextParam(row.namespace))
    && forall c | c in q.clauses ::
         && q.Bound(c).Some?
         && q.Bound(c).value.JsonParam?
         && Contains(row.labels, q.Bound(c).value.obj)
  }

  function SelectedBy(q: Query): Row -> bool {
    (row: Row) => Selected(q, row)
  }

  predicate RowNewer(a: Row, b: Row) {
    StrLe(b.created.GetOr(""), a.created.GetOr(""))
  }

  lemma RowNewerIsPreorder()
    ensures TotalPreorder(RowNewer)
  {
    forall x: Row, y: Row
      ensures Comparable(RowNewer, x, y)
    {
      StrLeTotal(x.created.GetOr(""), y.created.GetOr(""));
    }
    forall x: Row, y: Row, z: Row
      ensures Chains(RowNewer, x, y, z)
    {
      if RowNewer(x, y) && RowNewer(y, z) {
        StrLeTransitive(z.created.GetOr(""), y.created.GetOr(""), x.created.GetOr(""));
      }
    }
  }

  /** The rows of the statement before LIMIT; rows of equal time come in table order. */
  function Ordered(q: Query, table: seq<Row>): seq<Row> {
    Sort(Filter(table, SelectedBy(q)), RowNewer)
  }

  function Execute(q: Query, table: seq<Row>): seq<Row> {
    match q.Bound(q.limitPlaceholder)
    case Some(IntParam(n)) => if n >= 0 then Take(Ordered(q, table), n) else []
    case _ => []
  }

  datatype Database = Unreachable(message: string) | Serving(table: seq<Row>)

  function ArchivedSummaryOf(row: Row): Option<RunSummary> {
    if row.name.Some? && row.created.Some?
    then Some(RunSummary(row.name.value, row.created.value, Archive))
    else None
  }

  /** Every pair is one of the labels: the meaning of a selector. */
  predicate Satisfies(labels: map<string, string>, pairs: seq<Pair>) {
    forall i | 0 <= i < |pairs| :: pairs[i].0 in labels && labels[pairs[i].0] == pairs[i].1
  }

  /** The statement binds the namespace, then one object per pair, then the limit. */
  ghost predicate BindsPairs(q: Query, namespace: string, pairs: seq<Pair>, limit: nat) {
    && q.Bound(q.namespacePlaceholder) == Some(TextParam(namespace))
    && |q.clauses| == |pairs|
    && (forall i | 0 <= i < |pairs| ::
          q.Bound(q.clauses[i]) == Some(JsonParam(map[pairs[i].0 := pairs[i].1])))
    && q.Bound(q.limitPlaceholder) == Some(IntParam(limit))
    && |q.params| == |pairs| + 2
  }

  method BuildQuery(namespace: string, pairs: seq<Pair>, limit: nat) returns (q: Query)
    ensures BindsPairs(q, namespace, pairs, limit)
  {
    var clauses: seq<nat> := [];
    var jsonParams: seq<Param> := [];
    for i := 0 to |pairs|
      invariant |clauses| == |jsonParams| == i
      invariant forall j | 0 <= j < i :: clauses[j] == j + 2
      invariant forall j | 0 <= j < i :: jsonParams[j] == JsonParam(map[pairs[j].0 := pairs[j].1])
    {
      var placeholder := i + 2;
      clauses := clauses + [placeholder];
      var obj: map<string, string> := map[];
      obj := obj[pairs[i].0 := pairs[i].1];
      jsonParams := jsonParams + [JsonParam(obj)];
    }
    var limitPlaceholder := |pairs| + 2;
    var params := [TextParam(namespace)];
    for i := 0 to |jsonParams|
      invariant params == [TextParam(namespace)] + jsonParams[..i]
    {
      params := params + [jsonParams[i]];
    }
    params := params + [IntParam(limit)];
    q := Query(1, clauses, limitPlaceholder, params);
  }

  /** The statement selects exactly the namespace's rows that satisfy every pair. */
  lemma QueryMeansSelector(q: Query, namespace: string, pairs: seq<Pair>, limit: nat, row: Row)
    requires BindsPairs(q, namespace, pairs, limit)
    ensures Selected(q, row) <==> row.namespace == namespace && Satisfies(row.labels, pairs)
  {
    if Selected(q, row) {
      forall i | 0 <= i < |pairs|
        ensures pairs[i].0 in row.labels && row.labels[pairs[i].0] == pairs[i].1
      {
        var c := q.clauses[i];
        assert c in q.clauses;
        var obj := q.Bound(c).value.obj;
        assert pairs[i].0 in obj;
      }
    }
    if row.namespace == namespace && Satisfies(row.labels, pairs) {
      forall c | c in q.clauses
        ensures q.Bound(c).Some? && q.Bound(c).value.JsonParam?
        ensures Contains(row.labels, q.Bound(c).value.obj)
      {
        var i :| 0 <= i < |q.clauses| && q.clauses[i] == c;
      }
    }
  }

  predicate Consistent(pairs: seq<Pair>) {
    forall i, j | 0 <= i < |pairs| && 0 <= j < |pairs| && pairs[i].0 == pairs[j].0 ::
      pairs[i].1 == pairs[j].1
  }

  /** One merged object would mean the same exactly when no key repeats with another value. */
  lemma MergedObjectEquivalence(pairs: seq<Pair>)
    ensures Consistent(pairs) <==>
            forall labels: map<string, string> ::
              Contains(labels, MapOf(pairs)) <==> Satisfies(labels, pairs)
  {
    var merged := MapOf(pairs);
    MapOfEntries(pairs);
    if Consistent(pairs) {
      forall labels: map<string, string>
        ensures Contains(labels, merged) <==> Satisfies(labels, pairs)
      {
        if Contains(labels, merged) {
          forall i | 0 <= i < |pairs|
            ensures pairs[i].0 in labels && labels[pairs[i].0] == pairs[i].1
          {
            var j :| 0 <= j < |pairs| && pairs[j] == (pairs[i].0, merged[pairs[i].0]);
          }
        }
      }
    } else {
      assert Contains(merged, merged) && !Satisfies(merged, pairs);
    }
  }

  function Wanted(namespace: string, pairs: seq<Pair>): Row -> bool {
    (row: Row) => row.namespace == namespace && Satisfies(row.labels, pairs)
  }

  /** All archived runs of the namespace that satisfy the pairs, newest first. */
  function ArchivedRuns(table: seq<Row>, namespace: string, pairs: seq<Pair>): seq<Row> {
    Sort(Filter(table, Wanted(namespace, pairs)), RowNewer)
  }

  method ArchivedSummaries(db: Database, namespace: string, pairs: seq<Pair>, limit: nat)
    returns (r: Result<seq<RunSummary>, RunsByLabelError>)
    ensures db.Unreachable? ==> r == Err(Db(db.message))
    ensures db.Serving? ==>
              r == Ok(Collect(Take(ArchivedRuns(db.table, namespace, pairs), limit), ArchivedSummaryOf))
    ensures r.Ok? ==> forall run | run in r.value ::
              run.source == Archive && IsRow(db.table, namespace, pairs, run.name, run.createdTime)
  {
    if db.Unreachable? {
      return Err(Db(db.message));
    }
    var q := BuildQuery(namespace, pairs, limit);
    forall row: Row
      ensures Selected(q, row) <==> row.namespace == namespace && Satisfies(row.labels, pairs)
    {
      QueryMeansSelector(q, namespace, pairs, limit, row);
    }
    FilterAgrees(db.table, SelectedBy(q), Wanted(namespace, pairs));
    var rows := Execute(q, db.table);
    forall run | run in Collect(rows, ArchivedSummaryOf)
      ensures run.source == Archive && IsRow(db.table, namespace, pairs, run.name, run.createdTime)
    {
      SliceIsCollected(ArchivedRuns(db.table, namespace, pairs), limit, run);
      CollectMembers(rows, ArchivedSummaryOf, run);
      ArchivedRunIsRow(db.table, namespace, pairs, run.name, run.createdTime);
    }
    return Ok(Collect(rows, ArchivedSummaryOf));
  }

  // ── Merge ──────────────────────────────────────────────────────────────

  function Names(runs: seq<RunSummary>): set<string> {
    if runs == [] then {} else {runs[0].name} + Names(runs[1..])
  }

  lemma {:induction false} NamesMember(runs: seq<RunSummary>, name: string)
    ensures name in Names(runs) <==> exists i :: 0 <= i < |runs| && runs[i].name == name
  {
    if runs != [] {
      NamesMember(runs[1..], name);
      if i :| 0 <= i < |runs[1..]| && runs[1..][i].name == name {
        assert runs[i + 1].name == name;
      }
      if i :| 0 < i < |runs| && runs[i].name == name {
        assert runs[1..][i - 1].name == name;
      }
    }
  }

  lemma {:induction false} NamesSnoc(runs: seq<RunSummary>, r: RunSummary)
    ensures Names(runs + [r]) == Names(runs) + {r.name}
  {
    if runs != [] {
      NamesSnoc(runs[1..], r);
      assert (runs + [r])[1..] == runs[1..] + [r];
    }
  }

  /** The archived runs whose names have not been seen. */
  function Unseen(archived: seq<RunSummary>, seen: set<string>): seq<RunSummary> {
    if archived == [] then []
    else if archived[0].name in seen then Unseen(archived[1..], seen)
    else [archived[0]] + Unseen(archived[1..], seen + {archived[0].name})
  }

  /** The live-wins merge of two lists, newest first, cut to `limit`. */
  function NewestOf(live: seq<RunSummary>, archived: seq<RunSummary>, limit: nat): seq<RunSummary> {
    Take(Sort(live + Unseen(archived, Names(live)), Newer), limit)
  }

  method MergeSources(live: seq<RunSummary>, archived: seq<RunSummary>, limit: nat)
    returns (merged: seq<RunSummary>)
    ensures merged == NewestOf(live, archived, limit)
  {
    var seen: set<string> := {};
    merged := [];
    for i := 0 to |live|
      invariant merged == live[..i]
      invariant seen == Names(live[..i])
    {
      assert live[..i + 1] == live[..i] + [live[i]];
      NamesSnoc(live[..i], live[i]);
      seen := seen + {live[i].name};
      merged := merged + [live[i]];
    }
    assert live[..|live|] == live;
    ghost var all := live + Unseen(archived, Names(live));
    assert archived[0..] == archived;
    for i := 0 to |archived|
      invariant merged + Unseen(archived[i..], seen) == all
    {
      assert archived[i..][1..] == archived[i + 1..];
      if archived[i].name !in seen {
        seen := seen + {archived[i].name};
        merged := merged + [archived[i]];
      }
    }
    assert merged + [] == all;
    assert merged == all;
    merged := Sort(merged, Newer);
    merged := Take(merged, limit);
  }

  method FetchRunsByLabel(
    listed: Result<seq<LiveObject>, string>, db: Database, namespace: string, pairs: seq<Pair>, limit: nat)
    returns (r: Result<seq<RunSummary>, RunsByLabelError>)
    ensures listed.Err? ==> r == Err(Kube(listed.error))
    ensures listed.Ok? ==>
              var live := Take(Sort(Collect(listed.value, LiveSummaryOf), Newer), limit);
              var archived := if db.Unreachable? then []
                              else Collect(Take(ArchivedRuns(db.table, namespace, pairs), limit), ArchivedSummaryOf);
              r == Ok(NewestOf(live, archived, limit))
    ensures r.Ok? ==> forall run | run in r.value ::
              Held(listed.value, if db.Serving? then db.table else [], namespace, pairs, run)
  {
    var liveRes := LiveSummaries(listed, limit);
    var archivedRes := ArchivedSummaries(db, namespace, pairs, limit);
    if liveRes.Err? {
      return Err(liveRes.error);
    }
    var archived := if archivedRes.Ok? then archivedRes.value else [];
    var merged := MergeSources(liveRes.value, archived, limit);
    forall run | run in merged
      ensures Held(listed.value, if db.Serving? then db.table else [], namespace, pairs, run)
    {
      ResponseIsHeld(listed.value, if db.Serving? then db.table else [], namespace, pairs, limit, run);
    }
    return Ok(merged);
  }

  // ── What the merge guarantees ──────────────────────────────────────────

  predicate UniqueNames(runs: seq<RunSummary>) {
    forall i, j | 0 <= i < j < |runs| :: runs[i].name != runs[j].name
  }

  lemma {:induction false} UnseenFacts(archived: seq<RunSummary>, seen: set<string>)
    ensures UniqueNames(Unseen(archived, seen))
    ensures forall r | r in Unseen(archived, seen) :: r in archived && r.name !in seen
  {
    if archived != [] {
      if archived[0].name in seen {
        UnseenFacts(archived[1..], seen);
      } else {
        UnseenFacts(archived[1..], seen + {archived[0].name});
      }
    }
  }

  lemma {:induction false} UnseenSorted(archived: seq<RunSummary>, seen: set<string>)
    requires Sorted(archived, Newer)
    ensures Sorted(Unseen(archived, seen), Newer)
  {
    if archived != [] {
      if archived[0].name in seen {
        UnseenSorted(archived[1..], seen);
      } else {
        UnseenSorted(archived[1..], seen + {archived[0].name});
        UnseenFacts(archived[1..], seen + {archived[0].name});
      }
    }
  }

  /** The archived runs kept are one for each name not seen. */
  lemma {:induction false} UnseenCount(archived: seq<RunSummary>, seen: set<string>)
    ensures |Unseen(archived, seen)| == |Names(archived) - seen|
  {
    if archived != [] {
      var rest, name := archived[1..], archived[0].name;
      if name in seen {
        UnseenCount(rest, seen);
        assert Names(archived) - seen == Names(rest) - seen;
      } else {
        UnseenCount(rest, seen + {name});
        assert Names(archived) - seen == {name} + (Names(rest) - (seen + {name}));
      }
    }
  }

  lemma {:induction false} UniqueCount(runs: seq<RunSummary>)
    requires UniqueNames(runs)
    ensures |Names(runs)| == |runs|
  {
    if runs != [] {
      NamesMember(runs[1..], runs[0].name);
      UniqueCount(runs[1..]);
    }
  }

  lemma {:induction false} NamesCount(runs: seq<RunSummary>)
    ensures |Names(runs)| <= |runs|
  {
    if runs != [] {
      NamesCount(runs[1..]);
    }
  }

  lemma SubsetCount(a: set<string>, b: set<string>)
    requires a <= b
    ensures |a| <= |b|
  {
    assert b == a + (b - a);
  }

  function SummaryName(r: RunSummary): string {
    r.name
  }

  lemma UniqueAcrossRearrangement(s: seq<RunSummary>, t: seq<RunSummary>)
    requires multiset(s) == multiset(t) && UniqueNames(s)
    ensures UniqueNames(t)
  {
    DistinctAcrossRearrangement(s, t, SummaryName);
    forall i, j | 0 <= i < j < |t|
      ensures t[i].name != t[j].name
    {
      assert SummaryName(t[i]) != SummaryName(t[j]);
    }
  }

  lemma CombinedIsUnique(live: seq<RunSummary>, archived: seq<RunSummary>)
    requires UniqueNames(live)
    ensures UniqueNames(live + Unseen(archived, Names(live)))
  {
    var unseen := Unseen(archived, Names(live));
    UnseenFacts(archived, Names(live));
    forall i, j | 0 <= i < |live| && 0 <= j < |unseen|
      ensures live[i].name != unseen[j].name
    {
      assert unseen[j] in unseen;
      NamesMember(live, live[i].name);
    }
  }

  lemma CombinedCount(live: seq<RunSummary>, archived: seq<RunSummary>)
    requires UniqueNames(live)
    ensures |live + Unseen(archived, Names(live))| == |Names(live) + Names(archived)|
  {
    UniqueCount(live);
    UnseenCount(archived, Names(live));
    assert Names(live) + Names(archived) == Names(live) + (Names(archived) - Names(live));
  }

  lemma MergeLength(live: seq<RunSummary>, archived: seq<RunSummary>, limit: nat)
    requires UniqueNames(live)
    ensures var names := |Names(live) + Names(archived)|;
            |NewestOf(live, archived, limit)| == if names < limit then names else limit
  {
    CombinedCount(live, archived);
  }

  /** The first row of its name. */
  predicate FirstNamed(archived: seq<RunSummary>, p: int) {
    0 <= p < |archived| && forall q | 0 <= q < p :: archived[q].name != archived[p].name
  }

  lemma {:induction false} UnseenMeans(archived: seq<RunSummary>, seen: set<string>, r: RunSummary)
    ensures r in Unseen(archived, seen) <==>
            r.name !in seen && exists p :: FirstNamed(archived, p) && archived[p] == r
  {
    if archived != [] {
      var rest, seen' := archived[1..], if archived[0].name in seen then seen else seen + {archived[0].name};
      UnseenMeans(rest, seen', r);
      if p :| FirstNamed(archived, p) && archived[p] == r && p > 0 {
        assert FirstNamed(rest, p - 1) by {
          assert forall q | 0 <= q < p :: rest[q] == archived[q + 1];
        }
      }
      if p :| FirstNamed(rest, p) && rest[p] == r && r.name != archived[0].name {
        assert FirstNamed(archived, p + 1) by {
          assert forall q | 0 < q < p + 1 :: archived[q] == rest[q - 1];
        }
      }
      assert FirstNamed(archived, 0);
    }
  }

  /** What a merge can show: a live run, or the first row of a name that no live run has. */
  ghost predicate Shows(live: seq<RunSummary>, archived: seq<RunSummary>, r: RunSummary) {
    r in live || (r.name !in Names(live) && exists p :: FirstNamed(archived, p) && archived[p] == r)
  }

  /**
    Newest first, no run twice, the live copy wherever there is one, else the archive's first, and as
    long as it can be: `limit` runs, or one for each distinct name if there are fewer; none of those
    left out is newer than one that is shown.
  */
  lemma MergeGuarantees(live: seq<RunSummary>, archived: seq<RunSummary>, limit: nat)
    requires UniqueNames(live)
    ensures var out := NewestOf(live, archived, limit);
            && Sorted(out, Newer) && UniqueNames(out)
            && (forall r | r in out :: Shows(live, archived, r))
            && (forall r, o | Shows(live, archived, r) && r !in out && o in out :: Newer(o, r))
            && var names := |Names(live) + Names(archived)|; |out| == if names < limit then names else limit
  {
    var all := live + Unseen(archived, Names(live));
    NewerIsPreorder();
    SortSorts(all, Newer);
    CombinedIsUnique(live, archived);
    UniqueAcrossRearrangement(all, Sort(all, Newer));
    MergeLength(live, archived, limit);
    forall r
      ensures r in all <==> Shows(live, archived, r)
    {
      UnseenMeans(archived, Names(live), r);
    }
    forall r | r in NewestOf(live, archived, limit)
      ensures r in all
    {
      MemberByMultiset(all, Sort(all, Newer), r);
    }
    LeftOutIsOlder(all, limit);
  }

  lemma LeftOutIsOlder(all: seq<RunSummary>, limit: nat)
    ensures var out := Take(Sort(all, Newer), limit);
            forall r, o | r in all && r !in out && o in out :: Newer(o, r)
  {
    var out := Take(Sort(all, Newer), limit);
    SortedPrefixIsNewest(all, limit);
    var rest :| Leaves(all, out, rest);
    forall r, o | r in all && r !in out && o in out
      ensures Newer(o, r)
    {
      RestIsOlder(all, out, rest, r, o);
    }
  }

  lemma RestIsOlder(
    all: seq<RunSummary>, out: seq<RunSummary>, rest: seq<RunSummary>, r: RunSummary, o: RunSummary)
    requires Leaves(all, out, rest) && r in all && r !in out && o in out
    ensures Newer(o, r)
  {
    MemberByMultiset(out + rest, all, r);
    var i :| 0 <= i < |out| && out[i] == o;
    var j :| 0 <= j < |rest| && rest[j] == r;
  }

  /**
    The response is full exactly when the slices hold `limit` distinct names: so whenever the live
    slice is full, and whenever the archive's is unless it repeats a name.
  */
  lemma FullExactlyWhen(live: seq<RunSummary>, archived: seq<RunSummary>, limit: nat)
    requires UniqueNames(live)
    ensures |NewestOf(live, archived, limit)| == limit <==> |Names(live) + Names(archived)| >= limit
    ensures |live| >= limit || (|archived| >= limit && UniqueNames(archived)) ==>
              |Names(live) + Names(archived)| >= limit
  {
    MergeLength(live, archived, limit);
    UniqueCount(live);
    SubsetCount(Names(live), Names(live) + Names(archived));
    SubsetCount(Names(archived), Names(live) + Names(archived));
    if UniqueNames(archived) {
      UniqueCount(archived);
    }
  }

  // ── Limit pushdown ─────────────────────────────────────────────────────

  lemma MergeTakesLive(live: seq<RunSummary>, unseen: seq<RunSummary>, n: nat)
    requires live != [] && n > 0
    requires unseen != [] ==> Newer(live[0], unseen[0])
    ensures Take(Merge(live, unseen, Newer), n) == [live[0]] + Take(Merge(live[1..], unseen, Newer), n - 1)
  {
    if unseen == [] {
      assert Merge(live[1..], unseen, Newer) == live[1..];
      assert live == [live[0]] + live[1..];
    }
  }

  lemma MergeTakesArchived(live: seq<RunSummary>, unseen: seq<RunSummary>, n: nat)
    requires unseen != [] && n > 0
    requires live != [] ==> !Newer(live[0], unseen[0])
    ensures Take(Merge(live, unseen, Newer), n) == [unseen[0]] + Take(Merge(live, unseen[1..], Newer), n - 1)
  {
    if live == [] {
      assert unseen == [unseen[0]] + unseen[1..];
    }
  }

  lemma HeadNewest(runs: seq<RunSummary>, r: RunSummary)
    requires Sorted(runs, Newer) && r in runs
    ensures Newer(runs[0], r)
  {
    NewerIsPreorder();
    assert Comparable(Newer, runs[0], runs[0]);
  }

  lemma HeadDominates(head: RunSummary, archived: seq<RunSummary>, seen: set<string>)
    requires Sorted(archived, Newer) && (archived != [] ==> Newer(head, archived[0]))
    ensures Unseen(archived, seen) != [] ==> Newer(head, Unseen(archived, seen)[0])
  {
    var unseen := Unseen(archived, seen);
    if unseen != [] {
      UnseenFacts(archived, seen);
      assert unseen[0] in unseen;
      NewerIsPreorder();
      HeadNewest(archived, unseen[0]);
      assert Chains(Newer, head, archived[0], unseen[0]);
    }
  }

  /** The first `n` of the sorted live list woven with the unseen archived runs. */
  function Weave(live: seq<RunSummary>, archived: seq<RunSummary>, seen: set<string>, n: nat): seq<RunSummary> {
    Take(Merge(live, Unseen(archived, seen), Newer), n)
  }

  lemma WeaveLiveHead(live: seq<RunSummary>, archived: seq<RunSummary>, seen: set<string>, n: nat)
    requires Sorted(archived, Newer) && live != [] && n > 0
    requires archived != [] ==> Newer(live[0], archived[0])
    ensures Weave(live, archived, seen, n) == [live[0]] + Weave(live[1..], archived, seen, n - 1)
  {
    HeadDominates(live[0], archived, seen);
    MergeTakesLive(live, Unseen(archived, seen), n);
  }

  lemma WeaveArchivedHead(live: seq<RunSummary>, archived: seq<RunSummary>, seen: set<string>, n: nat)
    requires archived != [] && n > 0
    requires live != [] ==> !Newer(live[0], archived[0])
    ensures Weave(live, archived, seen, n) ==
            if archived[0].name in seen then Weave(live, archived[1..], seen, n)
            else [archived[0]] + Weave(live, archived[1..], seen + {archived[0].name}, n - 1)
  {
    if archived[0].name !in seen {
      var unseen := Unseen(archived, seen);
      assert unseen[1..] == Unseen(archived[1..], seen + {archived[0].name});
      MergeTakesArchived(live, unseen, n);
    }
  }

  lemma NamesOfTake(live: seq<RunSummary>, m: nat, name: string)
    ensures name in Names(Take(live, m)) ==> name in Names(live)
  {
    NamesMember(live, name);
    NamesMember(Take(live, m), name);
  }

  /** How many of the sorted live runs the merge puts before `a`: those at least as new. */
  function LiveBefore(live: seq<RunSummary>, a: RunSummary): nat {
    if live == [] || !Newer(live[0], a) then 0 else 1 + LiveBefore(live[1..], a)
  }

  lemma {:induction false} LiveBeforeCounts(live: seq<RunSummary>, a: RunSummary, i: nat)
    requires Sorted(live, Newer) && i < |live|
    ensures LiveBefore(live, a) <= |live|
    ensures Newer(live[i], a) <==> i < LiveBefore(live, a)
  {
    NewerIsPreorder();
    assert Comparable(Newer, live[0], live[0]) && Chains(Newer, live[0], live[i], a);
    if |live| > 1 {
      LiveBeforeCounts(live[1..], a, if i == 0 then 0 else i - 1);
    }
  }

  /** The merge keeps archived run `p`: its name has not been seen when its turn comes. */
  predicate KeptAt(archived: seq<RunSummary>, seen: set<string>, p: nat)
    requires p < |archived|
  {
    archived[p].name !in seen && archived[p].name !in Names(archived[..p])
  }

  /** How many runs the merge puts before archived run `p`. */
  function Rank(live: seq<RunSummary>, archived: seq<RunSummary>, seen: set<string>, p: nat): nat
    requires p < |archived|
  {
    LiveBefore(live, archived[p]) + |Unseen(archived[..p], seen)|
  }

  /**
    Of the archived runs that come within the first `n`, those kept are within the first `k` and
    still kept with `seen'`, and no others are.
  */
  predicate SameChoices(
    live: seq<RunSummary>, archived: seq<RunSummary>, seen: set<string>, k: nat, seen': set<string>, n: nat)
  {
    forall p | 0 <= p < |archived| && Rank(live, archived, seen, p) < n ::
      KeptAt(archived, seen, p) <==> p < k && KeptAt(archived, seen', p)
  }

  lemma ChoicesAfterLive(
    live: seq<RunSummary>, archived: seq<RunSummary>, seen: set<string>, k: nat, seen': set<string>, n: nat)
    requires Sorted(archived, Newer) && live != [] && n > 0
    requires archived != [] ==> Newer(live[0], archived[0])
    ensures SameChoices(live, archived, seen, k, seen', n) <==> SameChoices(live[1..], archived, seen, k, seen', n - 1)
  {
    forall p | 0 <= p < |archived|
      ensures Rank(live, archived, seen, p) == 1 + Rank(live[1..], archived, seen, p)
    {
      NewerIsPreorder();
      HeadNewest(archived, archived[p]);
      assert Chains(Newer, live[0], archived[0], archived[p]);
    }
  }

  lemma KeptAfterArchived(archived: seq<RunSummary>, seen: set<string>, p: nat)
    requires 0 < p < |archived|
    ensures KeptAt(archived, seen, p) <==> KeptAt(archived[1..], seen + {archived[0].name}, p - 1)
  {
    assert archived[..p][1..] == archived[1..][..p - 1];
  }

  lemma RankAfterArchived(live: seq<RunSummary>, archived: seq<RunSummary>, seen: set<string>, p: nat)
    requires 0 < p < |archived|
    ensures Rank(live, archived, seen, p) ==
            Rank(live, archived[1..], seen + {archived[0].name}, p - 1) + if archived[0].name in seen then 0 else 1
  {
    assert archived[..p][1..] == archived[1..][..p - 1];
    if archived[0].name in seen {
      assert seen + {archived[0].name} == seen;
    }
  }

  function Less(n: nat): nat {
    if n == 0 then 0 else n - 1
  }

  lemma ChoicesAfterArchived(
    live: seq<RunSummary>, archived: seq<RunSummary>, seen: set<string>, k: nat, seen': set<string>, n: nat)
    requires archived != [] && n > 0 && (live != [] ==> !Newer(live[0], archived[0]))
    ensures var name := archived[0].name;
            var n' := if name in seen then n else n - 1;
            SameChoices(live, archived, seen, k, seen', n) <==>
            && (name !in seen <==> k > 0 && name !in seen')
            && SameChoices(live, archived[1..], seen + {name}, Less(k), seen' + {name}, n')
  {
    var name := archived[0].name;
    var n' := if name in seen then n else n - 1;
    assert Rank(live, archived, seen, 0) == 0;
    assert KeptAt(archived, seen, 0) == (name !in seen) && KeptAt(archived, seen', 0) == (name !in seen');
    forall p | 0 < p < |archived|
      ensures Rank(live, archived, seen, p) < n <==> Rank(live, archived[1..], seen + {name}, p - 1) < n'
      ensures KeptAt(archived, seen, p) == KeptAt(archived[1..], seen + {name}, p - 1)
      ensures KeptAt(archived, seen', p) == KeptAt(archived[1..], seen' + {name}, p - 1)
    {
      RankAfterArchived(live, archived, seen, p);
      KeptAfterArchived(archived, seen, p);
      KeptAfterArchived(archived, seen', p);
    }
    if SameChoices(live, archived, seen, k, seen', n) {
      assert KeptAt(archived, seen, 0) <==> 0 < k && KeptAt(archived, seen', 0);
      forall q | 0 <= q < |archived[1..]| && Rank(live, archived[1..], seen + {name}, q) < n'
        ensures KeptAt(archived[1..], seen + {name}, q) <==> q < Less(k) && KeptAt(archived[1..], seen' + {name}, q)
      {
        assert Rank(live, archived, seen, q + 1) < n;
      }
    }
  }

  /** The sources as they are tagged: so no archived run equals a live one. */
  predicate Sourced(live: seq<RunSummary>, archived: seq<RunSummary>) {
    (forall l | l in live :: l.source == Tekton) && (forall a | a in archived :: a.source == Archive)
  }

  lemma WeaveHead(live: seq<RunSummary>, archived: seq<RunSummary>, seen: set<string>, n: nat)
    ensures var out := Weave(live, archived, seen, n);
            out != [] ==> out[0] in live || (out[0] in archived && out[0].name !in seen)
  {
    UnseenFacts(archived, seen);
  }

  /** What the two weaves do at a live head. */
  lemma WeavesAtLive(
    live: seq<RunSummary>, archived: seq<RunSummary>, seen: set<string>, m: nat, k: nat, seen': set<string>, n: nat)
    requires Sorted(archived, Newer) && live != [] && m >= n > 0
    requires archived != [] ==> Newer(live[0], archived[0])
    ensures Weave(live, archived, seen, n) == Weave(Take(live, m), Take(archived, k), seen', n) <==>
            Weave(live[1..], archived, seen, n - 1) == Weave(Take(live[1..], m - 1), Take(archived, k), seen', n - 1)
  {
    assert Take(live, m)[1..] == Take(live[1..], m - 1);
    WeaveLiveHead(live, archived, seen, n);
    WeaveLiveHead(Take(live, m), Take(archived, k), seen', n);
    SameHead(live[0], Weave(live[1..], archived, seen, n - 1),
             Weave(Take(live[1..], m - 1), Take(archived, k), seen', n - 1));
  }

  lemma SameHead(r: RunSummary, a: seq<RunSummary>, b: seq<RunSummary>)
    ensures [r] + a == [r] + b <==> a == b
  {
    assert ([r] + a)[1..] == a && ([r] + b)[1..] == b;
  }

  /** What they do at an archived head about which they agree. */
  lemma WeavesAtArchived(
    live: seq<RunSummary>, archived: seq<RunSummary>, seen: set<string>, m: nat, k: nat, seen': set<string>, n: nat)
    requires archived != [] && m >= n > 0 && (live != [] ==> !Newer(live[0], archived[0]))
    requires archived[0].name !in seen <==> k > 0 && archived[0].name !in seen'
    ensures var name := archived[0].name;
            var n' := if name in seen then n else n - 1;
            Weave(live, archived, seen, n) == Weave(Take(live, m), Take(archived, k), seen', n) <==>
            Weave(live, archived[1..], seen + {name}, n') ==
            Weave(Take(live, m), Take(archived[1..], Less(k)), seen' + {name}, n')
  {
    var name := archived[0].name;
    WeaveArchivedHead(live, archived, seen, n);
    if k == 0 {
      assert seen + {name} == seen;
    } else {
      assert Take(archived, k)[1..] == Take(archived[1..], k - 1);
      WeaveArchivedHead(Take(live, m), Take(archived, k), seen', n);
      if name in seen {
        assert seen + {name} == seen && seen' + {name} == seen';
      } else {
        SameHead(archived[0], Weave(live, archived[1..], seen + {name}, n - 1),
                 Weave(Take(live, m), Take(archived[1..], k - 1), seen' + {name}, n - 1));
      }
    }
  }

  /** Where they disagree about an archived head, what they put out differs. */
  lemma WeavesDiffer(
    live: seq<RunSummary>, archived: seq<RunSummary>, seen: set<string>, m: nat, k: nat, seen': set<string>, n: nat)
    requires archived != [] && m >= n > 0 && (live != [] ==> !Newer(live[0], archived[0]))
    requires Sourced(live, archived) && seen' <= seen
    requires !(archived[0].name !in seen <==> k > 0 && archived[0].name !in seen')
    ensures Weave(live, archived, seen, n) != Weave(Take(live, m), Take(archived, k), seen', n)
  {
    WeaveArchivedHead(live, archived, seen, n);
    WeaveHead(live, archived, seen, n);
    WeaveHead(Take(live, m), Take(archived, k), seen', n);
    assert archived[0] in archived;
    if archived[0].name in seen {
      WeaveArchivedHead(Take(live, m), Take(archived, k), seen', n);
    }
  }

  /** The first `n` of the two weaves are the same exactly when the same archived runs are chosen. */
  predicate AgreeExactly(
    live: seq<RunSummary>, archived: seq<RunSummary>, seen: set<string>, m: nat, k: nat, seen': set<string>, n: nat)
  {
    var same := Weave(live, archived, seen, n) == Weave(Take(live, m), Take(archived, k), seen', n);
    && (SameChoices(live, archived, seen, k, seen', n) ==> same)
    && (Sourced(live, archived) && same ==> SameChoices(live, archived, seen, k, seen', n))
  }

  lemma AgreeAtEnd(
    live: seq<RunSummary>, archived: seq<RunSummary>, seen: set<string>, m: nat, k: nat, seen': set<string>, n: nat)
    requires n == 0 || (live == [] && archived == [])
    ensures AgreeExactly(live, archived, seen, m, k, seen', n)
  {
  }

  /** Sorted newest first, said of neighbours. */
  predicate NewestFirst(runs: seq<RunSummary>) {
    |runs| <= 1 || (Newer(runs[0], runs[1]) && NewestFirst(runs[1..]))
  }

  lemma {:induction false} NewestFirstIsSorted(runs: seq<RunSummary>)
    ensures NewestFirst(runs) <==> Sorted(runs, Newer)
  {
    if |runs| > 1 {
      var rest := runs[1..];
      NewestFirstIsSorted(rest);
      NewerIsPreorder();
      forall i, j | NewestFirst(runs) && 0 <= i < j < |runs|
        ensures Newer(runs[i], runs[j])
      {
        if i > 0 {
          assert Newer(rest[i - 1], rest[j - 1]);
        } else if j > 1 {
          assert Newer(rest[0], rest[j - 1]) && Chains(Newer, runs[0], rest[0], rest[j - 1]);
        }
      }
      forall i, j | Sorted(runs, Newer) && 0 <= i < j < |rest|
        ensures Newer(rest[i], rest[j])
      {
        assert Newer(runs[i + 1], runs[j + 1]);
      }
    }
  }

  lemma AgreeAtLive(
    live: seq<RunSummary>, archived: seq<RunSummary>, seen: set<string>, m: nat, k: nat, seen': set<string>, n: nat)
    requires NewestFirst(archived) && live != [] && m >= n > 0
    requires archived != [] ==> Newer(live[0], archived[0])
    requires AgreeExactly(live[1..], archived, seen, m - 1, k, seen', n - 1)
    ensures AgreeExactly(live, archived, seen, m, k, seen', n)
  {
    NewestFirstIsSorted(archived);
    ChoicesAfterLive(live, archived, seen, k, seen', n);
    WeavesAtLive(live, archived, seen, m, k, seen', n);
  }

  lemma AgreeAtArchived(
    live: seq<RunSummary>, archived: seq<RunSummary>, seen: set<string>, m: nat, k: nat, seen': set<string>, n: nat)
    requires archived != [] && m >= n > 0 && (live != [] ==> !Newer(live[0], archived[0]))
    requires archived[0].name !in seen <==> k > 0 && archived[0].name !in seen'
    requires var name := archived[0].name;
             AgreeExactly(live, archived[1..], seen + {name}, m, Less(k), seen' + {name},
                          if name in seen then n else n - 1)
    ensures AgreeExactly(live, archived, seen, m, k, seen', n)
  {
    ChoicesAfterArchived(live, archived, seen, k, seen', n);
    WeavesAtArchived(live, archived, seen, m, k, seen', n);
  }

  lemma AgreeAtSplit(
    live: seq<RunSummary>, archived: seq<RunSummary>, seen: set<string>, m: nat, k: nat, seen': set<string>, n: nat)
    requires archived != [] && m >= n > 0 && (live != [] ==> !Newer(live[0], archived[0])) && seen' <= seen
    requires !(archived[0].name !in seen <==> k > 0 && archived[0].name !in seen')
    ensures AgreeExactly(live, archived, seen, m, k, seen', n)
  {
    ChoicesAfterArchived(live, archived, seen, k, seen', n);
    if Sourced(live, archived) {
      WeavesDiffer(live, archived, seen, m, k, seen', n);
    }
  }

  lemma {:induction false} WeavesAgreeExactly(
    live: seq<RunSummary>, archived: seq<RunSummary>, seen: set<string>, m: nat, k: nat, seen': set<string>, n: nat)
    requires NewestFirst(archived) && m >= n && seen' <= seen
    ensures AgreeExactly(live, archived, seen, m, k, seen', n)
    decreases |live| + |archived|, 1
  {
    if n == 0 || (live == [] && archived == []) {
      AgreeAtEnd(live, archived, seen, m, k, seen', n);
    } else if live != [] && (archived == [] || Newer(live[0], archived[0])) {
      AgreeFromLive(live, archived, seen, m, k, seen', n);
    } else if archived[0].name !in seen <==> k > 0 && archived[0].name !in seen' {
      AgreeFromArchived(live, archived, seen, m, k, seen', n);
    } else {
      AgreeAtSplit(live, archived, seen, m, k, seen', n);
    }
  }

  lemma {:induction false} AgreeFromLive(
    live: seq<RunSummary>, archived: seq<RunSummary>, seen: set<string>, m: nat, k: nat, seen': set<string>, n: nat)
    requires NewestFirst(archived) && m >= n > 0 && seen' <= seen && live != []
    requires archived != [] ==> Newer(live[0], archived[0])
    ensures AgreeExactly(live, archived, seen, m, k, seen', n)
    decreases |live| + |archived|, 0
  {
    WeavesAgreeExactly(live[1..], archived, seen, m - 1, k, seen', n - 1);
    assert AgreeExactly(live[1..], archived, seen, m - 1, k, seen', n - 1);
    AgreeAtLive(live, archived, seen, m, k, seen', n);
  }

  lemma {:induction false} AgreeFromArchived(
    live: seq<RunSummary>, archived: seq<RunSummary>, seen: set<string>, m: nat, k: nat, seen': set<string>, n: nat)
    requires NewestFirst(archived) && m >= n > 0 && seen' <= seen
    requires archived != [] && (live != [] ==> !Newer(live[0], archived[0]))
    requires archived[0].name !in seen <==> k > 0 && archived[0].name !in seen'
    ensures AgreeExactly(live, archived, seen, m, k, seen', n)
    decreases |live| + |archived|, 0
  {
    var name := archived[0].name;
    WeavesAgreeExactly(
      live, archived[1..], seen + {name}, m, Less(k), seen' + {name}, if name in seen then n else n - 1);
    AgreeAtArchived(live, archived, seen, m, k, seen', n);
  }

  lemma SortedWeavesAgree(
    live: seq<RunSummary>, archived: seq<RunSummary>, seen: set<string>, m: nat, k: nat, seen': set<string>, n: nat)
    requires Sorted(archived, Newer) && m >= n && seen' <= seen
    ensures AgreeExactly(live, archived, seen, m, k, seen', n)
  {
    NewestFirstIsSorted(archived);
    WeavesAgreeExactly(live, archived, seen, m, k, seen', n);
  }

  /** Sorting the live list first changes nothing, and the merge is a weave of two sorted lists. */
  lemma NewestIsWeave(live: seq<RunSummary>, archived: seq<RunSummary>, limit: nat)
    requires Sorted(archived, Newer)
    ensures NewestOf(live, archived, limit) == Weave(Sort(live, Newer), archived, Names(live), limit)
  {
    NewerIsPreorder();
    var unseen := Unseen(archived, Names(live));
    UnseenSorted(archived, Names(live));
    SortConcat(live, unseen, Newer);
    SortFixesSorted(unseen, Newer);
  }

  lemma SortedLiveFacts(live: seq<RunSummary>)
    ensures Sorted(Sort(live, Newer), Newer) && Names(Sort(live, Newer)) == Names(live)
    ensures forall r :: r in Sort(live, Newer) <==> r in live
  {
    NewerIsPreorder();
    var sorted := Sort(live, Newer);
    SortSorts(live, Newer);
    forall r
      ensures r in sorted <==> r in live
    {
      MemberByMultiset(live, sorted, r);
    }
    SameMembersSameNames(live, sorted);
    SameMembersSameNames(sorted, live);
  }

  lemma SameMembersSameNames(a: seq<RunSummary>, b: seq<RunSummary>)
    requires forall r | r in a :: r in b
    ensures Names(a) <= Names(b)
  {
    forall name | name in Names(a)
      ensures name in Names(b)
    {
      NamesMember(a, name);
      NamesMember(b, name);
      var i :| 0 <= i < |a| && a[i].name == name;
      assert a[i] in b;
    }
  }

  lemma CappedNewestIsWeave(live: seq<RunSummary>, archived: seq<RunSummary>, limit: nat)
    requires Sorted(live, Newer) && Sorted(archived, Newer)
    ensures var cut := Take(live, limit);
            NewestOf(cut, Take(archived, limit), limit) == Weave(cut, Take(archived, limit), Names(cut), limit)
  {
    var cut := Take(live, limit);
    NewerIsPreorder();
    SortFixesSorted(cut, Newer);
    NewestIsWeave(cut, Take(archived, limit), limit);
  }

  /** Capping each source at `limit` first changes nothing: sources and order included. */
  predicate Lossless(live: seq<RunSummary>, archived: seq<RunSummary>, limit: nat) {
    NewestOf(Take(Sort(live, Newer), limit), Take(archived, limit), limit) == NewestOf(live, archived, limit)
  }

  /**
    Of the archived runs before which the merge puts fewer than `limit` others: one that the merge
    keeps is within the archive's slice; and one that it drops, if it is within the archive's slice,
    is dropped for a name of the live slice or of an earlier archived run.
  */
  predicate CapIsHarmless(sorted: seq<RunSummary>, archived: seq<RunSummary>, limit: nat) {
    forall p | 0 <= p < |archived| && Rank(sorted, archived, Names(sorted), p) < limit ::
      if KeptAt(archived, Names(sorted), p) then p < limit
      else p < limit ==> !KeptAt(archived, Names(Take(sorted, limit)), p)
  }

  lemma HarmlessIsSameChoices(sorted: seq<RunSummary>, archived: seq<RunSummary>, limit: nat)
    ensures Names(Take(sorted, limit)) <= Names(sorted)
    ensures CapIsHarmless(sorted, archived, limit) <==>
            SameChoices(sorted, archived, Names(sorted), limit, Names(Take(sorted, limit)), limit)
  {
    forall name | name in Names(Take(sorted, limit))
      ensures name in Names(sorted)
    {
      NamesOfTake(sorted, limit, name);
    }
  }

  /** For any two lists and any limit, capping is lossless exactly when it is harmless. */
  lemma PushdownIsExact(live: seq<RunSummary>, archived: seq<RunSummary>, limit: nat)
    requires Sorted(archived, Newer)
    ensures CapIsHarmless(Sort(live, Newer), archived, limit) ==> Lossless(live, archived, limit)
    ensures Sourced(live, archived) && Lossless(live, archived, limit) ==>
              CapIsHarmless(Sort(live, Newer), archived, limit)
  {
    var sorted := Sort(live, Newer);
    SortedLiveFacts(live);
    NewestIsWeave(live, archived, limit);
    CappedNewestIsWeave(sorted, archived, limit);
    HarmlessIsSameChoices(sorted, archived, limit);
    SortedWeavesAgree(
      sorted, archived, Names(sorted), limit, limit, Names(Take(sorted, limit)), limit);
  }

  // ── No archived copy newer than its live copy ──────────────────────────

  predicate NoNewerCopies(live: seq<RunSummary>, archived: seq<RunSummary>) {
    forall l, a | l in live && a in archived && l.name == a.name :: Newer(l, a)
  }

  /** A dropped copy has its live run before it in the merge, so within any slice that reaches it. */
  lemma CopyIsBehindItsRun(live: seq<RunSummary>, archived: seq<RunSummary>, q: nat, p: nat, limit: nat)
    requires Sorted(live, Newer) && Sorted(archived, Newer) && NoNewerCopies(live, archived)
    requires q <= p < |archived| && archived[q].name in Names(live) && LiveBefore(live, archived[p]) <= limit
    ensures archived[q].name in Names(Take(live, limit))
  {
    var name := archived[q].name;
    NamesMember(live, name);
    var i :| 0 <= i < |live| && live[i].name == name;
    NewerIsPreorder();
    assert Comparable(Newer, archived[q], archived[q]);
    assert Newer(live[i], archived[q]) && Chains(Newer, live[i], archived[q], archived[p]);
    LiveBeforeCounts(live, archived[p], i);
    NamesMember(Take(live, limit), name);
    assert Take(live, limit)[i].name == name;
  }

  /** A run the merge keeps has at least as many merged runs before it as archived ones. */
  lemma RankCoversPosition(live: seq<RunSummary>, archived: seq<RunSummary>, p: nat)
    requires Sorted(live, Newer) && Sorted(archived, Newer) && NoNewerCopies(live, archived)
    requires UniqueNames(archived) && p < |archived|
    ensures p <= Rank(live, archived, Names(live), p)
  {
    var before, lead := archived[..p], LiveBefore(live, archived[p]);
    UniqueCount(before);
    UnseenCount(before, Names(live));
    var copies := Names(before) * Names(live);
    assert Names(before) == (Names(before) - Names(live)) + copies;
    forall name | name in copies
      ensures name in Names(Take(live, lead))
    {
      NamesMember(before, name);
      var q :| 0 <= q < |before| && before[q].name == name;
      CopyIsBehindItsRun(live, archived, q, p, lead);
    }
    SubsetCount(copies, Names(Take(live, lead)));
    NamesCount(Take(live, lead));
  }

  lemma NoNewerCopiesIsHarmless(live: seq<RunSummary>, archived: seq<RunSummary>, limit: nat)
    requires Sorted(live, Newer) && Sorted(archived, Newer) && NoNewerCopies(live, archived) && UniqueNames(archived)
    ensures CapIsHarmless(live, archived, limit)
  {
    forall p | 0 <= p < |archived| && Rank(live, archived, Names(live), p) < limit
      ensures if KeptAt(archived, Names(live), p) then p < limit
              else p < limit ==> !KeptAt(archived, Names(Take(live, limit)), p)
    {
      RankCoversPosition(live, archived, p);
      if archived[p].name in Names(live) {
        CopyIsBehindItsRun(live, archived, p, p, limit);
      }
    }
  }

  /**
    Capping each source first is lossless when the archive names each run once and holds no copy
    newer than the live run: the newest `limit` of the two capped lists are the newest `limit` of
    the two full lists, sources and order included.
  */
  lemma PushdownIsLossless(live: seq<RunSummary>, archived: seq<RunSummary>, limit: nat)
    requires Sorted(archived, Newer) && UniqueNames(archived) && NoNewerCopies(live, archived)
    ensures Lossless(live, archived, limit)
  {
    SortedLiveFacts(live);
    NoNewerCopiesIsHarmless(Sort(live, Newer), archived, limit);
    PushdownIsExact(live, archived, limit);
  }

  /** A run in both sources has time `tl` in the one and `ta` in the other. */
  predicate CopiesTimed(live: seq<RunSummary>, archived: seq<RunSummary>, tl: string, ta: string) {
    forall l, a | l in live && a in archived && l.name == a.name :: l.createdTime == tl && a.createdTime == ta
  }

  /** Two lists that may be capped, in which the copies of a run have the times `tl` and `ta`. */
  ghost predicate Timed(live: seq<RunSummary>, archived: seq<RunSummary>, tl: string, ta: string) {
    && Sorted(archived, Newer) && UniqueNames(live) && UniqueNames(archived) && Sourced(live, archived)
    && CopiesTimed(live, archived, tl, ta)
  }

  lemma OlderCopiesAreLossless(
    live: seq<RunSummary>, archived: seq<RunSummary>, limit: nat, tl: string, ta: string)
    requires StrLe(ta, tl) && Timed(live, archived, tl, ta)
    ensures Lossless(live, archived, limit)
  {
    PushdownIsLossless(live, archived, limit);
  }

  /**
    The times of a run's two copies decide: capping is lossless for every two lists with such
    copies and every limit exactly when the archived copy is not newer.
  */
  lemma TimesDecidePushdown(tl: string, ta: string)
    ensures StrLe(ta, tl) <==>
            forall live, archived, limit: nat | Timed(live, archived, tl, ta) :: Lossless(live, archived, limit)
  {
    if StrLe(ta, tl) {
      forall live, archived, limit: nat | Timed(live, archived, tl, ta)
        ensures Lossless(live, archived, limit)
      {
        OlderCopiesAreLossless(live, archived, limit, tl, ta);
      }
    } else {
      NewerCopyBreaksPushdown(tl, ta);
    }
  }

  lemma ThreeAreTimed(a: RunSummary, b: RunSummary, copy: RunSummary)
    requires a.source == Tekton && b.source == Tekton && copy.source == Archive
    requires a.name != b.name && copy.name == b.name
    ensures Timed([a, b], [copy], b.createdTime, copy.createdTime)
  {
  }

  /** Whenever the archived copy is newer, a cap of one shows it in place of the newest run. */
  lemma NewerCopyBreaksPushdown(tl: string, ta: string)
    requires !StrLe(ta, tl)
    ensures var live := [RunSummary("a", tl, Tekton), RunSummary("b", tl, Tekton)];
            var archived := [RunSummary("b", ta, Archive)];
            Timed(live, archived, tl, ta) && !Lossless(live, archived, 1)
  {
    var a, b, b' := RunSummary("a", tl, Tekton), RunSummary("b", tl, Tekton), RunSummary("b", ta, Archive);
    StrLeTotal(tl, tl);
    ThreeAreTimed(a, b, b');
    SortPair(a, b);
    MergeWithCopy(a, b, b');
    MergeWithOther(a, b');
    SortPair(a, b');
    assert [a, b][..1] == [a] && [b', a][..1] == [b'] && Take([b'], 1) == [b'];
  }

  /** A copy of a live run adds nothing. */
  lemma MergeWithCopy(a: RunSummary, b: RunSummary, copy: RunSummary)
    requires copy.name == b.name
    ensures forall limit: nat :: NewestOf([a, b], [copy], limit) == Take(Sort([a, b], Newer), limit)
  {
    NamesPair(a, b);
    UnseenOne(copy, Names([a, b]));
    assert [a, b] + [] == [a, b];
  }

  lemma MergeWithOther(a: RunSummary, b: RunSummary)
    requires a.name != b.name
    ensures forall limit: nat :: NewestOf([a], [b], limit) == Take(Sort([a, b], Newer), limit)
  {
    NamesPair(a, a);
    UnseenOne(b, Names([a]));
    assert [a] + [b] == [a, b];
  }

  /** The number of distinct names decides the length; a cap takes none away that matter. */
  lemma CapKeepsNames(live: seq<RunSummary>, archived: seq<RunSummary>, limit: nat)
    requires UniqueNames(live) && UniqueNames(archived)
    ensures var capped := |Names(Take(live, limit)) + Names(Take(archived, limit))|;
            var all := |Names(live) + Names(archived)|;
            capped == all || (capped >= limit && all >= limit)
  {
    FullExactlyWhen(Take(live, limit), Take(archived, limit), limit);
    FullExactlyWhen(live, archived, limit);
  }

  lemma SortKeepsNames(live: seq<RunSummary>)
    requires UniqueNames(live)
    ensures UniqueNames(Sort(live, Newer)) && Names(Sort(live, Newer)) == Names(live)
  {
    UniqueAcrossRearrangement(live, Sort(live, Newer));
    SortedLiveFacts(live);
  }

  /** The distinct names the two slices hold. */
  function HeldNames(live: seq<RunSummary>, archived: seq<RunSummary>, limit: nat): set<string> {
    Names(Take(Sort(live, Newer), limit)) + Names(Take(archived, limit))
  }

  lemma TakeNamesFewer(runs: seq<RunSummary>, n: nat)
    ensures Names(Take(runs, n)) <= Names(runs)
  {
    forall name | name in Names(Take(runs, n))
      ensures name in Names(runs)
    {
      NamesMember(Take(runs, n), name);
      NamesMember(runs, name);
    }
  }

  /**
    Capping shortens the response exactly when the slices hold fewer than `limit` distinct names,
    and fewer than the full lists do; it never lengthens it.
  */
  lemma CappingShortensExactly(live: seq<RunSummary>, archived: seq<RunSummary>, limit: nat)
    requires UniqueNames(live)
    ensures var capped := |NewestOf(Take(Sort(live, Newer), limit), Take(archived, limit), limit)|;
            var full := |NewestOf(live, archived, limit)|;
            var held := |HeldNames(live, archived, limit)|;
            && capped <= full
            && (capped < full <==> held < limit && held < |Names(live) + Names(archived)|)
  {
    SortKeepsNames(live);
    MergeLength(live, archived, limit);
    MergeLength(Take(Sort(live, Newer), limit), Take(archived, limit), limit);
    TakeNamesFewer(Sort(live, Newer), limit);
    TakeNamesFewer(archived, limit);
    SubsetCount(HeldNames(live, archived, limit), Names(live) + Names(archived));
  }

  /**
    Where names are unique in both sources, capping never shortens the response, whatever the times
    say.
  */
  lemma CappingKeepsLength(live: seq<RunSummary>, archived: seq<RunSummary>, limit: nat)
    requires UniqueNames(live) && UniqueNames(archived)
    ensures |NewestOf(Take(Sort(live, Newer), limit), Take(archived, limit), limit)| ==
            |NewestOf(live, archived, limit)|
  {
    SortKeepsNames(live);
    CappingShortensExactly(live, archived, limit);
    CapKeepsNames(Sort(live, Newer), archived, limit);
  }

  // ── End to end ─────────────────────────────────────────────────────────

  /** Every matching row has a name and a time. */
  predicate Complete(table: seq<Row>, namespace: string, pairs: seq<Pair>) {
    forall row | row in table && Wanted(namespace, pairs)(row) :: ArchivedSummaryOf(row).Some?
  }

  /** Limiting the rows is limiting the runs. */
  lemma RowsAreRuns(table: seq<Row>, namespace: string, pairs: seq<Pair>, limit: nat)
    requires Complete(table, namespace, pairs)
    ensures var rows := ArchivedRuns(table, namespace, pairs);
            && Collect(Take(rows, limit), ArchivedSummaryOf) == Take(Collect(rows, ArchivedSummaryOf), limit)
            && Sorted(Collect(rows, ArchivedSummaryOf), Newer)
  {
    var selected := Filter(table, Wanted(namespace, pairs));
    var rows := ArchivedRuns(table, namespace, pairs);
    RowNewerIsPreorder();
    SortSorts(selected, RowNewer);
    forall i | 0 <= i < |rows|
      ensures ArchivedSummaryOf(rows[i]).Some?
    {
      MemberByMultiset(rows, selected, rows[i]);
      FilterMembers(table, Wanted(namespace, pairs), rows[i]);
    }
    CollectAll(rows, ArchivedSummaryOf);
    CollectTake(rows, ArchivedSummaryOf, limit);
    var archived := Collect(rows, ArchivedSummaryOf);
    forall i, j | 0 <= i < j < |archived|
      ensures Newer(archived[i], archived[j])
    {
      assert RowNewer(rows[i], rows[j]);
    }
  }

  /** A row of the namespace that satisfies the pairs, and has that name and time. */
  predicate IsRow(table: seq<Row>, namespace: string, pairs: seq<Pair>, name: string, time: string) {
    exists row ::
      && row in table && row.namespace == namespace && Satisfies(row.labels, pairs)
      && row.name == Some(name) && row.created == Some(time)
  }

  lemma ArchivedRunIsRow(table: seq<Row>, namespace: string, pairs: seq<Pair>, name: string, time: string)
    ensures var all := Collect(ArchivedRuns(table, namespace, pairs), ArchivedSummaryOf);
            RunSummary(name, time, Archive) in all <==> IsRow(table, namespace, pairs, name, time)
  {
    var selected, rows := Filter(table, Wanted(namespace, pairs)), ArchivedRuns(table, namespace, pairs);
    var run := RunSummary(name, time, Archive);
    CollectMembers(rows, ArchivedSummaryOf, run);
    if i :| 0 <= i < |rows| && ArchivedSummaryOf(rows[i]) == Some(run) {
      MemberByMultiset(rows, selected, rows[i]);
      FilterMembers(table, Wanted(namespace, pairs), rows[i]);
    }
    if row :| row in table && row.namespace == namespace && Satisfies(row.labels, pairs)
              && row.name == Some(name) && row.created == Some(time) {
      FilterMembers(table, Wanted(namespace, pairs), row);
      MemberByMultiset(rows, selected, row);
      var i :| 0 <= i < |rows| && rows[i] == row;
      assert ArchivedSummaryOf(rows[i]) == Some(run);
    }
  }

  /**
    The archive's slice: its runs are the rows of the namespace that satisfy the pairs and have a
    name and a time, under these; and where all that match have both, it is the newest of them.
  */
  lemma ArchiveSliceIsNewest(table: seq<Row>, namespace: string, pairs: seq<Pair>, limit: nat)
    ensures var rows := ArchivedRuns(table, namespace, pairs);
            var all, slice := Collect(rows, ArchivedSummaryOf), Collect(Take(rows, limit), ArchivedSummaryOf);
            && (forall name: string, time: string ::
                  RunSummary(name, time, Archive) in all <==> IsRow(table, namespace, pairs, name, time))
            && (forall run | run in slice :: run in all)
            && (Complete(table, namespace, pairs) ==> NewestSlice(all, limit, slice))
  {
    var rows := ArchivedRuns(table, namespace, pairs);
    forall name: string, time: string
      ensures RunSummary(name, time, Archive) in Collect(rows, ArchivedSummaryOf) <==>
              IsRow(table, namespace, pairs, name, time)
    {
      ArchivedRunIsRow(table, namespace, pairs, name, time);
    }
    forall run | run in Collect(Take(rows, limit), ArchivedSummaryOf)
      ensures run in Collect(rows, ArchivedSummaryOf)
    {
      SliceIsCollected(rows, limit, run);
    }
    if Complete(table, namespace, pairs) {
      RowsAreRuns(table, namespace, pairs, limit);
      PrefixIsNewest(Collect(rows, ArchivedSummaryOf), Collect(rows, ArchivedSummaryOf), limit);
    }
  }

  lemma SliceIsCollected(rows: seq<Row>, limit: nat, run: RunSummary)
    requires run in Collect(Take(rows, limit), ArchivedSummaryOf)
    ensures run in Collect(rows, ArchivedSummaryOf)
  {
    CollectMembers(Take(rows, limit), ArchivedSummaryOf, run);
    var i :| 0 <= i < |Take(rows, limit)| && ArchivedSummaryOf(Take(rows, limit)[i]) == Some(run);
    assert ArchivedSummaryOf(rows[i]) == Some(run);
    CollectMembers(rows, ArchivedSummaryOf, run);
  }

  /** The run is a listed object, or a row that matches, with its name and time. */
  predicate Held(listed: seq<LiveObject>, table: seq<Row>, namespace: string, pairs: seq<Pair>, run: RunSummary) {
    match run.source
    case Tekton => LiveObject(Some(run.name), Some(run.createdTime)) in listed
    case Archive => IsRow(table, namespace, pairs, run.name, run.createdTime)
  }

  /** Every run of the response is held by one of the two sources, under its name and time. */
  lemma ResponseIsHeld(
    listed: seq<LiveObject>, table: seq<Row>, namespace: string, pairs: seq<Pair>, limit: nat, run: RunSummary)
    requires var live := Take(Sort(Collect(listed, LiveSummaryOf), Newer), limit);
             var archived := Collect(Take(ArchivedRuns(table, namespace, pairs), limit), ArchivedSummaryOf);
             run in NewestOf(live, archived, limit)
    ensures Held(listed, table, namespace, pairs, run)
  {
    var all := Collect(listed, LiveSummaryOf);
    var live := Take(Sort(all, Newer), limit);
    var rows := ArchivedRuns(table, namespace, pairs);
    var archived := Collect(Take(rows, limit), ArchivedSummaryOf);
    var merged := live + Unseen(archived, Names(live));
    MemberByMultiset(Sort(merged, Newer), merged, run);
    UnseenFacts(archived, Names(live));
    if run in live {
      MemberByMultiset(Sort(all, Newer), all, run);
      CollectMembers(listed, LiveSummaryOf, run);
      LiveSliceIsNewest(listed, limit);
    } else {
      SliceIsCollected(rows, limit, run);
      CollectMembers(rows, ArchivedSummaryOf, run);
      ArchivedRunIsRow(table, namespace, pairs, run.name, run.createdTime);
    }
  }

  lemma SummariesAreSourced(listed: seq<LiveObject>, rows: seq<Row>)
    ensures Sourced(Collect(listed, LiveSummaryOf), Collect(rows, ArchivedSummaryOf))
  {
    forall l | l in Collect(listed, LiveSummaryOf)
      ensures l.source == Tekton
    {
      CollectMembers(listed, LiveSummaryOf, l);
    }
    forall a | a in Collect(rows, ArchivedSummaryOf)
      ensures a.source == Archive
    {
      CollectMembers(rows, ArchivedSummaryOf, a);
    }
  }

  /** The response is the newest `limit` of everything the two sources hold. */
  predicate Exact(
    listed: seq<LiveObject>, table: seq<Row>, namespace: string, pairs: seq<Pair>, limit: nat)
  {
    var live, rows := Collect(listed, LiveSummaryOf), ArchivedRuns(table, namespace, pairs);
    NewestOf(Take(Sort(live, Newer), limit), Collect(Take(rows, limit), ArchivedSummaryOf), limit) ==
    NewestOf(live, Collect(rows, ArchivedSummaryOf), limit)
  }

  /**
    When both sources answer and the matching rows have names and times, the response is exact
    precisely when the cap is harmless; and it is when those rows have unique names and none is a
    copy newer than its live run.
  */
  lemma ResponseIsNewestOfEverything(
    listed: seq<LiveObject>, table: seq<Row>, namespace: string, pairs: seq<Pair>, limit: nat)
    requires Complete(table, namespace, pairs)
    ensures var live := Collect(listed, LiveSummaryOf);
            var archived := Collect(ArchivedRuns(table, namespace, pairs), ArchivedSummaryOf);
            && (Exact(listed, table, namespace, pairs, limit) <==>
                CapIsHarmless(Sort(live, Newer), archived, limit))
            && (UniqueNames(archived) && NoNewerCopies(live, archived) ==>
                Exact(listed, table, namespace, pairs, limit))
  {
    var live := Collect(listed, LiveSummaryOf);
    var archived := Collect(ArchivedRuns(table, namespace, pairs), ArchivedSummaryOf);
    RowsAreRuns(table, namespace, pairs, limit);
    SummariesAreSourced(listed, ArchivedRuns(table, namespace, pairs));
    PushdownIsExact(live, archived, limit);
    if UniqueNames(archived) && NoNewerCopies(live, archived) {
      PushdownIsLossless(live, archived, limit);
    }
  }

  lemma SortPair(a: RunSummary, b: RunSummary)
    ensures Sort([a, b], Newer) == if Newer(a, b) then [a, b] else [b, a]
  {
    assert [a, b][1..] == [b] && [b][1..] == [];
    assert Sort([b], Newer) == [b];
  }

  lemma NamesPair(a: RunSummary, b: RunSummary)
    ensures Names([a]) == {a.name} && Names([a, b]) == {a.name, b.name}
  {
    assert [a, b][1..] == [b] && [b][1..] == [] && [a][1..] == [];
  }

  lemma UnseenOne(a: RunSummary, seen: set<string>)
    ensures Unseen([a], seen) == if a.name in seen then [] else [a]
  {
    assert [a][1..] == [];
  }

  /** An archive that holds one name twice can leave the capped response short. */
  lemma RepeatedArchiveNamesBreakPushdown()
    ensures var archived :=
              [RunSummary("x", "3", Archive), RunSummary("x", "2", Archive), RunSummary("y", "1", Archive)];
            Sorted(archived, Newer) && !UniqueNames(archived) &&
            |NewestOf([], Take(archived, 2), 2)| == 1 && |NewestOf([], archived, 2)| == 2
  {
    var x, x', y := RunSummary("x", "3", Archive), RunSummary("x", "2", Archive), RunSummary("y", "1", Archive);
    var archived := [x, x', y];
    assert archived[0].name == archived[1].name;
    assert StrLe("2", "3") && StrLe("1", "3") && StrLe("1", "2");
    assert archived[1..] == [x', y] && [x', y][1..] == [y] && [x, x'][1..] == [x'];
    assert Names([]) == {};
    assert Unseen([x, x'], {}) == [x] + Unseen([x'], {} + {"x"}) == [x];
    assert Unseen([y], {} + {"x"}) == [y];
    assert Unseen(archived, {}) == [x] + Unseen([x', y], {} + {"x"}) == [x, y];
    assert Take(archived, 2) == [x, x'];
  }
}
