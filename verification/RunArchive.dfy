/**
  src/handlers/run_archive.rs: a run reconstructed from the tekton-results records. This module
  has the record queries with the proxy TaskRun merge, and the run's skeleton.
*/
module RunArchive {
  import opened Wrappers
  import opened Sequences
  import opened Text
  import opened StableSort
  import opened TektonApi

  datatype ArchiveError = NotInArchive | Db(message: string) | Loki(message: string)

  // ── The records table ──────────────────────────────────────────────────

  /** A TaskRun record; `readable` says whether its text decodes. */
  datatype Record = Record(tr: TaskRun, created: int, readable: bool)

  datatype PipelineRecord = PipelineRecord(pr: PipelineRun, readable: bool)

  datatype Question = Labelled(runName: string) | Exact(taskrunName: string) | ProxyOf(customRun: string)

  /** The archive: the newest PipelineRun record per name, the TaskRun records, and which queries fail. */
  datatype Store = Store(
    pipelineRun: string -> Result<Option<PipelineRecord>, string>,
    records: seq<Record>,
    fault: Question -> Option<string>)

  predicate OlderRecord(a: Record, b: Record) {
    a.created <= b.created
  }

  predicate NewerRecord(a: Record, b: Record) {
    a.created >= b.created
  }

  function TaskRunIn(record: Record): Option<TaskRun> {
    if record.readable then Some(record.tr) else None
  }

  predicate Asks(q: Question, record: Record) {
    match q
    case Labelled(runName) => record.tr.pipelineRunLabel == Some(runName)
    case Exact(taskrunName) => record.tr.name == Some(taskrunName)
    case ProxyOf(customRun) => record.tr.customRunLabel == Some(customRun)
  }

  function Matching(q: Question): Record -> bool {
    (record: Record) => Asks(q, record)
  }

  /** `ORDER BY created_time DESC LIMIT 1`. */
  function Newest(store: Store, q: Question): Option<Record> {
    var matches := Sort(Filter(store.records, Matching(q)), NewerRecord);
    if matches == [] then None else Some(matches[0])
  }

  /** The newest match, when it decodes. */
  function NewestTaskRun(store: Store, q: Question): Option<TaskRun> {
    match Newest(store, q)
    case Some(record) => TaskRunIn(record)
    case None => None
  }

  // ── Proxy TaskRun merge ────────────────────────────────────────────────

  function CustomRunNameOf(c: ChildReference): Option<string> {
    if c.kind == Some("CustomRun") then c.name else None
  }

  function CustomRunNames(pr: PipelineRun): seq<string> {
    Collect(pr.childReferences, CustomRunNameOf)
  }

  /** The TaskRuns labelled with the run, oldest first. */
  function Primary(store: Store, runName: string): seq<TaskRun> {
    Collect(Sort(Filter(store.records, Matching(Labelled(runName))), OlderRecord), TaskRunIn)
  }

  function NamesFound(taskruns: seq<TaskRun>): set<string> {
    set tr | tr in taskruns && tr.name.Some? :: tr.name.value
  }

  function ExecName(customRun: string): string {
    customRun + "-exec"
  }

  /** What the merge adds for one CustomRun, given the names the first query found. */
  function Pick(store: Store, found: set<string>, customRun: string): Option<TaskRun> {
    if ExecName(customRun) in found then None
    else
      match NewestTaskRun(store, Exact(ExecName(customRun)))
      case Some(tr) => Some(tr)
      case None =>
        match NewestTaskRun(store, ProxyOf(customRun))
        case Some(tr) => if tr.name.GetOr("") in found then None else Some(tr)
        case None => None
  }

  /** The first query failure met while handling one CustomRun. */
  function PickFault(store: Store, found: set<string>, customRun: string): Option<string> {
    if ExecName(customRun) in found then None
    else if store.fault(Exact(ExecName(customRun))).Some? then store.fault(Exact(ExecName(customRun)))
    else if NewestTaskRun(store, Exact(ExecName(customRun))).Some? then None
    else store.fault(ProxyOf(customRun))
  }

  function Picks(store: Store, found: set<string>, customRuns: seq<string>): seq<TaskRun> {
    if customRuns == [] then []
    else
      Picks(store, found, customRuns[..|customRuns| - 1]) +
      match Pick(store, found, customRuns[|customRuns| - 1])
      case Some(tr) => [tr]
      case None => []
  }

  function PicksFault(store: Store, found: set<string>, customRuns: seq<string>): Option<string> {
    if customRuns == [] then None
    else
      match PickFault(store, found, customRuns[0])
      case Some(e) => Some(e)
      case None => PicksFault(store, found, customRuns[1..])
  }

  predicate EarlierTimestamp(a: TaskRun, b: TaskRun) {
    StrLe(a.creationTimestamp.GetOr(""), b.creationTimestamp.GetOr(""))
  }

  /** The TaskRuns of a run: the labelled ones, and the proxies of its CustomRun children. */
  function MergedTaskRuns(store: Store, runName: string, pr: PipelineRun): seq<TaskRun> {
    var primary := Primary(store, runName);
    if CustomRunNames(pr) == [] then primary
    else Sort(primary + Picks(store, NamesFound(primary), CustomRunNames(pr)), EarlierTimestamp)
  }

  function Fetched(store: Store, runName: string): Result<(PipelineRun, seq<TaskRun>), ArchiveError> {
    match store.pipelineRun(runName)
    case Err(e) => Err(Db(e))
    case Ok(None) => Err(NotInArchive)
    case Ok(Some(record)) =>
      if !record.readable then Err(Db("bad JSON in records.data"))
      else if store.fault(Labelled(runName)).Some? then Err(Db(store.fault(Labelled(runName)).value))
      else
        match PicksFault(store, NamesFound(Primary(store, runName)), CustomRunNames(record.pr))
        case Some(e) => Err(Db(e))
        case None => Ok((record.pr, MergedTaskRuns(store, runName, record.pr)))
  }

  /** One CustomRun child: skipped, found by its conventional name, or found by label. */
  method PickProxy(store: Store, alreadyFound: set<string>, customrunName: string)
    returns (r: Result<Option<TaskRun>, ArchiveError>)
    ensures var fault := PickFault(store, alreadyFound, customrunName);
            r == if fault.Some? then Err(Db(fault.value)) else Ok(Pick(store, alreadyFound, customrunName))
  {
    var proxyName := ExecName(customrunName);
    if proxyName in alreadyFound {
      return Ok(None);
    }
    if store.fault(Exact(proxyName)).Some? {
      return Err(Db(store.fault(Exact(proxyName)).value));
    }
    var proxy := NewestTaskRun(store, Exact(proxyName));
    if proxy.Some? {
      return Ok(proxy);
    }
    if store.fault(ProxyOf(customrunName)).Some? {
      return Err(Db(store.fault(ProxyOf(customrunName)).value));
    }
    var labelled := NewestTaskRun(store, ProxyOf(customrunName));
    if labelled.Some? && labelled.value.name.GetOr("") !in alreadyFound {
      return Ok(labelled);
    }
    return Ok(None);
  }

  /** The loop over the CustomRun children. */
  method AddProxies(store: Store, primary: seq<TaskRun>, customrunNames: seq<string>)
    returns (r: Result<seq<TaskRun>, ArchiveError>)
    ensures var fault := PicksFault(store, NamesFound(primary), customrunNames);
            r == if fault.Some? then Err(Db(fault.value))
                 else Ok(primary + Picks(store, NamesFound(primary), customrunNames))
  {
    var alreadyFound := NamesFound(primary);
    var taskruns := primary;
    assert customrunNames[0..] == customrunNames;
    for i := 0 to |customrunNames|
      invariant taskruns == primary + Picks(store, alreadyFound, customrunNames[..i])
      invariant PicksFault(store, alreadyFound, customrunNames) ==
                PicksFault(store, alreadyFound, customrunNames[i..])
    {
      NextPick(store, alreadyFound, customrunNames, i);
      var picked := PickProxy(store, alreadyFound, customrunNames[i]);
      if picked.Err? {
        return Err(picked.error);
      }
      if picked.value.Some? {
        taskruns := taskruns + [picked.value.value];
      }
    }
    assert customrunNames[..|customrunNames|] == customrunNames;
    return Ok(taskruns);
  }

  lemma NextPick(store: Store, found: set<string>, customRuns: seq<string>, i: nat)
    requires i < |customRuns|
    ensures Picks(store, found, customRuns[..i + 1]) ==
            Picks(store, found, customRuns[..i]) +
            if Pick(store, found, customRuns[i]).Some? then [Pick(store, found, customRuns[i]).value] else []
    ensures PicksFault(store, found, customRuns[i..]) ==
            if PickFault(store, found, customRuns[i]).Some? then PickFault(store, found, customRuns[i])
            else PicksFault(store, found, customRuns[i + 1..])
  {
    assert customRuns[..i + 1] == customRuns[..i] + [customRuns[i]];
    PicksSnoc(store, found, customRuns[..i], customRuns[i]);
    assert customRuns[i..][1..] == customRuns[i + 1..];
  }

  method FetchPgRecords(store: Store, runName: string)
    returns (r: Result<(PipelineRun, seq<TaskRun>), ArchiveError>)
    ensures r == Fetched(store, runName)
  {
    var prRow := store.pipelineRun(runName);
    if prRow.Err? {
      return Err(Db(prRow.error));
    }
    if prRow.value.None? {
      return Err(NotInArchive);
    }
    if !prRow.value.value.readable {
      return Err(Db("bad JSON in records.data"));
    }
    var pr := prRow.value.value.pr;
    if store.fault(Labelled(runName)).Some? {
      return Err(Db(store.fault(Labelled(runName)).value));
    }
    var taskruns := Primary(store, runName);
    var customrunNames := CustomRunNames(pr);
    if customrunNames != [] {
      var collected := AddProxies(store, taskruns, customrunNames);
      if collected.Err? {
        return Err(collected.error);
      }
      taskruns := Sort(collected.value, EarlierTimestamp);
    }
    return Ok((pr, taskruns));
  }

  // ── What the merge guarantees ──────────────────────────────────────────

  lemma EarlierTimestampIsPreorder()
    ensures TotalPreorder(EarlierTimestamp)
  {
    forall x: TaskRun, y: TaskRun
      ensures Comparable(EarlierTimestamp, x, y)
    {
      StrLeTotal(x.creationTimestamp.GetOr(""), y.creationTimestamp.GetOr(""));
    }
    forall x: TaskRun, y: TaskRun, z: TaskRun
      ensures Chains(EarlierTimestamp, x, y, z)
    {
      if EarlierTimestamp(x, y) && EarlierTimestamp(y, z) {
        StrLeTransitive(x.creationTimestamp.GetOr(""), y.creationTimestamp.GetOr(""), z.creationTimestamp.GetOr(""));
      }
    }
  }

  lemma PicksSnoc(store: Store, found: set<string>, customRuns: seq<string>, last: string)
    ensures Picks(store, found, customRuns + [last]) ==
            Picks(store, found, customRuns) +
            if Pick(store, found, last).Some? then [Pick(store, found, last).value] else []
  {
    assert (customRuns + [last])[..|customRuns|] == customRuns;
  }

  lemma {:induction false} PickedIsAdded(
    store: Store, found: set<string>, customRuns: seq<string>, i: nat, tr: TaskRun)
    requires i < |customRuns| && Pick(store, found, customRuns[i]) == Some(tr)
    ensures tr in Picks(store, found, customRuns)
  {
    var k := |customRuns| - 1;
    assert customRuns == customRuns[..k] + [customRuns[k]];
    PicksSnoc(store, found, customRuns[..k], customRuns[k]);
    if i < k {
      PickedIsAdded(store, found, customRuns[..k], i, tr);
    }
  }

  lemma {:induction false} AddedIsPicked(store: Store, found: set<string>, customRuns: seq<string>, tr: TaskRun)
    returns (i: nat)
    requires tr in Picks(store, found, customRuns)
    ensures i < |customRuns| && Pick(store, found, customRuns[i]) == Some(tr)
  {
    i := |customRuns| - 1;
    assert customRuns == customRuns[..i] + [customRuns[i]];
    PicksSnoc(store, found, customRuns[..i], customRuns[i]);
    if Pick(store, found, customRuns[i]) != Some(tr) {
      i := AddedIsPicked(store, found, customRuns[..i], tr);
    }
  }

  lemma PicksMembers(store: Store, found: set<string>, customRuns: seq<string>, tr: TaskRun)
    ensures tr in Picks(store, found, customRuns) <==>
            exists i :: 0 <= i < |customRuns| && Pick(store, found, customRuns[i]) == Some(tr)
  {
    if tr in Picks(store, found, customRuns) {
      var i := AddedIsPicked(store, found, customRuns, tr);
    }
    if i :| 0 <= i < |customRuns| && Pick(store, found, customRuns[i]) == Some(tr) {
      PickedIsAdded(store, found, customRuns, i, tr);
    }
  }

  /** The record the merge would show for a CustomRun: its exec record, or its newest labelled one. */
  function ProxyRecord(store: Store, customRun: string): Option<TaskRun> {
    match NewestTaskRun(store, Exact(ExecName(customRun)))
    case Some(tr) => Some(tr)
    case None => NewestTaskRun(store, ProxyOf(customRun))
  }

  ghost predicate HasNamed(taskruns: seq<TaskRun>, name: string) {
    exists tr :: tr in taskruns && tr.name.GetOr("") == name
  }

  lemma NewestAsked(store: Store, q: Question)
    ensures Newest(store, q).Some? ==> Newest(store, q).value in store.records && Asks(q, Newest(store, q).value)
  {
    var matches := Sort(Filter(store.records, Matching(q)), NewerRecord);
    if matches != [] {
      MemberByMultiset(matches, Filter(store.records, Matching(q)), matches[0]);
      FilterMembers(store.records, Matching(q), matches[0]);
    }
  }

  /** The CustomRun children are the child references of that kind that have a name. */
  lemma CustomRunNamesAre(pr: PipelineRun, name: string)
    ensures name in CustomRunNames(pr) <==>
            exists c :: c in pr.childReferences && c.kind == Some("CustomRun") && c.name == Some(name)
  {
    CollectMembers(pr.childReferences, CustomRunNameOf, name);
    if c :| c in pr.childReferences && c.kind == Some("CustomRun") && c.name == Some(name) {
      var i :| 0 <= i < |pr.childReferences| && pr.childReferences[i] == c;
      assert CustomRunNameOf(pr.childReferences[i]) == Some(name);
    }
  }

  /**
    Complete: every CustomRun child whose proxy has a readable record is represented, by that
    record or by one of the same name.
  */
  lemma EveryProxyIsRepresented(store: Store, runName: string, pr: PipelineRun, customRun: string)
    requires ProxyRecord(store, customRun).Some?
    requires exists c :: c in pr.childReferences && c.kind == Some("CustomRun") && c.name == Some(customRun)
    ensures HasNamed(MergedTaskRuns(store, runName, pr), customRun + "-exec") ||
            HasNamed(MergedTaskRuns(store, runName, pr), ProxyRecord(store, customRun).value.name.GetOr(""))
  {
    var primary := Primary(store, runName);
    var found := NamesFound(primary);
    var picks := Picks(store, found, CustomRunNames(pr));
    var all := primary + picks;
    CustomRunNamesAre(pr, customRun);
    var tr := ProxyRecord(store, customRun).value;
    var shown: TaskRun;
    if ExecName(customRun) in found {
      shown :| shown in primary && shown.name == Some(ExecName(customRun));
    } else if Pick(store, found, customRun).Some? {
      shown := tr;
      var i :| 0 <= i < |CustomRunNames(pr)| && CustomRunNames(pr)[i] == customRun;
      PicksMembers(store, found, CustomRunNames(pr), tr);
    } else {
      shown :| shown in primary && shown.name == Some(tr.name.GetOr(""));
    }
    assert shown in all;
    MemberByMultiset(all, MergedTaskRuns(store, runName, pr), shown);
  }

  // ── What the queries bring ─────────────────────────────────────────────

  lemma CreationOrdersRecords()
    ensures TotalPreorder(OlderRecord) && TotalPreorder(NewerRecord)
  {
    assert forall x: Record, y: Record :: Comparable(OlderRecord, x, y) && Comparable(NewerRecord, x, y);
    assert forall x: Record, y: Record, z: Record :: Chains(OlderRecord, x, y, z) && Chains(NewerRecord, x, y, z);
  }

  predicate IsReadable(record: Record) {
    record.readable
  }

  function HeldTaskRun(record: Record): TaskRun {
    record.tr
  }

  /** A readable record labelled with the run. */
  function OfRun(runName: string): Record -> bool {
    (record: Record) => record.readable && record.tr.pipelineRunLabel == Some(runName)
  }

  lemma {:induction false} CollectIsFilter(records: seq<Record>)
    ensures Collect(records, TaskRunIn) == MapSeq(Filter(records, IsReadable), HeldTaskRun)
  {
    if records != [] {
      CollectIsFilter(records[1..]);
      var rest := Filter(records[1..], IsReadable);
      assert records[0].readable ==> ([records[0]] + rest)[1..] == rest;
    }
  }

  /** The labelled TaskRuns are those of the readable records with the run's label, the oldest record first. */
  lemma PrimaryIsOldestFirst(store: Store, runName: string) returns (records: seq<Record>)
    ensures Primary(store, runName) == MapSeq(records, HeldTaskRun)
    ensures multiset(records) == multiset(Filter(store.records, OfRun(runName)))
    ensures forall i, j | 0 <= i < j < |records| :: records[i].created <= records[j].created
  {
    var labelled := Filter(store.records, Matching(Labelled(runName)));
    records := Sort(Filter(labelled, IsReadable), OlderRecord);
    CreationOrdersRecords();
    FilterTwice(store.records, Matching(Labelled(runName)), IsReadable, OfRun(runName));
    SortSorts(Filter(labelled, IsReadable), OlderRecord);
    forall i, j | 0 <= i < j < |records|
      ensures records[i].created <= records[j].created
    {
      assert OlderRecord(records[i], records[j]);
    }
    FilterSort(labelled, OlderRecord, IsReadable);
    CollectIsFilter(Sort(labelled, OlderRecord));
  }

  /** Of the records that `asked` selects, none was created after this one. */
  ghost predicate IsNewest(store: Store, asked: Record -> bool, record: Record) {
    && record in store.records && asked(record)
    && forall other | other in store.records && asked(other) :: other.created <= record.created
  }

  lemma NewestIsNewest(store: Store, q: Question)
    ensures match Newest(store, q)
            case Some(record) => IsNewest(store, Matching(q), record)
            case None => forall other | other in store.records :: !Asks(q, other)
  {
    var matches := Filter(store.records, Matching(q));
    var sorted := Sort(matches, NewerRecord);
    CreationOrdersRecords();
    SortSorts(matches, NewerRecord);
    forall other | other in store.records && Asks(q, other)
      ensures sorted != [] && other.created <= sorted[0].created
    {
      FilterMembers(store.records, Matching(q), other);
      MemberByMultiset(sorted, matches, other);
      var i :| 0 <= i < |sorted| && sorted[i] == other;
      assert i > 0 ==> NewerRecord(sorted[0], sorted[i]);
    }
    NewestAsked(store, q);
  }

  function Named(name: string): Record -> bool {
    (record: Record) => record.tr.name == Some(name)
  }

  function LabelledFor(customRun: string): Record -> bool {
    (record: Record) => record.tr.customRunLabel == Some(customRun)
  }

  /** The newest record that `asked` selects can be read, and holds `tr`. */
  ghost predicate NewestHolds(store: Store, asked: Record -> bool, tr: TaskRun) {
    exists record :: IsNewest(store, asked, record) && record.readable && record.tr == tr
  }

  /** There is none, or the newest cannot be read. */
  ghost predicate NothingToRead(store: Store, asked: Record -> bool) {
    || (forall record | record in store.records :: !asked(record))
    || exists record :: IsNewest(store, asked, record) && !record.readable
  }

  lemma NewestTaskRunIs(store: Store, q: Question, asked: Record -> bool)
    requires forall record :: asked(record) <==> Asks(q, record)
    ensures match NewestTaskRun(store, q)
            case Some(tr) => NewestHolds(store, asked, tr)
            case None => NothingToRead(store, asked)
  {
    NewestIsNewest(store, q);
    if Newest(store, q).Some? {
      assert IsNewest(store, asked, Newest(store, q).value);
    }
  }

  /**
    A proxy is added only for a child whose `-exec` TaskRun is not among the labelled ones. It is the
    one in the newest record of that name; where that cannot be read, the one in the newest record
    with the child's label, unless its name is among the labelled ones.
  */
  lemma PickIsNewest(store: Store, found: set<string>, customRun: string)
    ensures var name := customRun + "-exec";
            match Pick(store, found, customRun)
            case Some(tr) =>
              && name !in found
              && (|| NewestHolds(store, Named(name), tr)
                  || (&& NothingToRead(store, Named(name)) && NewestHolds(store, LabelledFor(customRun), tr)
                      && tr.name.GetOr("") !in found))
            case None =>
              || name in found
              || (&& NothingToRead(store, Named(name))
                  && (|| NothingToRead(store, LabelledFor(customRun))
                      || exists tr :: NewestHolds(store, LabelledFor(customRun), tr) && tr.name.GetOr("") in found))
  {
    NewestTaskRunIs(store, Exact(customRun + "-exec"), Named(customRun + "-exec"));
    NewestTaskRunIs(store, ProxyOf(customRun), LabelledFor(customRun));
  }

  // ── When the fetch fails ───────────────────────────────────────────────

  lemma {:induction false} PicksFaultNone(store: Store, found: set<string>, customRuns: seq<string>)
    ensures PicksFault(store, found, customRuns).None? <==>
            forall c | c in customRuns :: PickFault(store, found, c).None?
  {
    if customRuns != [] {
      PicksFaultNone(store, found, customRuns[1..]);
    }
  }

  /** The queries made for one CustomRun: by name unless it was found, by label unless that brought a TaskRun. */
  predicate PickSucceeds(store: Store, found: set<string>, customRun: string) {
    || customRun + "-exec" in found
    || (&& store.fault(Exact(customRun + "-exec")).None?
        && (NewestTaskRun(store, Exact(customRun + "-exec")).Some? || store.fault(ProxyOf(customRun)).None?))
  }

  lemma PicksSucceed(store: Store, found: set<string>, customRuns: seq<string>)
    ensures PicksFault(store, found, customRuns).None? <==>
            forall c | c in customRuns :: PickSucceeds(store, found, c)
  {
    PicksFaultNone(store, found, customRuns);
    forall c | c in customRuns
      ensures PickFault(store, found, c).None? <==> PickSucceeds(store, found, c)
    {
    }
  }

  /** The record of the run can be read, and none of the queries made for it fails. */
  predicate CanBeFetched(store: Store, runName: string, record: PipelineRecord) {
    && record.readable && store.fault(Labelled(runName)).None?
    && forall c | c in CustomRunNames(record.pr) :: PickSucceeds(store, NamesFound(Primary(store, runName)), c)
  }

  /**
    The fetch says that the run is not in the archive exactly when no record is; it succeeds exactly
    when the record can be read and no query made fails; any other failure is the database's.
  */
  lemma FetchFailsExactly(store: Store, runName: string)
    ensures var fetched := Fetched(store, runName);
            match store.pipelineRun(runName)
            case Err(e) => fetched == Err(Db(e))
            case Ok(None) => fetched == Err(NotInArchive)
            case Ok(Some(record)) =>
              if CanBeFetched(store, runName, record) then
                fetched == Ok((record.pr, MergedTaskRuns(store, runName, record.pr)))
              else fetched.Err? && fetched.error.Db?
  {
    if store.pipelineRun(runName).Ok? && store.pipelineRun(runName).value.Some? {
      var pr := store.pipelineRun(runName).value.value.pr;
      PicksSucceed(store, NamesFound(Primary(store, runName)), CustomRunNames(pr));
    }
  }

  /**
    With CustomRun children, the merge has exactly what was collected, sorted by creationTimestamp;
    without, it is the labelled TaskRuns as they came.
  */
  lemma MergeIsSortedRearrangement(store: Store, runName: string, pr: PipelineRun)
    ensures var merged := MergedTaskRuns(store, runName, pr);
            if CustomRunNames(pr) == [] then merged == Primary(store, runName)
            else
              && (forall i, j | 0 <= i < j < |merged| ::
                    StrLe(merged[i].creationTimestamp.GetOr(""), merged[j].creationTimestamp.GetOr("")))
              && multiset(merged) ==
                 multiset(Primary(store, runName)) +
                 multiset(Picks(store, NamesFound(Primary(store, runName)), CustomRunNames(pr)))
  {
    var collected := Primary(store, runName) + Picks(store, NamesFound(Primary(store, runName)), CustomRunNames(pr));
    var merged := Sort(collected, EarlierTimestamp);
    EarlierTimestampIsPreorder();
    SortSorts(collected, EarlierTimestamp);
    assert forall i, j | 0 <= i < j < |merged| :: EarlierTimestamp(merged[i], merged[j]);
  }

  function RecordName(record: Record): Option<string> {
    record.tr.name
  }

  function TaskRunName(tr: TaskRun): Option<string> {
    tr.name
  }

  /** Every record has a name and no two share one. */
  ghost predicate UniquelyNamed(store: Store) {
    && DistinctBy(store.records, RecordName)
    && forall r | r in store.records :: r.tr.name.Some?
  }

  lemma SameNameSameRecord(store: Store, a: Record, b: Record)
    requires UniquelyNamed(store) && a in store.records && b in store.records && a.tr.name == b.tr.name
    ensures a == b
  {
    var i :| 0 <= i < |store.records| && store.records[i] == a;
    var j :| 0 <= j < |store.records| && store.records[j] == b;
    assert RecordName(a) == RecordName(b);
  }

  lemma {:induction false} ReadableKeepsDistinct(records: seq<Record>)
    requires DistinctBy(records, RecordName)
    ensures DistinctBy(Collect(records, TaskRunIn), TaskRunName)
  {
    if records != [] {
      ReadableKeepsDistinct(records[1..]);
      var rest := Collect(records[1..], TaskRunIn);
      forall j | 0 <= j < |rest|
        ensures rest[j].name != records[0].tr.name
      {
        CollectMembers(records[1..], TaskRunIn, rest[j]);
        var i :| 0 <= i < |records[1..]| && TaskRunIn(records[1..][i]) == Some(rest[j]);
        assert RecordName(records[0]) != RecordName(records[i + 1]);
      }
    }
  }

  lemma PrimaryDistinct(store: Store, runName: string)
    requires UniquelyNamed(store)
    ensures DistinctBy(Primary(store, runName), TaskRunName)
  {
    var selected := Filter(store.records, Matching(Labelled(runName)));
    DistinctFilter(store.records, Matching(Labelled(runName)), RecordName);
    DistinctAcrossRearrangement(selected, Sort(selected, OlderRecord), RecordName);
    ReadableKeepsDistinct(Sort(selected, OlderRecord));
  }

  /** A pick is the conventional record, or the labelled one when that is missing; never one found before. */
  lemma PickFacts(store: Store, found: set<string>, customRun: string) returns (record: Record)
    requires UniquelyNamed(store) && Pick(store, found, customRun).Some?
    ensures record in store.records && record.tr == Pick(store, found, customRun).value
    ensures record.tr.name.Some? && record.tr.name.value !in found
    ensures if NewestTaskRun(store, Exact(ExecName(customRun))).Some?
            then record.tr.name == Some(ExecName(customRun))
            else record.tr.customRunLabel == Some(customRun)
  {
    NewestAsked(store, Exact(ExecName(customRun)));
    NewestAsked(store, ProxyOf(customRun));
    if NewestTaskRun(store, Exact(ExecName(customRun))).Some? {
      record := Newest(store, Exact(ExecName(customRun))).value;
    } else {
      record := Newest(store, ProxyOf(customRun)).value;
    }
  }

  lemma ExecNamesDiffer(a: string, b: string)
    ensures ExecName(a) == ExecName(b) <==> a == b
  {
    if ExecName(a) == ExecName(b) {
      assert a == ExecName(a)[..|ExecName(a)| - 5];
      assert b == ExecName(b)[..|ExecName(b)| - 5];
    }
  }

  /**
    The proxy found for `a` by name is also what the label search gives for `b`, which has no
    record of its conventional name.
  */
  predicate Misfiled(store: Store, found: set<string>, a: string, b: string) {
    && a != b && ExecName(a) !in found && ExecName(b) !in found
    && NewestTaskRun(store, Exact(ExecName(a))).Some?
    && NewestTaskRun(store, Exact(ExecName(b))).None?
    && NewestTaskRun(store, ProxyOf(b)) == NewestTaskRun(store, Exact(ExecName(a)))
  }

  lemma PicksCollideWhenMisfiled(store: Store, found: set<string>, a: string, b: string)
    requires UniquelyNamed(store) && a != b
    requires Pick(store, found, a).Some? && Pick(store, found, b).Some?
    ensures Pick(store, found, a).value.name == Pick(store, found, b).value.name <==>
            Misfiled(store, found, a, b) || Misfiled(store, found, b, a)
  {
    var ra := PickFacts(store, found, a);
    var rb := PickFacts(store, found, b);
    ExecNamesDiffer(a, b);
    if ra.tr.name == rb.tr.name {
      SameNameSameRecord(store, ra, rb);
    }
  }

  lemma MisfiledPicks(store: Store, found: set<string>, a: string, b: string)
    requires UniquelyNamed(store) && Misfiled(store, found, a, b)
    ensures Pick(store, found, a).Some? && Pick(store, found, b) == Pick(store, found, a)
  {
    NewestAsked(store, Exact(ExecName(a)));
  }

  ghost predicate SomeMisfiled(store: Store, found: set<string>, customRuns: seq<string>) {
    exists a, b :: a in customRuns && b in customRuns && Misfiled(store, found, a, b)
  }

  predicate NoRepeats(names: seq<string>) {
    forall i, j | 0 <= i < j < |names| :: names[i] != names[j]
  }

  lemma {:induction false} PicksDistinct(store: Store, found: set<string>, customRuns: seq<string>)
    requires UniquelyNamed(store) && NoRepeats(customRuns) && !SomeMisfiled(store, found, customRuns)
    ensures DistinctBy(Picks(store, found, customRuns), TaskRunName)
  {
    if customRuns != [] {
      var front, last := customRuns[..|customRuns| - 1], customRuns[|customRuns| - 1];
      assert forall c | c in front :: c in customRuns;
      PicksDistinct(store, found, front);
      if Pick(store, found, last).Some? {
        var picks := Picks(store, found, front);
        forall i | 0 <= i < |picks|
          ensures picks[i].name != Pick(store, found, last).value.name
        {
          PicksMembers(store, found, front, picks[i]);
          var k :| 0 <= k < |front| && Pick(store, found, front[k]) == Some(picks[i]);
          assert front[k] == customRuns[k] && front[k] != last;
          PicksCollideWhenMisfiled(store, found, front[k], last);
        }
      }
    }
  }

  lemma {:induction false} PicksGrow(store: Store, found: set<string>, customRuns: seq<string>, k: nat)
    requires k <= |customRuns|
    ensures Picks(store, found, customRuns[..k]) <= Picks(store, found, customRuns)
    decreases |customRuns|
  {
    if k == |customRuns| {
      assert customRuns[..k] == customRuns;
    } else {
      var front := customRuns[..|customRuns| - 1];
      assert front[..k] == customRuns[..k];
      PicksGrow(store, found, front, k);
    }
  }

  lemma PickedTwiceRepeats(store: Store, found: set<string>, customRuns: seq<string>, i: nat, j: nat, tr: TaskRun)
    requires i < j < |customRuns|
    requires Pick(store, found, customRuns[i]) == Some(tr) && Pick(store, found, customRuns[j]) == Some(tr)
    ensures !DistinctBy(Picks(store, found, customRuns), TaskRunName)
  {
    var before := Picks(store, found, customRuns[..j]);
    assert customRuns[..j][i] == customRuns[i];
    PicksMembers(store, found, customRuns[..j], tr);
    var p :| 0 <= p < |before| && before[p] == tr;
    assert customRuns[..j + 1][..j] == customRuns[..j];
    var upTo := Picks(store, found, customRuns[..j + 1]);
    assert upTo == before + [tr];
    PicksGrow(store, found, customRuns, j + 1);
    var picks := Picks(store, found, customRuns);
    assert picks[p] == upTo[p] && picks[|before|] == upTo[|before|];
    assert TaskRunName(picks[p]) == TaskRunName(picks[|before|]);
  }

  lemma PicksAreNew(store: Store, found: set<string>, customRuns: seq<string>, tr: TaskRun)
    requires UniquelyNamed(store) && tr in Picks(store, found, customRuns)
    ensures tr.name.Some? && tr.name.value !in found
  {
    PicksMembers(store, found, customRuns, tr);
    var k :| 0 <= k < |customRuns| && Pick(store, found, customRuns[k]) == Some(tr);
    var record := PickFacts(store, found, customRuns[k]);
  }

  lemma CollectedDistinct(store: Store, primary: seq<TaskRun>, customRuns: seq<string>)
    requires UniquelyNamed(store) && NoRepeats(customRuns) && DistinctBy(primary, TaskRunName)
    requires !SomeMisfiled(store, NamesFound(primary), customRuns)
    ensures DistinctBy(primary + Picks(store, NamesFound(primary), customRuns), TaskRunName)
  {
    var found := NamesFound(primary);
    var picks := Picks(store, found, customRuns);
    PicksDistinct(store, found, customRuns);
    forall i, j | 0 <= i < |primary| && 0 <= j < |picks|
      ensures primary[i].name != picks[j].name
    {
      PicksAreNew(store, found, customRuns, picks[j]);
      assert primary[i] in primary;
    }
    ConcatDistinct(primary, picks);
  }

  lemma PositionOf(names: seq<string>, name: string) returns (i: nat)
    requires name in names
    ensures i < |names| && names[i] == name
  {
    i :| 0 <= i < |names| && names[i] == name;
  }

  lemma SomeMisfiledRepeats(store: Store, found: set<string>, customRuns: seq<string>, a: string, b: string)
    requires UniquelyNamed(store) && a in customRuns && b in customRuns && Misfiled(store, found, a, b)
    ensures !DistinctBy(Picks(store, found, customRuns), TaskRunName)
  {
    MisfiledPicks(store, found, a, b);
    var i := PositionOf(customRuns, a);
    var j := PositionOf(customRuns, b);
    var tr := Pick(store, found, a).value;
    if i < j {
      PickedTwiceRepeats(store, found, customRuns, i, j, tr);
    } else {
      PickedTwiceRepeats(store, found, customRuns, j, i, tr);
    }
  }

  lemma CollectedRepeats(store: Store, primary: seq<TaskRun>, customRuns: seq<string>)
    requires UniquelyNamed(store) && SomeMisfiled(store, NamesFound(primary), customRuns)
    ensures !DistinctBy(primary + Picks(store, NamesFound(primary), customRuns), TaskRunName)
  {
    var a, b :| a in customRuns && b in customRuns && Misfiled(store, NamesFound(primary), a, b);
    SomeMisfiledRepeats(store, NamesFound(primary), customRuns, a, b);
    SuffixDistinct(primary, Picks(store, NamesFound(primary), customRuns));
  }

  /**
    With distinct CustomRun names and uniquely named records, a TaskRun appears twice exactly when
    some proxy is misfiled: `already_found` is not updated while proxies are added.
  */
  lemma NoDuplicatesUnlessMisfiled(store: Store, runName: string, pr: PipelineRun)
    requires UniquelyNamed(store) && NoRepeats(CustomRunNames(pr))
    ensures DistinctBy(MergedTaskRuns(store, runName, pr), TaskRunName) <==>
            !SomeMisfiled(store, NamesFound(Primary(store, runName)), CustomRunNames(pr))
  {
    var primary, names := Primary(store, runName), CustomRunNames(pr);
    var all := primary + Picks(store, NamesFound(primary), names);
    PrimaryDistinct(store, runName);
    if SomeMisfiled(store, NamesFound(primary), names) {
      CollectedRepeats(store, primary, names);
      if DistinctBy(MergedTaskRuns(store, runName, pr), TaskRunName) {
        DistinctAcrossRearrangement(Sort(all, EarlierTimestamp), all, TaskRunName);
      }
    } else {
      CollectedDistinct(store, primary, names);
      DistinctAcrossRearrangement(all, Sort(all, EarlierTimestamp), TaskRunName);
    }
  }

  lemma SuffixDistinct(a: seq<TaskRun>, b: seq<TaskRun>)
    ensures DistinctBy(a + b, TaskRunName) ==> DistinctBy(b, TaskRunName)
  {
    forall i, j | 0 <= i < j < |b| && DistinctBy(a + b, TaskRunName)
      ensures TaskRunName(b[i]) != TaskRunName(b[j])
    {
      assert (a + b)[|a| + i] == b[i] && (a + b)[|a| + j] == b[j];
    }
  }

  lemma ConcatDistinct(a: seq<TaskRun>, b: seq<TaskRun>)
    requires DistinctBy(a, TaskRunName) && DistinctBy(b, TaskRunName)
    requires forall i, j | 0 <= i < |a| && 0 <= j < |b| :: a[i].name != b[j].name
    ensures DistinctBy(a + b, TaskRunName)
  {
  }

  /** If every `c-exec` record carries no other CustomRun's label, nothing is misfiled. */
  lemma HonestLabelsPreventMisfiling(store: Store, found: set<string>, customRuns: seq<string>)
    requires forall r, c | r in store.records && c in customRuns && r.tr.name == Some(ExecName(c)) ::
               r.tr.customRunLabel.None? || r.tr.customRunLabel == Some(c)
    ensures !SomeMisfiled(store, found, customRuns)
  {
    forall a, b | a in customRuns && b in customRuns
      ensures !Misfiled(store, found, a, b)
    {
      NewestAsked(store, Exact(ExecName(a)));
      NewestAsked(store, ProxyOf(b));
    }
  }

  /** A concrete archive in which one TaskRun is merged twice. */
  lemma MisfiledExample() returns (store: Store, pr: PipelineRun)
    ensures UniquelyNamed(store) && NoRepeats(CustomRunNames(pr))
    ensures !DistinctBy(MergedTaskRuns(store, "run", pr), TaskRunName)
  {
    var proxy := TaskRun(Some("a-exec"), None, None, Some("b"), None, None, [], true, None, []);
    var record := Record(proxy, 0, true);
    store := Store((name: string) => Ok(None), [record], (q: Question) => None);
    var refA := ChildReference(Some("build"), Some("a"), Some("CustomRun"));
    var refB := ChildReference(Some("test"), Some("b"), Some("CustomRun"));
    pr := PipelineRun(None, [], true, [refA, refB], [], []);
    assert pr.childReferences[1..] == [refB] && [refB][1..] == [];
    assert Collect([refB], CustomRunNameOf) == ["b"];
    assert CustomRunNames(pr) == ["a", "b"];
    assert store.records[1..] == [];
    assert Filter(store.records, Matching(Labelled("run"))) == [];
    assert Primary(store, "run") == [];
    assert ExecName("a") == "a-exec";
    assert Filter(store.records, Matching(Exact(ExecName("a")))) == [record];
    assert Filter(store.records, Matching(Exact(ExecName("b")))) == [] by {
      ExecNamesDiffer("a", "b");
    }
    assert Filter(store.records, Matching(ProxyOf("b"))) == [record];
    assert [record][1..] == [] && Sort([record], NewerRecord) == [record];
    assert Misfiled(store, {}, "a", "b");
    assert NamesFound([]) == {};
    assert "a" in CustomRunNames(pr) && "b" in CustomRunNames(pr);
    NoDuplicatesUnlessMisfiled(store, "run", pr);
  }
}
