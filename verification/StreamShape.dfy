/**
  The whole of `run_event_stream`: which stream a request gets (a refusal, a replay from the
  archive, or the live stream), the replay loop, and the shape every stream has.
*/
module StreamShape {
  import opened Wrappers
  import opened Sequences
  import opened StableSort
  import opened RunModel
  import opened TektonApi
  import opened RunDiscovery
  import opened RunArchive
  import opened ArchivedMeta
  import opened ArchivedLogs
  import opened Polling
  import opened EventStream
  import opened EventStreamSafety

  // ── Opening ────────────────────────────────────────────────────────────

  datatype Opening = Refused(message: string) | Started(meta: RunMeta)

  function StatusText(status: RunStatus): string {
    match status
    case Pending => "Pending"
    case Running => "Running"
    case Succeeded => "Succeeded"
    case Failed => "Failed"
    case Unknown => "Unknown"
  }

  function ArchiveErrorText(e: ArchiveError): string {
    match e
    case NotInArchive => "run not found in archive"
    case Db(message) => "postgres error: " + message
    case Loki(message) => "loki error: " + message
  }

  function NotYetTerminal(runName: string, status: RunStatus): string {
    "PipelineRun '" + runName + "' not found live in cluster and is not yet terminal in archive (status: " +
    StatusText(status) + "). The run may be in a different namespace."
  }

  /** The opening that what the cluster and the archive say of the run leads to. */
  function OpeningFor(
    live: Result<RunMeta, DiscoverError>, archived: Result<RunMeta, ArchiveError>, runName: string): Opening
  {
    match (live, archived)
    case (Ok(meta), _) => Started(meta)
    case (Err(Kube(e)), _) => Refused("error reading PipelineRun from cluster: " + e)
    case (Err(NotFound), Ok(meta)) =>
      if meta.status.IsTerminal() then Started(meta) else Refused(NotYetTerminal(runName, meta.status))
    case (Err(NotFound), Err(NotInArchive)) =>
      Refused("PipelineRun '" + runName + "' was not found live or in the archive")
    case (Err(NotFound), Err(e)) => Refused(ArchiveErrorText(e))
  }

  function OpeningOf(cluster: Cluster, store: Store, runName: string): Opening {
    OpeningFor(Discovered(cluster, runName), ArchivedMetaOf(store, runName), runName)
  }

  /** How a request for a run that the cluster does not know is answered. */
  method OpenArchived(store: Store, runName: string) returns (opening: Opening)
    ensures opening == OpeningFor(Err(NotFound), ArchivedMetaOf(store, runName), runName)
  {
    var archived := FetchArchivedMeta(store, runName);
    match archived {
      case Ok(meta) =>
        if !meta.status.IsTerminal() {
          return Refused(NotYetTerminal(runName, meta.status));
        }
        return Started(meta);
      case Err(NotInArchive) =>
        return Refused("PipelineRun '" + runName + "' was not found live or in the archive");
      case Err(e) =>
        return Refused(ArchiveErrorText(e));
    }
  }

  /** Live first; the archive only for a run the cluster does not know. */
  method Open(cluster: Cluster, store: Store, runName: string) returns (opening: Opening)
    ensures opening == OpeningOf(cluster, store, runName)
  {
    var live := DiscoverLiveRun(cluster, runName);
    match live {
      case Ok(meta) =>
        return Started(meta);
      case Err(Kube(e)) =>
        return Refused("error reading PipelineRun from cluster: " + e);
      case Err(NotFound) =>
        opening := OpenArchived(store, runName);
    }
  }

  /** A run is replayed exactly when the cluster does not know it and the archive has it as Succeeded or Failed. */
  lemma ReplayedWhenOnlyArchived(cluster: Cluster, store: Store, runName: string)
    ensures var opening, archived := OpeningOf(cluster, store, runName), ArchivedMetaOf(store, runName);
            && (opening.Started? && opening.meta.source == Archive <==>
                  && cluster.getPipelineRun(runName) == Ok(None)
                  && archived.Ok? && (archived.value.status == Succeeded || archived.value.status == Failed))
            && (opening.Started? && opening.meta.source == Tekton <==> Discovered(cluster, runName).Ok?)
            && (opening.Started? ==> opening.meta.runName == runName)
            && (opening.Started? && opening.meta.source == Archive ==> Ok(opening.meta) == archived)
            && (opening.Started? && opening.meta.source == Tekton ==> Ok(opening.meta) == Discovered(cluster, runName))
  {
  }

  lemma RefusedFor(
    live: Result<RunMeta, DiscoverError>, archived: Result<RunMeta, ArchiveError>, runName: string, e: string)
    ensures var opening := OpeningFor(live, archived, runName);
            && (live == Err(Kube(e)) ==> opening == Refused("error reading PipelineRun from cluster: " + e))
            && (live == Err(NotFound) ==>
                  && (archived == Err(NotInArchive) ==>
                        opening == Refused("PipelineRun '" + runName + "' was not found live or in the archive"))
                  && (archived == Err(Db(e)) ==> opening == Refused("postgres error: " + e))
                  && (archived.Ok? && archived.value.status != Succeeded && archived.value.status != Failed ==>
                        opening == Refused(NotYetTerminal(runName, archived.value.status))))
  {
  }

  /**
    What a refusal says: the cluster's error; or, of a run that the cluster does not know, that the
    archive does not have it either, that it has it unfinished, or what went wrong there.
  */
  lemma RefusalsSay(cluster: Cluster, store: Store, runName: string, e: string)
    ensures var opening, archived := OpeningOf(cluster, store, runName), ArchivedMetaOf(store, runName);
            && (Discovered(cluster, runName) == Err(Kube(e)) ==>
                  opening == Refused("error reading PipelineRun from cluster: " + e))
            && (cluster.getPipelineRun(runName) == Ok(None) ==>
                  && (archived == Err(NotInArchive) ==>
                        opening == Refused("PipelineRun '" + runName + "' was not found live or in the archive"))
                  && (archived == Err(Db(e)) ==> opening == Refused("postgres error: " + e))
                  && (archived.Ok? && archived.value.status != Succeeded && archived.value.status != Failed ==>
                        opening == Refused(NotYetTerminal(runName, archived.value.status))))
  {
    RefusedFor(Discovered(cluster, runName), ArchivedMetaOf(store, runName), runName, e);
  }

  /** The unfinished status is shown by its name. */
  lemma UnfinishedIsNamed(runName: string)
    ensures var before :=
              "PipelineRun '" + runName + "' not found live in cluster and is not yet terminal in archive (status: ";
            var after := "). The run may be in a different namespace.";
            && NotYetTerminal(runName, Pending) == before + "Pending" + after
            && NotYetTerminal(runName, Running) == before + "Running" + after
            && NotYetTerminal(runName, Unknown) == before + "Unknown" + after
  {
  }

  // ── The replay of an archived run ──────────────────────────────────────

  /** The lines to replay; a failed fetch replays none. */
  function ReplayLines(store: Store, loki: Result<seq<LokiStream>, string>, runName: string): seq<LogLine> {
    if Fetched(store, runName).Ok? && loki.Ok?
    then EmittedLogs(loki.value, Fetched(store, runName).value.1)
    else []
  }

  function LogEvents(lines: seq<LogLine>): (events: seq<Event>)
    ensures |events| == |lines|
  {
    seq(|lines|, i requires 0 <= i < |lines| => Event(Carried(Log(lines[i])), LogNumber(i)))
  }

  /** The replay when a shutdown stops it after `until` lines: it still ends with `done`. */
  function Replay(meta: RunMeta, lines: seq<LogLine>, until: nat): seq<Event> {
    [Event(Meta(meta), Numbered(0))] + LogEvents(Take(lines, until)) +
    [Event(Done(meta.runName, (meta.status, meta.reason)), NoId)]
  }

  /** A replay is the run, then its lines, the first up to the shutdown and all without one, and then its end. */
  lemma ReplayIsWhole(meta: RunMeta, lines: seq<LogLine>, until: nat)
    ensures var events, shown := Replay(meta, lines, until), if until < |lines| then until else |lines|;
            && |events| == shown + 2 && events[0] == Event(Meta(meta), Numbered(0))
            && (forall k: nat | k < shown :: events[k + 1] == Event(Carried(Log(lines[k])), LogNumber(k)))
            && events[shown + 1] == Event(Done(meta.runName, (meta.status, meta.reason)), NoId)
  {
    var taken := Take(lines, until);
    var first, logs := [Event(Meta(meta), Numbered(0))], LogEvents(taken);
    var last := [Event(Done(meta.runName, (meta.status, meta.reason)), NoId)];
    assert Replay(meta, lines, until) == first + logs + last;
    forall k: nat | k < |taken|
      ensures (first + logs + last)[k + 1] == Event(Carried(Log(lines[k])), LogNumber(k))
    {
      assert (first + logs + last)[k + 1] == logs[k] && taken[k] == lines[k];
    }
  }

  /**
    The lines of a replay are every value of every stream that cleans to something, remapped by the
    run's TaskRuns, each as often as it occurs; none if the archive or Loki fails.
  */
  lemma ReplayShowsEveryLine(store: Store, loki: Result<seq<LokiStream>, string>, runName: string, line: LogLine)
    ensures var lines, fetched := ReplayLines(store, loki, runName), Fetched(store, runName);
            if fetched.Err? || loki.Err? then lines == []
            else
              var taskruns := fetched.value.1;
              && multiset(lines) == multiset(MapSeq(Flatten(loki.value), RemapLine(taskruns)))
              && (line in lines <==> exists stream, value ::
                    stream in loki.value && value in stream.values && EmittedAs(taskruns, stream, value, line))
  {
    if Fetched(store, runName).Ok? && loki.Ok? {
      EmittedIsRearrangement(loki.value, Fetched(store, runName).value.1);
      EmittedLineIsValue(loki.value, Fetched(store, runName).value.1, line);
    }
  }

  method FetchReplayLines(store: Store, loki: Result<seq<LokiStream>, string>, runName: string)
    returns (lines: seq<LogLine>)
    ensures lines == ReplayLines(store, loki, runName)
  {
    var fetched := FetchArchivedLogsForRun(store, loki, runName);
    if fetched.Err? {
      return [];
    }
    return Sort(fetched.value, EarlierLine);
  }

  method YieldReplay(meta: RunMeta, lines: seq<LogLine>, until: nat) returns (output: seq<Event>)
    ensures output == Replay(meta, lines, until)
  {
    output := [Event(Meta(meta), Numbered(0))];
    var i := 0;
    while i < |lines| && i < until
      invariant i <= |lines| && i <= until
      invariant output == [Event(Meta(meta), Numbered(0))] + LogEvents(lines[..i])
    {
      output := output + [Event(Carried(Log(lines[i])), LogNumber(i))];
      i := i + 1;
    }
    assert lines[..i] == Take(lines, until);
    output := output + [Event(Done(meta.runName, (meta.status, meta.reason)), NoId)];
  }

  // ── Every stream ───────────────────────────────────────────────────────

  /** What a client may have received at some moment, for a request whose discovery saw `seen` by time `t`. */
  ghost predicate StreamOf(env: Env, store: Store, seen: Cluster, t: nat, events: seq<Event>) {
    match OpeningOf(seen, store, env.runName)
    case Refused(message) => events == [Event(Carried(Error(message)), NoId)]
    case Started(meta) =>
      if meta.source == Archive then Replayed(store, meta, events) else Followed(env, meta, t, events)
  }

  ghost predicate Replayed(store: Store, meta: RunMeta, events: seq<Event>) {
    events != [] && exists loki, until: nat :: events <= Replay(meta, ReplayLines(store, loki, meta.runName), until)
  }

  ghost predicate Followed(env: Env, meta: RunMeta, t: nat, events: seq<Event>) {
    exists s :: Reachable(env, meta, t, s) && s.output == events
  }

  predicate Closing(e: Event) {
    e.payload.Done?
  }

  /** `meta` first and once, at most one `done` and nothing after it, no `TaskDone`. */
  predicate MetaThenEvents(events: seq<Event>) {
    && events != [] && events[0].payload.Meta? && events[0].id == Numbered(0)
    && forall i | 0 < i < |events| ::
         && !events[i].payload.Meta?
         && (Closing(events[i]) ==> i == |events| - 1)
         && (events[i].payload.Carried? ==> !events[i].payload.item.TaskDone?)
  }

  /** Ids of one kind strictly increase along the stream. */
  predicate IdsIncrease(events: seq<Event>) {
    && (forall i, j | 0 <= i < j < |events| && events[i].id.Numbered? && events[j].id.Numbered? ::
          events[i].id.n < events[j].id.n)
    && (forall i, j | 0 <= i < j < |events| && events[i].id.LogNumber? && events[j].id.LogNumber? ::
          events[i].id.i < events[j].id.i)
  }

  lemma {:induction false} RenderCarries(msgs: seq<Msg>)
    ensures forall p | 0 <= p < |Render(msgs)| ::
              Render(msgs)[p].payload.Carried? && !Render(msgs)[p].payload.item.TaskDone?
  {
    if msgs != [] {
      RenderCarries(msgs[..|msgs| - 1]);
    }
  }

  lemma LiveShape(s: State)
    requires Output(s)
    ensures MetaThenEvents(s.output) && IdsIncrease(s.output)
  {
    RenderCarries(s.received);
    RenderIds(s.received);
    var rendered := Render(s.received);
    assert forall p | 0 < p <= |rendered| :: s.output[p] == rendered[p - 1];
  }

  lemma ReplayShape(meta: RunMeta, lines: seq<LogLine>, until: nat)
    ensures MetaThenEvents(Replay(meta, lines, until)) && IdsIncrease(Replay(meta, lines, until))
  {
    var events, logs := Replay(meta, lines, until), LogEvents(Take(lines, until));
    assert forall p | 0 < p <= |logs| :: events[p] == logs[p - 1];
  }

  lemma ReplayPrefixShape(meta: RunMeta, lines: seq<LogLine>, until: nat, events: seq<Event>)
    requires events <= Replay(meta, lines, until) && events != []
    ensures MetaThenEvents(events) && IdsIncrease(events)
  {
    ReplayShape(meta, lines, until);
    assert forall p | 0 <= p < |events| :: events[p] == Replay(meta, lines, until)[p];
  }

  lemma ReachableShape(env: Env, meta: RunMeta, since: nat, s: State)
    requires Reachable(env, meta, since, s)
    ensures MetaThenEvents(s.output) && IdsIncrease(s.output)
    ensures s.output[0] == Event(Meta(meta), Numbered(0))
  {
    ReachableInv(env, meta, since, s);
    ReachableMeta(env, meta, since, s);
    LiveShape(s);
  }

  /** Every stream is a lone error, or the run as it was found and then events of which only the last may be `done`. */
  lemma EveryStreamIsWellShaped(env: Env, store: Store, seen: Cluster, t: nat, events: seq<Event>)
    requires StreamOf(env, store, seen, t, events)
    ensures match OpeningOf(seen, store, env.runName)
            case Refused(message) => events == [Event(Carried(Error(message)), NoId)]
            case Started(meta) => MetaThenEvents(events) && events[0] == Event(Meta(meta), Numbered(0))
    ensures IdsIncrease(events)
  {
    var opening := OpeningOf(seen, store, env.runName);
    if opening.Started? {
      var meta := opening.meta;
      if meta.source == Archive {
        var loki, until: nat :| events <= Replay(meta, ReplayLines(store, loki, meta.runName), until);
        ReplayPrefixShape(meta, ReplayLines(store, loki, meta.runName), until, events);
      } else {
        var s :| Reachable(env, meta, t, s) && s.output == events;
        ReachableShape(env, meta, t, s);
      }
    }
  }

  // ── What a closing event says ──────────────────────────────────────────

  predicate IsFailure(e: Event) {
    e.payload.Carried? && e.payload.item.TaskStatus? && e.payload.item.status == Failed
  }

  predicate ShowsFailedTask(events: seq<Event>) {
    exists i :: 0 <= i < |events| && IsFailure(events[i])
  }

  lemma {:induction false} RenderShowsFailures(msgs: seq<Msg>)
    ensures ShowsFailedTask(Render(msgs)) <==> SomeTaskFailed(msgs)
  {
    if msgs != [] {
      var front, last := msgs[..|msgs| - 1], msgs[|msgs| - 1].item;
      var shown, all := Render(front), Render(msgs);
      RenderShowsFailures(front);
      assert SomeTaskFailed(msgs) <==> SomeTaskFailed(front) || (last.TaskStatus? && last.status == Failed) by {
        assert forall k | 0 <= k < |front| :: front[k] == msgs[k];
      }
      if last.TaskDone? {
        assert all == shown;
      } else {
        ShowsOneMore(shown, Event(Carried(last), Numbered(|msgs| + 1)));
      }
    }
  }

  lemma ShowsOneMore(events: seq<Event>, e: Event)
    ensures ShowsFailedTask(events + [e]) <==> ShowsFailedTask(events) || IsFailure(e)
  {
    var all := events + [e];
    assert all[|events|] == e;
    assert forall k | 0 <= k < |events| :: all[k] == events[k];
  }

  /** A live stream shows a failed task exactly if it received one. */
  lemma OutputShowsFailures(env: Env, meta: RunMeta, since: nat, s: State)
    requires Reachable(env, meta, since, s)
    ensures ShowsFailedTask(s.output) <==> SomeTaskFailed(s.received)
  {
    ReachableInv(env, meta, since, s);
    var rendered := Render(s.received);
    RenderShowsFailures(s.received);
    assert forall k | 0 <= k < |rendered| :: s.output[k + 1] == rendered[k];
    assert forall k | 0 <= k < |s.output| && IsFailure(s.output[k]) :: 1 <= k <= |rendered|;
  }

  lemma LiveVerdict(env: Env, meta: RunMeta, since: nat, s: State)
    requires Reachable(env, meta, since, s) && s.output != [] && Closing(s.output[|s.output| - 1])
    ensures var done := s.output[|s.output| - 1].payload;
            && done.runName == meta.runName
            && if ShowsFailedTask(s.output) then done.outcome == (Failed, None)
               else exists at: nat :: RunReportedAs(env.world(at).getPipelineRun(env.runName), done.outcome)
  {
    OutputShowsFailures(env, meta, since, s);
    ReachableInv(env, meta, since, s);
    LiveShape(s);
    RenderCarries(s.received);
    assert s.phase == Completed;
    var outcome := VerdictIsHonest(env, meta, since, s);
    if !SomeTaskFailed(s.received) {
      var poll :| RunReadAt(env, s.now, s.verdict.value, poll);
      assert RunReportedAs(env.world(poll.at).getPipelineRun(env.runName), outcome);
    }
  }

  lemma ReplayVerdict(meta: RunMeta, lines: seq<LogLine>, until: nat, events: seq<Event>)
    requires events <= Replay(meta, lines, until) && events != [] && Closing(events[|events| - 1])
    ensures events[|events| - 1] == Event(Done(meta.runName, (meta.status, meta.reason)), NoId)
  {
    ReplayIsWhole(meta, lines, until);
    assert events[|events| - 1] == Replay(meta, lines, until)[|events| - 1];
  }

  lemma ReplayIsHonest(store: Store, meta: RunMeta, events: seq<Event>)
    requires Replayed(store, meta, events) && Closing(events[|events| - 1])
    ensures events[|events| - 1] == Event(Done(meta.runName, (meta.status, meta.reason)), NoId)
  {
    var loki, until: nat :| events <= Replay(meta, ReplayLines(store, loki, meta.runName), until);
    ReplayVerdict(meta, ReplayLines(store, loki, meta.runName), until, events);
  }

  lemma FollowedIsHonest(env: Env, meta: RunMeta, t: nat, events: seq<Event>)
    requires Followed(env, meta, t, events) && events != [] && Closing(events[|events| - 1])
    ensures var done := events[|events| - 1].payload;
            && done.runName == meta.runName
            && if ShowsFailedTask(events) then done.outcome == (Failed, None)
               else exists at: nat :: RunReportedAs(env.world(at).getPipelineRun(env.runName), done.outcome)
  {
    var s :| Reachable(env, meta, t, s) && s.output == events;
    LiveVerdict(env, meta, t, s);
  }

  /**
    A closing `done` names the run asked for. In a replay it is the archived status, Succeeded or
    Failed, with its reason. A live stream closes as Failed without a reason exactly where it shows
    a failed task, whatever the reason shown for that; otherwise with what the cluster gave the
    PipelineRun as.
  */
  lemma ClosingEventIsHonest(env: Env, store: Store, seen: Cluster, t: nat, events: seq<Event>)
    requires StreamOf(env, store, seen, t, events) && events != [] && Closing(events[|events| - 1])
    ensures var meta, done := OpeningOf(seen, store, env.runName).meta, events[|events| - 1].payload;
            && done.runName == env.runName
            && if meta.source == Archive then
                 done.outcome == (meta.status, meta.reason) && (meta.status == Succeeded || meta.status == Failed)
               else if ShowsFailedTask(events) then done.outcome == (Failed, None)
               else exists at: nat :: RunReportedAs(env.world(at).getPipelineRun(env.runName), done.outcome)
  {
    var meta := OpeningOf(seen, store, env.runName).meta;
    ReplayedWhenOnlyArchived(seen, store, env.runName);
    if meta.source == Archive {
      ReplayIsHonest(store, meta, events);
    } else {
      FollowedIsHonest(env, meta, t, events);
    }
  }
}
