/**
  What holds in every reachable state of the live stream, over every interleaving of workers,
  receiver, shutdown and disconnect; and the shape of every stream.
*/
module EventStreamSafety {
  import opened Wrappers
  import opened Clock
  import opened Sequences
  import opened RunModel
  import opened TektonApi
  import opened RunDiscovery
  import opened Polling
  import opened StepLogStream
  import opened EventStream
  import opened WorkerOrder

  // ── Counting and projecting ────────────────────────────────────────────

  function DoneCount(msgs: seq<Msg>): nat {
    if msgs == [] then 0
    else DoneCount(msgs[..|msgs| - 1]) + if msgs[|msgs| - 1].item.TaskDone? then 1 else 0
  }

  function StoppedCount(workers: seq<Worker>): nat {
    if workers == [] then 0
    else StoppedCount(workers[..|workers| - 1]) + if workers[|workers| - 1].pc == Stopped then 1 else 0
  }

  /** What worker `w` sent, in order. */
  function Proj(msgs: seq<Msg>, w: nat): seq<Item> {
    if msgs == [] then []
    else
      Proj(msgs[..|msgs| - 1], w) +
      if msgs[|msgs| - 1].worker == w then [msgs[|msgs| - 1].item] else []
  }

  lemma DoneCountSnoc(msgs: seq<Msg>, m: Msg)
    ensures DoneCount(msgs + [m]) == DoneCount(msgs) + if m.item.TaskDone? then 1 else 0
  {
    assert (msgs + [m])[..|msgs|] == msgs;
  }

  lemma ProjSnoc(msgs: seq<Msg>, m: Msg, w: nat)
    ensures Proj(msgs + [m], w) == Proj(msgs, w) + if m.worker == w then [m.item] else []
  {
    assert (msgs + [m])[..|msgs|] == msgs;
  }

  lemma {:induction false} DoneCountConcat(a: seq<Msg>, b: seq<Msg>)
    ensures DoneCount(a + b) == DoneCount(a) + DoneCount(b)
  {
    if b == [] {
      assert a + b == a;
    } else {
      var front, last := b[..|b| - 1], b[|b| - 1];
      DoneCountConcat(a, front);
      assert a + b == (a + front) + [last];
      DoneCountSnoc(a + front, last);
    }
  }

  lemma {:induction false} ProjConcat(a: seq<Msg>, b: seq<Msg>, w: nat)
    ensures Proj(a + b, w) == Proj(a, w) + Proj(b, w)
  {
    if b == [] {
      assert a + b == a;
    } else {
      var front, last := b[..|b| - 1], b[|b| - 1];
      ProjConcat(a, front, w);
      assert a + b == (a + front) + [last];
      ProjSnoc(a + front, last, w);
    }
  }

  lemma {:induction false} StoppedCountUpdate(workers: seq<Worker>, w: nat, after: Worker)
    requires w < |workers|
    ensures StoppedCount(workers[w := after]) ==
            StoppedCount(workers) + (if after.pc == Stopped then 1 else 0) - (if workers[w].pc == Stopped then 1 else 0)
  {
    var k := |workers| - 1;
    if w < k {
      StoppedCountUpdate(workers[..k], w, after);
      assert workers[w := after][..k] == workers[..k][w := after];
    } else {
      assert workers[w := after][..k] == workers[..k];
    }
  }

  lemma {:induction false} StoppedCountBounds(workers: seq<Worker>)
    ensures StoppedCount(workers) <= |workers|
    ensures StoppedCount(workers) == |workers| <==> forall w | 0 <= w < |workers| :: workers[w].pc == Stopped
  {
    if workers != [] {
      StoppedCountBounds(workers[..|workers| - 1]);
    }
  }

  // ── Invariants ─────────────────────────────────────────────────────────

  /** The channel is FIFO and nothing is dropped while the receiver is there. */
  ghost predicate Channel(s: State) {
    && s.sent == s.received + s.queue
    && (forall k | 0 <= k < |s.sent| :: s.sent[k].worker < |s.workers|)
    && (forall w | 0 <= w < |s.workers| :: Proj(s.sent, w) <= s.workers[w].said)
    && (s.phase.Alive() ==>
          forall w | 0 <= w < |s.workers| :: Proj(s.sent, w) == s.workers[w].said && s.workers[w].pc != Aborted)
  }

  /** Every worker keeps to the grammar. */
  ghost predicate Workers(s: State) {
    && |s.workers| == |s.meta.tasks|
    && forall w | 0 <= w < |s.workers| :: InOrderAt(s.workers[w], s.shutdown)
  }

  /** Each stopped worker has sent its one `TaskDone`, and the receiver counts those it has seen. */
  ghost predicate Counts(s: State) {
    && (s.phase.Alive() ==> DoneCount(s.sent) == StoppedCount(s.workers))
    && s.receiver == ReceiveAll(|s.meta.tasks|, s.received)
    && s.receiver.tasksRemaining == |s.meta.tasks| - DoneCount(s.received)
    && s.receiver.eventId == 1 + |s.received|
    && (s.phase == Judging || s.phase == Completed ==> s.receiver.tasksRemaining == 0)
  }

  function MetaEvent(s: State): Event {
    Event(Meta(s.meta), Numbered(0))
  }

  /** How the stream closes: `Failed` if some task failed, else what the PipelineRun was last read as. */
  function Verdict(s: State): seq<Event> {
    if s.phase != Completed then []
    else if s.receiver.anyTaskFailed then [DoneEvent(s, (Failed, None))]
    else if s.verdict.Some? then [DoneEvent(s, RunOutcome(s.verdict.value))]
    else []
  }

  /** The output is the meta event, the rendered messages, and a verdict once there is one. */
  predicate Output(s: State) {
    && s.output == [MetaEvent(s)] + Render(s.received) + Verdict(s)
    && (s.phase == Completed ==> |Verdict(s)| == 1)
  }

  /** Once the receiver has left its loop, everything the workers said has been received. */
  ghost predicate Drained(s: State) {
    && s.queue == [] && s.received == s.sent
    && forall w | 0 <= w < |s.workers| ::
         s.workers[w].pc == Stopped && Proj(s.sent, w) == s.workers[w].said
  }

  ghost predicate Settled(s: State) {
    s.phase == Judging || s.phase == Completed ==> Drained(s)
  }

  ghost predicate Inv(s: State) {
    Channel(s) && Workers(s) && Counts(s) && Output(s) && Settled(s)
  }

  lemma InitialInv(meta: RunMeta, since: nat)
    ensures Inv(Initial(meta, since))
  {
    var s := Initial(meta, since);
    assert forall w | 0 <= w < |s.workers| :: s.workers[w] == NewWorker(meta.tasks[w], since);
    NoneStopped(s.workers);
  }

  lemma {:induction false} NoneStopped(workers: seq<Worker>)
    requires forall w | 0 <= w < |workers| :: workers[w].pc != Stopped
    ensures StoppedCount(workers) == 0
  {
    if workers != [] {
      NoneStopped(workers[..|workers| - 1]);
    }
  }

  // ── Workers' steps ─────────────────────────────────────────────────────

  lemma SendKeepsChannel(env: Env, s: State, w: nat, step: WorkerAction)
    requires Enabled(env, s, Work(w, step)) && Channel(s)
    requires s.phase.Alive() && SentBy(env, s.workers[w], step, s.shutdown).Some?
    ensures Channel(AfterWork(env, s, w, step))
  {
    var s' := AfterWork(env, s, w, step);
    var m := Msg(w, SentBy(env, s.workers[w], step, s.shutdown).value);
    assert s'.sent == s.sent + [m] == s.received + (s.queue + [m]);
    forall v | 0 <= v < |s.workers|
      ensures Proj(s'.sent, v) == s'.workers[v].said
    {
      ProjSnoc(s.sent, m, v);
    }
  }

  lemma WorkKeepsChannel(env: Env, s: State, w: nat, step: WorkerAction)
    requires Enabled(env, s, Work(w, step)) && Channel(s)
    ensures Channel(AfterWork(env, s, w, step))
  {
    if s.phase.Alive() && SentBy(env, s.workers[w], step, s.shutdown).Some? {
      SendKeepsChannel(env, s, w, step);
    } else {
      var s' := AfterWork(env, s, w, step);
      assert s'.sent == s.sent && s'.queue == s.queue;
      assert s.workers[w].said <= s'.workers[w].said;
    }
  }

  lemma WorkKeepsWorkers(env: Env, s: State, w: nat, step: WorkerAction)
    requires Enabled(env, s, Work(w, step)) && Workers(s)
    ensures Workers(AfterWork(env, s, w, step))
  {
    StepKeepsOrder(env, s.workers[w], step, s.shutdown, s.phase.Alive());
  }

  /** A worker stops with its `TaskDone`, and not before. */
  lemma DoneIsLast(env: Env, w: Worker, a: WorkerAction, shutdown: bool, alive: bool)
    requires WorkerEnabled(env, w, a, shutdown)
    ensures w.pc != Stopped
    ensures WorkerAfter(env, w, a, shutdown, alive).pc == Stopped <==> SentBy(env, w, a, shutdown) == Some(TaskDone)
  {
  }

  lemma CountsFollow(s: State, s': State, w: nat, item: Option<Item>)
    requires Counts(s) && w < |s.workers| && |s'.workers| == |s.workers|
    requires s'.workers == s.workers[w := s'.workers[w]] && s.workers[w].pc != Stopped
    requires s'.workers[w].pc == Stopped <==> item == Some(TaskDone)
    requires s'.sent == s.sent + if s.phase.Alive() then Messages(w, item) else []
    requires s'.meta == s.meta && s'.received == s.received && s'.receiver == s.receiver && s'.phase == s.phase
    ensures Counts(s')
  {
    StoppedCountUpdate(s.workers, w, s'.workers[w]);
    if s.phase.Alive() && item.Some? {
      DoneCountSnoc(s.sent, Msg(w, item.value));
    } else {
      assert s'.sent == s.sent;
    }
  }

  lemma WorkKeepsCounts(env: Env, s: State, w: nat, step: WorkerAction)
    requires Enabled(env, s, Work(w, step)) && Counts(s)
    ensures Counts(AfterWork(env, s, w, step))
  {
    DoneIsLast(env, s.workers[w], step, s.shutdown, s.phase.Alive());
    CountsFollow(s, AfterWork(env, s, w, step), w, SentBy(env, s.workers[w], step, s.shutdown));
  }

  // ── The receiver's steps ───────────────────────────────────────────────

  lemma ReceiveKeepsChannel(s: State)
    requires Channel(s) && s.queue != []
    ensures Channel(AfterReceive(s))
  {
    assert s.queue == [s.queue[0]] + s.queue[1..];
    assert s.received + s.queue == s.received + [s.queue[0]] + s.queue[1..];
  }

  lemma RenderSnoc(received: seq<Msg>, m: Msg)
    ensures Render(received + [m]) == Render(received) + EventsFor(m.item, |received| + 2)
    ensures forall tasks: nat :: ReceiveAll(tasks, received + [m]) == ReceiverAfter(ReceiveAll(tasks, received), m.item)
  {
    assert (received + [m])[..|received|] == received;
  }

  lemma ReceiveKeepsCounts(env: Env, s: State)
    requires Enabled(env, s, Receive) && Counts(s)
    ensures Counts(AfterReceive(s))
  {
    DoneCountSnoc(s.received, s.queue[0]);
    RenderSnoc(s.received, s.queue[0]);
  }

  lemma ShutdownKeepsWorkers(s: State)
    requires Workers(s)
    ensures Workers(s.(shutdown := true))
  {
    forall w | 0 <= w < |s.workers|
      ensures InOrderAt(s.workers[w], true)
    {
      assert InOrderAt(s.workers[w], s.shutdown);
    }
  }

  // ── The last word of a worker ──────────────────────────────────────────

  lemma {:induction false} DoneInProj(msgs: seq<Msg>, w: nat)
    requires TaskDone in Proj(msgs, w)
    ensures DoneCount(msgs) > 0
  {
    var front, last := msgs[..|msgs| - 1], msgs[|msgs| - 1];
    if TaskDone in Proj(front, w) {
      DoneInProj(front, w);
    }
  }

  lemma {:induction false} ProjNonempty(msgs: seq<Msg>, k: nat)
    requires k < |msgs|
    ensures Proj(msgs, msgs[k].worker) != []
  {
    if k < |msgs| - 1 {
      ProjNonempty(msgs[..|msgs| - 1], k);
    }
  }

  /** A stopped worker with something queued has its `TaskDone` queued: it is its last word. */
  lemma QueuedHasDone(s: State)
    requires Channel(s) && Workers(s) && s.phase.Alive() && s.queue != []
    requires s.workers[s.sent[|s.received|].worker].pc == Stopped
    ensures DoneCount(s.queue) > 0
  {
    var w := s.queue[0].worker;
    assert s.sent[|s.received|] == s.queue[0];
    ProjNonempty(s.queue, 0);
    ProjConcat(s.received, s.queue, w);
    var tail := Proj(s.queue, w);
    assert InOrderAt(s.workers[w], s.shutdown);
    assert tail[|tail| - 1] == s.workers[w].said[|s.workers[w].said| - 1];
    DoneInProj(s.queue, w);
  }

  /** When no task remains the channel is empty. */
  lemma DrainedWhenNoneRemain(s: State)
    requires Channel(s) && Workers(s) && Counts(s) && s.phase.Alive() && s.receiver.tasksRemaining == 0
    ensures Drained(s)
  {
    DoneCountConcat(s.received, s.queue);
    StoppedCountBounds(s.workers);
    if s.queue != [] {
      QueuedHasDone(s);
    }
  }

  // ── Every action keeps every invariant ─────────────────────────────────

  lemma ApplyKeepsChannel(env: Env, s: State, a: Action)
    requires Enabled(env, s, a) && Channel(s)
    ensures Channel(Apply(env, s, a))
  {
    match a {
      case Work(w, step) => WorkKeepsChannel(env, s, w, step);
      case Receive => ReceiveKeepsChannel(s);
      case _ =>
    }
  }

  lemma ApplyKeepsWorkers(env: Env, s: State, a: Action)
    requires Enabled(env, s, a) && Workers(s)
    ensures Workers(Apply(env, s, a))
  {
    match a {
      case Work(w, step) => WorkKeepsWorkers(env, s, w, step);
      case Shutdown => ShutdownKeepsWorkers(s);
      case _ =>
    }
  }

  lemma ApplyKeepsCounts(env: Env, s: State, a: Action)
    requires Enabled(env, s, a) && Counts(s)
    ensures Counts(Apply(env, s, a))
  {
    match a {
      case Work(w, step) => WorkKeepsCounts(env, s, w, step);
      case Receive => ReceiveKeepsCounts(env, s);
      case _ =>
    }
  }

  lemma ReceiveKeepsOutput(env: Env, s: State)
    requires Enabled(env, s, Receive) && Counts(s) && Output(s)
    ensures Output(AfterReceive(s))
  {
    RenderSnoc(s.received, s.queue[0]);
  }

  lemma OutputUnchanged(s: State, s': State)
    requires Output(s) && s'.meta == s.meta && s'.received == s.received && s'.output == s.output
    requires s'.receiver == s.receiver && s'.verdict == s.verdict
    requires s'.phase == s.phase || (s.phase != Completed && s'.phase != Completed)
    ensures Output(s')
  {
    assert Verdict(s') == Verdict(s);
  }

  lemma ApplyKeepsOutput(env: Env, s: State, a: Action)
    requires Enabled(env, s, a) && Counts(s) && Output(s)
    ensures Output(Apply(env, s, a))
  {
    if a.Receive? {
      ReceiveKeepsOutput(env, s);
    } else if !a.Judge? && !a.JudgeFailed? {
      OutputUnchanged(s, Apply(env, s, a));
    }
  }

  /** Drained workers have stopped: none can act. */
  lemma DrainedWorkersRest(env: Env, s: State, w: nat, step: WorkerAction)
    requires Enabled(env, s, Work(w, step))
    ensures !Drained(s)
  {
  }

  lemma ApplyKeepsSettled(env: Env, s: State, a: Action)
    requires Enabled(env, s, a) && Channel(s) && Workers(s) && Counts(s) && Settled(s)
    ensures Settled(Apply(env, s, a))
  {
    match a {
      case Work(w, step) => DrainedWorkersRest(env, s, w, step);
      case LeaveLoop(_) => DrainedWhenNoneRemain(s);
      case _ =>
    }
  }

  lemma ApplyKeepsInv(env: Env, s: State, a: Action)
    requires Enabled(env, s, a) && Inv(s)
    ensures Inv(Apply(env, s, a))
  {
    ApplyKeepsChannel(env, s, a);
    ApplyKeepsWorkers(env, s, a);
    ApplyKeepsCounts(env, s, a);
    ApplyKeepsOutput(env, s, a);
    ApplyKeepsSettled(env, s, a);
  }

  lemma {:induction false} RunKeepsInv(env: Env, s: State, actions: seq<Action>)
    requires Inv(s) && Executable(env, s, actions)
    ensures Inv(Run(env, s, actions))
    decreases |actions|
  {
    if actions != [] {
      ApplyKeepsInv(env, s, actions[0]);
      RunKeepsInv(env, Apply(env, s, actions[0]), actions[1..]);
    }
  }

  /** Every state of every interleaving. */
  ghost predicate Reachable(env: Env, meta: RunMeta, since: nat, s: State) {
    exists actions :: Executable(env, Initial(meta, since), actions) && Run(env, Initial(meta, since), actions) == s
  }

  lemma FirstAction(env: Env, s: State, a: Action, rest: seq<Action>)
    requires Enabled(env, s, a) && Executable(env, Apply(env, s, a), rest)
    ensures Executable(env, s, [a] + rest) && Run(env, s, [a] + rest) == Run(env, Apply(env, s, a), rest)
  {
    assert ([a] + rest)[1..] == rest;
  }

  /** One more action at the end. */
  lemma {:induction false} RunExtends(env: Env, s: State, actions: seq<Action>, a: Action)
    requires Executable(env, s, actions) && Enabled(env, Run(env, s, actions), a)
    ensures Executable(env, s, actions + [a])
    ensures Run(env, s, actions + [a]) == Apply(env, Run(env, s, actions), a)
    decreases |actions|
  {
    if actions == [] {
      assert [] + [a] == [a] && [a][1..] == [];
    } else {
      assert (actions + [a])[1..] == actions[1..] + [a];
      RunExtends(env, Apply(env, s, actions[0]), actions[1..], a);
    }
  }

  lemma ReachableInv(env: Env, meta: RunMeta, since: nat, s: State)
    requires Reachable(env, meta, since, s)
    ensures Inv(s)
  {
    var actions :| Executable(env, Initial(meta, since), actions) && Run(env, Initial(meta, since), actions) == s;
    InitialInv(meta, since);
    RunKeepsInv(env, Initial(meta, since), actions);
  }

  // ── Conservation ───────────────────────────────────────────────────────

  lemma DoneAtFrontCounts(msgs: seq<Msg>)
    requires msgs != [] && msgs[0].item.TaskDone?
    ensures DoneCount(msgs) > 0
  {
    assert msgs == [] + [msgs[0]] + msgs[1..];
    DoneCountConcat([] + [msgs[0]], msgs[1..]);
    DoneCountSnoc([], msgs[0]);
  }

  lemma CountsConserve(s: State)
    requires Channel(s) && Counts(s) && s.phase.Alive() && |s.workers| == |s.meta.tasks|
    ensures s.receiver.tasksRemaining == (|s.workers| - StoppedCount(s.workers)) + DoneCount(s.queue)
  {
    DoneCountConcat(s.received, s.queue);
  }

  /**
    While the receiver lives, its counter is the workers that have not finished plus the finished
    ones it has not yet heard of; so a `TaskDone` never takes it below zero.
  */
  lemma Conservation(env: Env, meta: RunMeta, since: nat, s: State)
    requires Reachable(env, meta, since, s) && s.phase.Alive()
    ensures s.receiver.tasksRemaining == (|s.workers| - StoppedCount(s.workers)) + DoneCount(s.queue)
    ensures s.queue != [] && s.queue[0].item.TaskDone? ==> s.receiver.tasksRemaining > 0
  {
    ReachableInv(env, meta, since, s);
    CountsConserve(s);
    StoppedCountBounds(s.workers);
    if s.queue != [] && s.queue[0].item.TaskDone? {
      DoneAtFrontCounts(s.queue);
    }
  }

  lemma OpenWhileTasksRemain(env: Env, s: State)
    requires Inv(s)
    ensures !Enabled(env, s, ChannelClosed)
  {
    if Enabled(env, s, ChannelClosed) {
      CountsConserve(s);
      StoppedCountBounds(s.workers);
    }
  }

  /** The channel never reports closed while tasks remain. */
  lemma ChannelNeverCloses(env: Env, meta: RunMeta, since: nat, s: State)
    requires Reachable(env, meta, since, s)
    ensures !Enabled(env, s, ChannelClosed)
  {
    ReachableInv(env, meta, since, s);
    OpenWhileTasksRemain(env, s);
  }

  lemma StepEndsOnRequest(env: Env, s: State, a: Action)
    requires Inv(s) && Enabled(env, s, a) && !a.Disconnect? && !a.Shutdown? && !s.shutdown && s.phase != Ended
    ensures !Apply(env, s, a).shutdown && Apply(env, s, a).phase != Ended
  {
    OpenWhileTasksRemain(env, s);
  }

  lemma {:induction false} RunEndsOnRequest(env: Env, s: State, actions: seq<Action>)
    requires Inv(s) && Executable(env, s, actions) && Disconnect !in actions && Shutdown !in actions
    requires !s.shutdown && s.phase != Ended
    ensures Run(env, s, actions).phase != Ended
    decreases |actions|
  {
    if actions != [] {
      assert actions[0] in actions;
      ApplyKeepsInv(env, s, actions[0]);
      StepEndsOnRequest(env, s, actions[0]);
      RunEndsOnRequest(env, Apply(env, s, actions[0]), actions[1..]);
    }
  }

  /** A stream that ends without a verdict was shut down, or its client left. */
  lemma EndsEarlyOnlyOnRequest(env: Env, meta: RunMeta, since: nat, actions: seq<Action>)
    requires Executable(env, Initial(meta, since), actions)
    ensures Run(env, Initial(meta, since), actions).phase == Ended ==> Disconnect in actions || Shutdown in actions
  {
    InitialInv(meta, since);
    if Disconnect !in actions && Shutdown !in actions {
      RunEndsOnRequest(env, Initial(meta, since), actions);
    }
  }

  // ── Nothing is lost ────────────────────────────────────────────────────

  /**
    Nothing is lost or reordered: once the receiver leaves its loop with no task remaining, the
    channel is empty, every worker has finished, and the events yielded are everything the workers
    sent, in the order sent, with `TaskDone` erased.
  */
  lemma NothingLost(env: Env, meta: RunMeta, since: nat, s: State)
    requires Reachable(env, meta, since, s) && (s.phase == Judging || s.phase == Completed)
    ensures Drained(s)
    ensures s.output == [MetaEvent(s)] + Render(s.sent) + Verdict(s)
  {
    ReachableInv(env, meta, since, s);
  }

  function ItemsOf(events: seq<Event>): seq<Payload> {
    MapSeq(events, (e: Event) => e.payload)
  }

  /** The items of the messages, `TaskDone` erased. */
  function Erased(msgs: seq<Msg>): seq<Payload> {
    if msgs == [] then []
    else
      Erased(msgs[..|msgs| - 1]) +
      if msgs[|msgs| - 1].item.TaskDone? then [] else [Carried(msgs[|msgs| - 1].item)]
  }

  /** Rendering keeps the payloads and their order. */
  lemma {:induction false} RenderErases(msgs: seq<Msg>)
    ensures ItemsOf(Render(msgs)) == Erased(msgs)
  {
    if msgs != [] {
      var front, item := msgs[..|msgs| - 1], msgs[|msgs| - 1].item;
      RenderErases(front);
      MapSeqConcat(Render(front), EventsFor(item, |msgs| + 1), (e: Event) => e.payload);
    }
  }

  /** Ids strictly increase, and the gaps are exactly the ids consumed by `TaskDone`. */
  lemma {:induction false} RenderIds(msgs: seq<Msg>)
    ensures forall p | 0 <= p < |Render(msgs)| ::
              Render(msgs)[p].id.Numbered? && 2 <= Render(msgs)[p].id.n <= |msgs| + 1
    ensures forall p, q | 0 <= p < q < |Render(msgs)| :: Render(msgs)[p].id.n < Render(msgs)[q].id.n
    ensures forall j | 0 <= j < |msgs| ::
              (exists p :: 0 <= p < |Render(msgs)| && Render(msgs)[p].id == Numbered(j + 2)) <==>
              !msgs[j].item.TaskDone?
  {
    if msgs != [] {
      var front, last := msgs[..|msgs| - 1], msgs[|msgs| - 1];
      RenderIds(front);
      var before, all := Render(front), Render(msgs);
      assert all == before + EventsFor(last.item, |msgs| + 1);
      forall j | 0 <= j < |msgs|
        ensures (exists p :: 0 <= p < |all| && all[p].id == Numbered(j + 2)) <==> !msgs[j].item.TaskDone?
      {
        if j < |front| {
          assert front[j] == msgs[j];
          if p :| 0 <= p < |before| && before[p].id == Numbered(j + 2) {
            assert all[p].id == Numbered(j + 2);
          }
          if p :| 0 <= p < |all| && all[p].id == Numbered(j + 2) {
            assert before[p].id == Numbered(j + 2);
          }
        } else if !last.item.TaskDone? {
          assert all[|before|].id == Numbered(j + 2);
        }
      }
    }
  }

  // ── Order within a task ────────────────────────────────────────────────

  lemma OrderlyPrefix(w: Worker, body: seq<Item>, items: seq<Item>)
    requires Orderly(w, body) && items <= body
    ensures Orderly(w, items) && TaskDone !in items
  {
    if w.resolved {
      ParsePrefix(w.task, body, |items|);
      assert body[..|items|] == items;
      ParsedHasNoTaskDone(w.task, items);
    }
  }

  /** The items without a closing `TaskDone`. */
  function Body(items: seq<Item>): seq<Item> {
    if items != [] && items[|items| - 1] == TaskDone then items[..|items| - 1] else items
  }

  lemma BodyIsOrderly(w: Worker, shutdown: bool, items: seq<Item>)
    requires InOrderAt(w, shutdown) && items <= w.said
    ensures Orderly(w, Body(items)) && TaskDone !in Body(items)
  {
    if w.pc == Stopped {
      var body := w.said[..|w.said| - 1];
      OrderlyPrefix(w, body, body);
      OrderlyPrefix(w, body, Body(items));
    } else {
      OrderlyPrefix(w, w.said, w.said);
      OrderlyPrefix(w, w.said, items);
    }
  }

  lemma ReceivedIsPrefix(s: State, w: nat)
    requires Channel(s) && w < |s.workers|
    ensures Proj(s.received, w) <= s.workers[w].said
  {
    ProjConcat(s.received, s.queue, w);
  }

  /**
    Per-task order survives interleaving: at any moment, what has come out of one worker is the
    beginning of its groups, in snapshot order, and its task's status; with `TaskDone` last.
  */
  lemma PerTaskOrder(env: Env, meta: RunMeta, since: nat, s: State, w: nat)
    requires Reachable(env, meta, since, s) && w < |s.workers|
    ensures Orderly(s.workers[w], Body(Proj(s.received, w))) && TaskDone !in Body(Proj(s.received, w))
  {
    ReachableInv(env, meta, since, s);
    ReceivedIsPrefix(s, w);
    BodyIsOrderly(s.workers[w], s.shutdown, Proj(s.received, w));
  }

  /** One group per step and then one status; or just the Pending status of a task that never started. */
  ghost predicate SaidEverything(w: Worker, items: seq<Item>) {
    if w.resolved then CompleteRun(w.task, items) else items == [NeverStarted(w.task)]
  }

  lemma CompleteSaysEverything(w: Worker, body: seq<Item>)
    requires Complete(w, body)
    ensures SaidEverything(w, body)
  {
    if w.resolved {
      ConcludedIsCompleteRun(w.task, body);
    }
  }

  lemma StoppedSaidEverything(w: Worker)
    requires InOrderAt(w, false) && w.pc == Stopped
    ensures w.said == Body(w.said) + [TaskDone] && SaidEverything(w, Body(w.said))
  {
    CompleteSaysEverything(w, w.said[..|w.said| - 1]);
  }

  /**
    On a stream that completes without a shutdown, each resolved task contributes one group per
    step and then exactly one status; a task that never started, just its Pending status.
  */
  lemma CompletedStreamIsComplete(env: Env, meta: RunMeta, since: nat, s: State, w: nat)
    requires Reachable(env, meta, since, s) && s.phase == Completed && !s.shutdown && w < |s.workers|
    ensures Proj(s.received, w) == Body(Proj(s.received, w)) + [TaskDone]
    ensures SaidEverything(s.workers[w], Body(Proj(s.received, w)))
  {
    ReachableInv(env, meta, since, s);
    StoppedSaidEverything(s.workers[w]);
  }

  // ── No step goes backwards ─────────────────────────────────────────────

  ghost predicate AllForward(env: Env, s: State) {
    forall w | 0 <= w < |s.workers| :: Forward(env.world, s.workers[w])
  }

  lemma ApplyKeepsForward(env: Env, s: State, a: Action)
    requires Behaves(env.world) && Enabled(env, s, a) && Workers(s) && AllForward(env, s)
    ensures AllForward(env, Apply(env, s, a))
  {
    if a.Work? {
      assert InOrderAt(s.workers[a.w], s.shutdown);
      StepKeepsForward(env, s.workers[a.w], a.step, s.shutdown, s.phase.Alive());
    }
  }

  lemma {:induction false} RunKeepsForward(env: Env, s: State, actions: seq<Action>)
    requires Behaves(env.world) && Workers(s) && AllForward(env, s) && Executable(env, s, actions)
    ensures AllForward(env, Run(env, s, actions))
    decreases |actions|
  {
    if actions != [] {
      ApplyKeepsWorkers(env, s, actions[0]);
      ApplyKeepsForward(env, s, actions[0]);
      RunKeepsForward(env, Apply(env, s, actions[0]), actions[1..]);
    }
  }

  lemma StartsForward(env: Env, meta: RunMeta, seen: Cluster, begun: nat, since: nat)
    requires Behaves(env.world) && DiscoveredBy(env, meta, seen, begun, since)
    ensures AllForward(env, Initial(meta, since))
  {
    forall w | 0 <= w < |meta.tasks|
      ensures Forward(env.world, NewWorker(meta.tasks[w], since))
    {
      DiscoveredIsGrounded(env, meta, seen, begun, since, w);
    }
  }

  lemma ReachableForward(env: Env, meta: RunMeta, since: nat, s: State)
    requires Behaves(env.world) && AllForward(env, Initial(meta, since))
    requires Reachable(env, meta, since, s)
    ensures AllForward(env, s)
  {
    var start := Initial(meta, since);
    var actions :| Executable(env, start, actions) && Run(env, start, actions) == s;
    InitialInv(meta, since);
    RunKeepsForward(env, start, actions);
  }

  /**
    No step goes backwards: on a cluster whose steps only advance, every status event of a stream
    is at or after the status of that step in the task its worker started from; whatever changed
    while the run was discovered or the task refreshed.
  */
  lemma StreamNeverGoesBackwards(
    env: Env, meta: RunMeta, seen: Cluster, begun: nat, since: nat, s: State, w: nat, i: nat)
    requires Behaves(env.world) && DiscoveredBy(env, meta, seen, begun, since)
    requires Reachable(env, meta, since, s) && w < |s.workers| && i < |Proj(s.received, w)|
    ensures NotBackwards(s.workers[w].task, Proj(s.received, w)[i])
  {
    ReachableInv(env, meta, since, s);
    ReceivedIsPrefix(s, w);
    StartsForward(env, meta, seen, begun, since);
    ReachableForward(env, meta, since, s);
    assert Proj(s.received, w)[i] == s.workers[w].said[i];
  }

  // ── What is said was read ──────────────────────────────────────────────

  /** The answer with which a final wait, begun after `since`, ended. */
  predicate RunReadAt(env: Env, since: nat, answer: Answer<PipelineRun>, poll: LastPoll) {
    RunPolled(env, since, poll) && answer == env.world(poll.at).getPipelineRun(env.runName)
  }

  /** Everything a worker says has its grounds, and the verdict is an answer of the cluster. */
  ghost predicate FromCluster(env: Env, s: State) {
    && (forall w | 0 <= w < |s.workers| :: Truthful(env, s.workers[w]))
    && (s.phase == Judging || s.phase == Completed ==> AfterAll(s, s.now))
    && (s.verdict.Some? ==>
          && s.phase == Completed && !s.receiver.anyTaskFailed
          && exists poll :: RunReadAt(env, s.now, s.verdict.value, poll))
  }

  lemma WorkKeepsFromCluster(env: Env, s: State, w: nat, step: WorkerAction)
    requires Enabled(env, s, Work(w, step)) && Workers(s) && Settled(s) && FromCluster(env, s)
    ensures FromCluster(env, AfterWork(env, s, w, step))
  {
    assert InOrderAt(s.workers[w], s.shutdown);
    DrainedWorkersRest(env, s, w, step);
    StepKeepsTruthful(env, s.workers[w], step, s.shutdown, s.phase.Alive());
  }

  lemma ApplyKeepsFromCluster(env: Env, s: State, a: Action)
    requires Enabled(env, s, a) && Workers(s) && Settled(s) && FromCluster(env, s)
    ensures FromCluster(env, Apply(env, s, a))
  {
    if a.Judge? {
      assert RunReadAt(env, s.now, Apply(env, s, a).verdict.value, a.poll);
    } else if a.Work? {
      WorkKeepsFromCluster(env, s, a.w, a.step);
    }
  }

  lemma {:induction false} RunKeepsFromCluster(env: Env, s: State, actions: seq<Action>)
    requires Inv(s) && FromCluster(env, s) && Executable(env, s, actions)
    ensures FromCluster(env, Run(env, s, actions))
    decreases |actions|
  {
    if actions != [] {
      ApplyKeepsInv(env, s, actions[0]);
      ApplyKeepsFromCluster(env, s, actions[0]);
      RunKeepsFromCluster(env, Apply(env, s, actions[0]), actions[1..]);
    }
  }

  lemma StartsFromCluster(env: Env, meta: RunMeta, since: nat)
    ensures FromCluster(env, Initial(meta, since))
  {
    var start := Initial(meta, since);
    forall w | 0 <= w < |start.workers|
      ensures Truthful(env, start.workers[w])
    {
      assert start.workers[w] == NewWorker(meta.tasks[w], since);
    }
  }

  lemma ReachableFromCluster(env: Env, meta: RunMeta, since: nat, s: State)
    requires Reachable(env, meta, since, s)
    ensures FromCluster(env, s)
  {
    var start := Initial(meta, since);
    var actions :| Executable(env, start, actions) && Run(env, start, actions) == s;
    InitialInv(meta, since);
    StartsFromCluster(env, meta, since);
    RunKeepsFromCluster(env, start, actions);
  }

  /**
    Everything received from a worker has its grounds in the cluster, read in its turn: after the
    worker said the item before, and before it said this one.
  */
  lemma ReceivedIsGrounded(env: Env, meta: RunMeta, since: nat, s: State, w: nat, i: nat)
    requires Reachable(env, meta, since, s) && w < |s.workers| && i < |Proj(s.received, w)|
    ensures var worker := s.workers[w];
            && Timed(worker) && i < |worker.said|
            && Grounds(env, worker, Proj(s.received, w)[i], TurnAt(worker, i), worker.saidAt[i])
  {
    ReachableInv(env, meta, since, s);
    ReachableFromCluster(env, meta, since, s);
    ReceivedIsPrefix(s, w);
    assert Proj(s.received, w)[i] == s.workers[w].said[i];
    assert Truthful(env, s.workers[w]) && GroundedAt(env, s.workers[w], i);
  }

  /**
    "Task never started" is shown only of a task that a refresh did not find with steps, nor as
    Succeeded or Failed; and only after the PipelineRun was read as anything but "Unknown", or four
    hours had passed.
  */
  lemma NeverStartedHasReason(env: Env, meta: RunMeta, since: nat, s: State, w: nat, i: nat)
    returns (refreshedAt: nat, at: nat, r: Result<Option<TaskMeta>, DiscoverError>)
    requires Reachable(env, meta, since, s) && w < |s.workers| && i < |Proj(s.received, w)|
    requires Proj(s.received, w)[i].TaskStatus? && !s.workers[w].resolved
    ensures var worker := s.workers[w];
            && Proj(s.received, w)[i] == TaskStatus(worker.task.name, Pending, Some("task never started"))
            && worker.since <= refreshedAt <= at
            && Refreshes(env, worker.task.name, worker.since, refreshedAt, r)
            && (forall task: TaskMeta | r == Ok(Some(task)) ::
                  task.steps == [] && task.status != Succeeded && task.status != Failed)
            && (|| at >= worker.since + 4 * 3600 * SECOND
                || exists pr: PipelineRun ::
                     env.world(at).getPipelineRun(env.runName) == Ok(Some(pr)) && !Reads(pr.conditions, "Unknown"))
  {
    ReachableInv(env, meta, since, s);
    ReceivedIsPrefix(s, w);
    UnresolvedSaysNeverStarted(s.workers[w], s.shutdown, i);
    ReceivedIsGrounded(env, meta, since, s, w, i);
    refreshedAt, at :| GivesUp(env, s.workers[w].task.name, s.workers[w].since, refreshedAt, at);
    r := GaveUpOn(env, s.workers[w].task.name, s.workers[w].since, refreshedAt, at);
  }

  /** What giving up rests on. */
  lemma GaveUpOn(env: Env, name: string, since: nat, refreshedAt: nat, at: nat)
    returns (r: Result<Option<TaskMeta>, DiscoverError>)
    requires GivesUp(env, name, since, refreshedAt, at)
    ensures since <= refreshedAt <= at && Refreshes(env, name, since, refreshedAt, r)
    ensures forall task: TaskMeta | r == Ok(Some(task)) ::
              task.steps == [] && task.status != Succeeded && task.status != Failed
    ensures || at >= since + 4 * 3600 * SECOND
            || exists pr: PipelineRun ::
                 env.world(at).getPipelineRun(env.runName) == Ok(Some(pr)) && !Reads(pr.conditions, "Unknown")
  {
    r :| Refreshes(env, name, since, refreshedAt, r) && !Started(r);
  }

  lemma UnresolvedSaysNeverStarted(w: Worker, shutdown: bool, i: nat)
    requires InOrderAt(w, shutdown) && !w.resolved && i < |w.said| && w.said[i].TaskStatus?
    ensures w.said[i] == NeverStarted(w.task)
  {
    BodyIsOrderly(w, shutdown, w.said);
    assert Body(w.said)[i] == w.said[i];
  }

  /** Reads of a container, in order, of which none shows it running or terminated, and sixty are not refused. */
  predicate SixtyReads(world: World, task: TaskMeta, step: StepMeta, times: seq<nat>) {
    && (forall j | 0 <= j < |times| :: !Readable(ContainerOf(world, task, step, times[j])))
    && |set j: nat | j < |times| && !ContainerOf(world, task, step, times[j]).Unauthorized?| == 60
    && times != [] && times[|times| - 1] >= times[0] + 118 * SECOND
  }

  lemma TimingOutIsSixtyReads(world: World, task: TaskMeta, step: StepMeta, since: nat, times: seq<nat>)
    requires Waited(world, task, step, since, times, TimedOut)
    ensures SixtyReads(world, task, step, times)
  {
    var answers := AnswersAt(world, task, step, times);
    TimingOutTakesTime(answers, times);
    WaitMeans(answers, |times|, TimedOut);
    assert Answered(answers, |times|) ==
           set j: nat | j < |times| && !ContainerOf(world, task, step, times[j]).Unauthorized?;
    forall j | 0 <= j < |times|
      ensures !Readable(ContainerOf(world, task, step, times[j]))
    {
      assert !Readable(answers(j));
    }
  }

  /**
    A timeout error is shown only for a step of a followed task, after sixty counted reads of its
    container, none of which settled the wait, over at least 118 seconds; all of them made between
    the worker's item before and the error.
  */
  lemma TimeoutHasSixtyReads(env: Env, meta: RunMeta, since: nat, s: State, w: nat, i: nat)
    returns (k: nat, times: seq<nat>)
    requires Reachable(env, meta, since, s) && w < |s.workers| && i < |Proj(s.received, w)|
    requires Proj(s.received, w)[i].Error?
    ensures var worker := s.workers[w];
            && k < |worker.task.steps|
            && Proj(s.received, w)[i] ==
               Error("timed out waiting for " + worker.task.name + "/" + worker.task.steps[k].name + " to start")
            && SixtyReads(env.world, worker.task, worker.task.steps[k], times)
            && i < |worker.saidAt| && InOrder(times, TurnAt(worker, i)) && times[|times| - 1] <= worker.saidAt[i]
  {
    ReceivedIsGrounded(env, meta, since, s, w, i);
    var worker, item := s.workers[w], Proj(s.received, w)[i];
    k, times :|
      TimedOutAt(env.world, worker.task, TurnAt(worker, i), item, k, times) && times[|times| - 1] <= worker.saidAt[i];
    TimingOutIsSixtyReads(env.world, worker.task, worker.task.steps[k], TurnAt(worker, i), times);
  }

  lemma TaskOutcomeIsRead(answer: Answer<TaskRun>)
    ensures TaskReportedAs(answer, TaskOutcome(answer))
    ensures TaskRunDecision(answer).None? <==> TaskUndecided(answer)
  {
  }

  /**
    The status of a followed task is what the cluster gave its own TaskRun as, in the worker's turn:
    Succeeded for "True" and Failed for "False", with the condition's reason; and otherwise Unknown,
    because the TaskRun was gone or because, ten minutes after the final wait began, nothing was
    decided.
  */
  lemma TaskStatusWasRead(env: Env, meta: RunMeta, since: nat, s: State, w: nat, i: nat) returns (poll: LastPoll)
    requires Reachable(env, meta, since, s) && w < |s.workers| && i < |Proj(s.received, w)|
    requires Proj(s.received, w)[i].TaskStatus? && s.workers[w].resolved
    ensures var worker, item := s.workers[w], Proj(s.received, w)[i];
            var answer := env.world(poll.at).getTaskRun(worker.task.taskrunName);
            && item.task == worker.task.name && TaskReportedAs(answer, (item.status, item.reason))
            && i < |worker.saidAt| && TurnAt(worker, i) <= poll.begun <= poll.at <= poll.ended <= worker.saidAt[i]
            && (TaskUndecided(answer) ==> poll.ended >= poll.begun + 600 * SECOND)
  {
    ReachableInv(env, meta, since, s);
    ReceivedIsPrefix(s, w);
    ReceivedIsGrounded(env, meta, since, s, w, i);
    var worker, item := s.workers[w], Proj(s.received, w)[i];
    StatusIsNamed(worker, s.shutdown, i);
    poll :| StatusReadAt(env.world, worker.task, TurnAt(worker, i), item, poll) && poll.ended <= worker.saidAt[i];
    TaskOutcomeIsRead(env.world(poll.at).getTaskRun(worker.task.taskrunName));
  }

  /** A task is shown as failed only by the worker that follows it, and only if its own TaskRun was read as failed. */
  lemma FailedTaskWasRead(env: Env, meta: RunMeta, since: nat, s: State, w: nat, i: nat) returns (at: nat)
    requires Reachable(env, meta, since, s) && w < |s.workers| && i < |Proj(s.received, w)|
    requires Proj(s.received, w)[i].TaskStatus? && Proj(s.received, w)[i].status == Failed
    ensures s.workers[w].resolved && Proj(s.received, w)[i].task == s.workers[w].task.name
    ensures i < |s.workers[w].saidAt| && TurnAt(s.workers[w], i) <= at <= s.workers[w].saidAt[i]
    ensures TaskRunReads(env.world(at).getTaskRun(s.workers[w].task.taskrunName), "False")
  {
    ReachableInv(env, meta, since, s);
    ReceivedIsPrefix(s, w);
    if !s.workers[w].resolved {
      UnresolvedSaysNeverStarted(s.workers[w], s.shutdown, i);
    }
    var poll := TaskStatusWasRead(env, meta, since, s, w, i);
    at := poll.at;
  }

  /**
    The status of a step is that of the first of five reads, in the worker's turn, that found the
    step terminated; else of the fifth; else the one the task was listed with.
  */
  lemma StepStatusWasRead(env: Env, meta: RunMeta, since: nat, s: State, w: nat, i: nat)
    returns (k: nat, times: seq<nat>, latest: StepMeta)
    requires Reachable(env, meta, since, s) && w < |s.workers| && i < |Proj(s.received, w)|
    requires Proj(s.received, w)[i].StepStatus?
    ensures var task := s.workers[w].task;
            && k < |task.steps|
            && Proj(s.received, w)[i] == StepStatus(task.name, task.steps[k].name, latest.status, latest.reason)
            && |times| == 5 && i < |s.workers[w].saidAt| && InOrder(times, TurnAt(s.workers[w], i))
            && times[4] <= s.workers[w].saidAt[i]
            && ReadAfresh(env.world, task.taskrunName, task.steps[k], times, latest)
  {
    ReceivedIsGrounded(env, meta, since, s, w, i);
    var worker, item := s.workers[w], Proj(s.received, w)[i];
    k, times :|
      && StepReadAt(env.world, worker.task, TurnAt(worker, i), item, k, times)
      && times[MAX_ATTEMPTS - 1] <= worker.saidAt[i];
    latest := FreshOr(env.world, worker.task.taskrunName, worker.task.steps[k], times);
    FreshOrIsRead(env.world, worker.task.taskrunName, worker.task.steps[k], times);
  }

  /**
    A log is opened as the step was seen: it is followed unless the step had finished; and where the
    step was pending, its container was read in the worker's wait, as running and not terminated if
    the log is followed and as terminated if not.
  */
  lemma LogsAreOpenedAsRead(env: Env, meta: RunMeta, since: nat, s: State, w: nat)
    requires Reachable(env, meta, since, s) && w < |s.workers|
    ensures |s.workers[w].saidAt| == |s.workers[w].said| && OpenedAsRead(env.world, s.workers[w])
  {
    ReachableFromCluster(env, meta, since, s);
    assert Truthful(env, s.workers[w]);
  }

  /** The status that a followed task's worker says names the task. */
  lemma StatusIsNamed(w: Worker, shutdown: bool, i: nat)
    requires InOrderAt(w, shutdown) && w.resolved && i < |w.said| && w.said[i].TaskStatus?
    ensures w.said[i].task == w.task.name
  {
    var body := Body(w.said);
    BodyIsOrderly(w, shutdown, w.said);
    assert body[i] == w.said[i];
    ParsedStatusIsNamed(w.task, body, i);
  }

  lemma {:induction false} ParsedStatusIsNamed(task: TaskMeta, items: seq<Item>, i: nat)
    requires Parse(task, items) != Rejected && i < |items| && items[i].TaskStatus?
    ensures items[i].task == task.name
    decreases |items|
  {
    if i < |items| - 1 {
      ParsedStatusIsNamed(task, items[..|items| - 1], i);
    }
  }

  // ── The verdict ────────────────────────────────────────────────────────

  lemma {:induction false} RunKeepsMeta(env: Env, s: State, actions: seq<Action>)
    requires Executable(env, s, actions)
    ensures Run(env, s, actions).meta == s.meta
    decreases |actions|
  {
    if actions != [] {
      RunKeepsMeta(env, Apply(env, s, actions[0]), actions[1..]);
    }
  }

  lemma ReachableMeta(env: Env, meta: RunMeta, since: nat, s: State)
    requires Reachable(env, meta, since, s)
    ensures s.meta == meta
  {
    var actions :| Executable(env, Initial(meta, since), actions) && Run(env, Initial(meta, since), actions) == s;
    RunKeepsMeta(env, Initial(meta, since), actions);
  }

  /**
    The last event is `done`. If a task was received as Failed, whatever the reason, it is Failed
    without a reason, and the PipelineRun was not asked for. Otherwise it is what the cluster, asked
    after the last thing that any worker did, gave the PipelineRun as.
  */
  lemma VerdictIsHonest(env: Env, meta: RunMeta, since: nat, s: State) returns (outcome: Outcome)
    requires Reachable(env, meta, since, s) && s.phase == Completed
    ensures s.output != [] && s.output[|s.output| - 1] == Event(Done(meta.runName, outcome), NoId)
    ensures if SomeTaskFailed(s.received) then s.verdict.None? && outcome == (Failed, None)
            else s.verdict.Some? && RunReportedAs(s.verdict.value, outcome)
    ensures forall w | 0 <= w < |s.workers| :: s.workers[w].now <= s.now
    ensures s.verdict.Some? ==> exists poll :: RunReadAt(env, s.now, s.verdict.value, poll)
  {
    ReachableInv(env, meta, since, s);
    ReachableFromCluster(env, meta, since, s);
    ReachableMeta(env, meta, since, s);
    FailuresAreCounted(|s.meta.tasks|, s.received);
    LastIsVerdict(s);
    if s.receiver.anyTaskFailed {
      outcome := (Failed, None);
    } else {
      outcome := RunOutcome(s.verdict.value);
      RunOutcomeIsRead(s.verdict.value);
    }
  }

  lemma LastIsVerdict(s: State)
    requires Output(s) && s.phase == Completed
    ensures s.output != [] && [s.output[|s.output| - 1]] == Verdict(s)
  {
  }

  lemma RunOutcomeIsRead(answer: Answer<PipelineRun>)
    ensures RunReportedAs(answer, RunOutcome(answer))
    ensures PipelineRunDecision(answer).None? <==> RunUndecided(answer)
    ensures RunReportedAs(answer, (Unknown, Some("PipelineRun condition not finalized yet"))) ==> RunUndecided(answer)
  {
  }

  /**
    "PipelineRun condition not finalized yet" closes a stream only when no failed task was shown,
    and thirty seconds after the final wait began, the last answer having decided nothing.
  */
  lemma VerdictTimeoutHasWaited(env: Env, meta: RunMeta, since: nat, s: State) returns (poll: LastPoll)
    requires Reachable(env, meta, since, s) && s.phase == Completed && s.output != []
    requires s.output[|s.output| - 1] ==
             Event(Done(meta.runName, (Unknown, Some("PipelineRun condition not finalized yet"))), NoId)
    ensures !SomeTaskFailed(s.received)
    ensures forall w | 0 <= w < |s.workers| :: s.workers[w].now <= poll.begun
    ensures poll.begun <= poll.at <= poll.ended && poll.ended >= poll.begun + 30 * SECOND
    ensures RunUndecided(env.world(poll.at).getPipelineRun(env.runName))
  {
    var outcome := VerdictIsHonest(env, meta, since, s);
    assert Event(Done(meta.runName, outcome), NoId).payload.outcome == outcome;
    poll :| RunReadAt(env, s.now, s.verdict.value, poll);
    RunOutcomeIsRead(s.verdict.value);
  }

  // ── Log lines ──────────────────────────────────────────────────────────

  /** The line that worker `w` is given to pass on, if the action is that. */
  function LineBy(a: Action, w: nat): seq<(Option<string>, string)> {
    match a
    case Work(v, Line(timestamp, text)) => if v == w then [(timestamp, text)] else []
    case _ => []
  }

  function LinesBy(actions: seq<Action>, w: nat): seq<(Option<string>, string)> {
    if actions == [] then [] else LineBy(actions[0], w) + LinesBy(actions[1..], w)
  }

  /** The lines that worker `w` has passed on. */
  function LinesIn(msgs: seq<Msg>, w: nat): seq<(Option<string>, string)> {
    if msgs == [] then []
    else
      var last := msgs[|msgs| - 1];
      LinesIn(msgs[..|msgs| - 1], w) +
      if last.worker == w && last.item.Log? then [(last.item.line.timestamp, last.item.line.line)] else []
  }

  lemma LinesSnoc(msgs: seq<Msg>, m: Msg, w: nat)
    ensures LinesIn(msgs + [m], w) ==
            LinesIn(msgs, w) +
            if m.worker == w && m.item.Log? then [(m.item.line.timestamp, m.item.line.line)] else []
  {
    assert (msgs + [m])[..|msgs|] == msgs;
  }

  lemma ApplyPassesLines(env: Env, s: State, a: Action, w: nat)
    requires Enabled(env, s, a) && Workers(s) && Settled(s) && Apply(env, s, a).phase != Ended
    ensures LinesIn(Apply(env, s, a).sent, w) == LinesIn(s.sent, w) + LineBy(a, w)
  {
    if a.Work? {
      var item := SentBy(env, s.workers[a.w], a.step, s.shutdown);
      if s.phase.Alive() && item.Some? {
        LinesSnoc(s.sent, Msg(a.w, item.value), w);
      } else {
        assert Apply(env, s, a).sent == s.sent;
      }
    }
  }

  lemma {:induction false} EndedStays(env: Env, s: State, actions: seq<Action>)
    requires Executable(env, s, actions) && s.phase == Ended
    ensures Run(env, s, actions).phase == Ended
    decreases |actions|
  {
    if actions != [] {
      EndedStays(env, Apply(env, s, actions[0]), actions[1..]);
    }
  }

  lemma FirstPassesLines(env: Env, s: State, actions: seq<Action>, w: nat)
    requires Inv(s) && actions != [] && Executable(env, s, actions) && Run(env, s, actions).phase != Ended
    ensures Inv(Apply(env, s, actions[0]))
    ensures LinesIn(Apply(env, s, actions[0]).sent, w) == LinesIn(s.sent, w) + LineBy(actions[0], w)
  {
    if Apply(env, s, actions[0]).phase == Ended {
      EndedStays(env, Apply(env, s, actions[0]), actions[1..]);
    }
    ApplyKeepsInv(env, s, actions[0]);
    ApplyPassesLines(env, s, actions[0], w);
  }

  /** What worker `w` has passed on at the end is what it had, and what it is given. */
  predicate PassesLines(s: State, end: State, actions: seq<Action>, w: nat) {
    LinesIn(end.sent, w) == LinesIn(s.sent, w) + LinesBy(actions, w)
  }

  lemma PassesOneMore(s: State, next: State, end: State, actions: seq<Action>, w: nat)
    requires actions != [] && PassesLines(next, end, actions[1..], w)
    requires LinesIn(next.sent, w) == LinesIn(s.sent, w) + LineBy(actions[0], w)
    ensures PassesLines(s, end, actions, w)
  {
  }

  lemma {:induction false} RunPassesLines(env: Env, s: State, actions: seq<Action>, w: nat)
    requires Inv(s) && Executable(env, s, actions) && Run(env, s, actions).phase != Ended
    ensures PassesLines(s, Run(env, s, actions), actions, w)
    decreases |actions|
  {
    if actions == [] {
      assert LinesBy(actions, w) == [];
    } else {
      FirstPassesLines(env, s, actions, w);
      var next := Apply(env, s, actions[0]);
      RunPassesLines(env, next, actions[1..], w);
      PassesOneMore(s, next, Run(env, s, actions), actions, w);
    }
  }

  /**
    Every log line that a worker is given is passed on, once, in order, with its text and timestamp,
    as long as the stream has not ended early; so a stream that has left its loop has shown them all.
  */
  lemma EveryLineIsPassedOn(env: Env, meta: RunMeta, since: nat, actions: seq<Action>, w: nat)
    requires Executable(env, Initial(meta, since), actions)
    ensures var s := Run(env, Initial(meta, since), actions);
            && (s.phase != Ended ==> LinesIn(s.sent, w) == LinesBy(actions, w))
            && (s.phase == Judging || s.phase == Completed ==> LinesIn(s.received, w) == LinesBy(actions, w))
  {
    InitialInv(meta, since);
    RunKeepsInv(env, Initial(meta, since), actions);
    if Run(env, Initial(meta, since), actions).phase != Ended {
      RunPassesLines(env, Initial(meta, since), actions, w);
      assert LinesIn(Initial(meta, since).sent, w) == [];
    }
  }
}
