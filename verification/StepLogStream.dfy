/** src/handlers/step_log_stream.rs: waiting for a step's container, and its log lines. */
module StepLogStream {
  import opened Wrappers
  import opened Clock
  import opened Text
  import opened TektonApi

  const MAX_READY_RETRIES: nat := 60
  const READY_POLL_INTERVAL: nat := 2 * SECOND

  datatype WaitResult = Ready | AlreadyTerminated | TimedOut

  /** What an answer settles: a container that runs or ended can be read. */
  function Settles(answer: PodAnswer): Option<WaitResult> {
    match answer
    case Pod(Some(s)) =>
      if s.terminated then Some(AlreadyTerminated) else if s.running then Some(Ready) else None
    case _ => None
  }

  /** Answers that use up an attempt: everything that settles nothing, except a 401. */
  predicate Counted(answer: PodAnswer) {
    Settles(answer).None? && !answer.Unauthorized?
  }

  function CountedIn(answers: nat -> PodAnswer, calls: nat): nat {
    if calls == 0 then 0
    else CountedIn(answers, calls - 1) + if Counted(answers(calls - 1)) then 1 else 0
  }

  /** None of the first `calls` answers ends the wait. */
  predicate StillWaiting(answers: nat -> PodAnswer, calls: nat) {
    && (forall k | 0 <= k < calls :: Settles(answers(k)).None?)
    && CountedIn(answers, calls) < MAX_READY_RETRIES
  }

  /** The wait ends with call number `calls`: it settled, or it was the sixtieth counted one. */
  predicate Ends(answers: nat -> PodAnswer, calls: nat, r: WaitResult) {
    && calls > 0 && StillWaiting(answers, calls - 1)
    && match r
       case TimedOut => Settles(answers(calls - 1)).None? && CountedIn(answers, calls) == MAX_READY_RETRIES
       case _ => Settles(answers(calls - 1)) == Some(r)
  }

  /** Waits on answers of which only the first `refused` may be 401s. */
  method WaitForContainerReady(answers: nat -> PodAnswer, ghost refused: nat) returns (r: WaitResult, calls: nat)
    requires forall k: nat | k >= refused :: !answers(k).Unauthorized?
    ensures Ends(answers, calls, r)
  {
    var attempt := 0;
    calls := 0;
    while true
      invariant attempt == CountedIn(answers, calls) && StillWaiting(answers, calls)
      decreases MAX_READY_RETRIES - attempt, if calls < refused then refused - calls else 0
    {
      var answer := answers(calls);
      calls := calls + 1;
      match answer {
        case Pod(state) =>
          if state.Some? {
            if state.value.terminated {
              return AlreadyTerminated, calls;
            }
            if state.value.running {
              return Ready, calls;
            }
          }
        case Unauthorized =>
          continue;
        case Failure =>
      }
      attempt := attempt + 1;
      if attempt >= MAX_READY_RETRIES {
        return TimedOut, calls;
      }
    }
  }

  /** The end of a wait depends on the answers up to it only. */
  lemma {:induction false} CountedInAgrees(answers: nat -> PodAnswer, answers': nat -> PodAnswer, calls: nat)
    requires forall k | 0 <= k < calls :: answers(k) == answers'(k)
    ensures CountedIn(answers, calls) == CountedIn(answers', calls)
  {
    if calls > 0 {
      CountedInAgrees(answers, answers', calls - 1);
    }
  }

  // ── What a wait has read ───────────────────────────────────────────────

  /** The container can be read: it terminated, or it runs. */
  predicate Readable(answer: PodAnswer) {
    answer.Pod? && answer.state.Some? && (answer.state.value.terminated || answer.state.value.running)
  }

  /** Among the first `calls` answers, those that are not a 401. */
  function Answered(answers: nat -> PodAnswer, calls: nat): set<nat> {
    set k: nat | k < calls && !answers(k).Unauthorized?
  }

  lemma {:induction false} CountedAreAnswered(answers: nat -> PodAnswer, calls: nat)
    requires forall k | 0 <= k < calls :: !Readable(answers(k))
    ensures CountedIn(answers, calls) == |Answered(answers, calls)|
  {
    if calls > 0 {
      CountedAreAnswered(answers, calls - 1);
      assert Answered(answers, calls) ==
             Answered(answers, calls - 1) + if answers(calls - 1).Unauthorized? then {} else {calls - 1};
    }
  }

  /**
    A wait ends with the first answer that shows the container running or terminated, and says
    which: running and not terminated is ready. It times out exactly with the sixtieth answer that
    is not a 401, if none of them showed it so.
  */
  lemma WaitMeans(answers: nat -> PodAnswer, calls: nat, r: WaitResult)
    requires calls > 0
    ensures Ends(answers, calls, r) <==>
            && (forall k | 0 <= k < calls - 1 :: !Readable(answers(k)))
            && |Answered(answers, calls - 1)| < 60
            && match r
               case Ready => answers(calls - 1) == Pod(Some(ContainerState(false, true)))
               case AlreadyTerminated =>
                 exists running :: answers(calls - 1) == Pod(Some(ContainerState(true, running)))
               case TimedOut => !Readable(answers(calls - 1)) && |Answered(answers, calls)| == 60
  {
    assert forall k :: Settles(answers(k)).Some? <==> Readable(answers(k));
    if forall k | 0 <= k < calls - 1 :: !Readable(answers(k)) {
      CountedAreAnswered(answers, calls - 1);
      if !Readable(answers(calls - 1)) {
        CountedAreAnswered(answers, calls);
      }
      if answers(calls - 1).Pod? && answers(calls - 1).state.Some? {
        var state := answers(calls - 1).state.value;
        assert state == ContainerState(state.terminated, state.running);
      }
    }
  }

  // ── The time a wait takes ──────────────────────────────────────────────

  /** A counted answer is followed by a sleep; a 401 is retried at once. */
  predicate Paced(answers: nat -> PodAnswer, times: seq<nat>) {
    forall k | 0 <= k < |times| - 1 :: PacedAt(answers, times, k)
  }

  predicate PacedAt(answers: nat -> PodAnswer, times: seq<nat>, k: nat)
    requires k + 1 < |times|
  {
    times[k] + (if Counted(answers(k)) then READY_POLL_INTERVAL else 0) <= times[k + 1]
  }

  lemma {:induction false} CountingTakesTime(answers: nat -> PodAnswer, times: seq<nat>, k: nat)
    requires Paced(answers, times) && k < |times|
    ensures times[0] + CountedIn(answers, k) * READY_POLL_INTERVAL <= times[k]
  {
    if k > 0 {
      CountingTakesTime(answers, times, k - 1);
      assert PacedAt(answers, times, k - 1);
    }
  }

  /** A wait that times out has slept fifty-nine times: 118 seconds lie between its first and last call. */
  lemma TimingOutTakesTime(answers: nat -> PodAnswer, times: seq<nat>)
    requires Paced(answers, times) && Ends(answers, |times|, TimedOut)
    ensures times[|times| - 1] >= times[0] + 118 * SECOND
  {
    CountingTakesTime(answers, times, |times| - 1);
  }

  /** Calls of which each was counted, a sleep apart. */
  predicate Apart(marks: seq<nat>) {
    forall k | 0 <= k < |marks| - 1 :: marks[k] + READY_POLL_INTERVAL <= marks[k + 1]
  }

  /** The times of the counted ones among the first `calls` calls. */
  lemma {:induction false} CountedCalls(answers: nat -> PodAnswer, times: seq<nat>, calls: nat)
    returns (marks: seq<nat>)
    requires Paced(answers, times) && calls <= |times|
    ensures |marks| == CountedIn(answers, calls) && Apart(marks)
    ensures forall j | 0 <= j < |marks| :: exists k :: 0 <= k < calls && times[k] == marks[j] && Counted(answers(k))
    ensures marks != [] && calls < |times| ==> marks[|marks| - 1] + READY_POLL_INTERVAL <= times[calls]
  {
    marks := [];
    if calls > 0 {
      marks := CountedCalls(answers, times, calls - 1);
      if Counted(answers(calls - 1)) {
        marks := marks + [times[calls - 1]];
      }
      assert calls < |times| ==> PacedAt(answers, times, calls - 1);
    }
  }

  /** A wait times out after sixty counted answers, none of which settled it. */
  lemma TimedOutMeans(answers: nat -> PodAnswer, calls: nat)
    requires Ends(answers, calls, TimedOut)
    ensures forall j | 0 <= j < calls :: Settles(answers(j)).None?
    ensures CountedIn(answers, calls) == MAX_READY_RETRIES
  {
    assert StillWaiting(answers, calls - 1);
  }

  lemma {:induction false} AllCounted(answers: nat -> PodAnswer, calls: nat)
    requires forall k | 0 <= k < calls :: Counted(answers(k))
    ensures CountedIn(answers, calls) == calls
  {
    if calls > 0 {
      AllCounted(answers, calls - 1);
    }
  }

  lemma {:induction false} NoneCounted(answers: nat -> PodAnswer, calls: nat)
    requires forall k | 0 <= k < calls :: !Counted(answers(k))
    ensures CountedIn(answers, calls) == 0
  {
    if calls > 0 {
      NoneCounted(answers, calls - 1);
    }
  }

  /** From call `m` on there is nothing but 401s, with attempts to spare. */
  ghost predicate StuckFrom(answers: nat -> PodAnswer, m: nat) {
    StillWaiting(answers, m) && forall k: nat | k >= m :: answers(k).Unauthorized?
  }

  lemma {:induction false} CountedGrows(answers: nat -> PodAnswer, a: nat, b: nat)
    requires a <= b
    ensures CountedIn(answers, a) <= CountedIn(answers, b)
    ensures (forall k | a <= k < b :: !Counted(answers(k))) ==> CountedIn(answers, a) == CountedIn(answers, b)
  {
    if a < b {
      CountedGrows(answers, a, b - 1);
    }
  }

  lemma {:induction false} WaitingForeverIsStuck(answers: nat -> PodAnswer, m: nat) returns (stuck: nat)
    requires forall calls: nat :: StillWaiting(answers, calls)
    ensures StuckFrom(answers, stuck)
    decreases MAX_READY_RETRIES - CountedIn(answers, m)
  {
    assert StillWaiting(answers, m);
    if k: nat :| k >= m && !answers(k).Unauthorized? {
      assert StillWaiting(answers, k + 1);
      CountedGrows(answers, m, k);
      stuck := WaitingForeverIsStuck(answers, k + 1);
    } else {
      stuck := m;
    }
  }

  /** The wait goes on forever exactly when, at some point, only 401s are left. */
  lemma WaitsForeverOnlyOn401s(answers: nat -> PodAnswer)
    ensures (forall calls: nat :: StillWaiting(answers, calls)) <==> exists m: nat :: StuckFrom(answers, m)
  {
    if forall calls: nat :: StillWaiting(answers, calls) {
      var m := WaitingForeverIsStuck(answers, 0);
    }
    if m: nat :| StuckFrom(answers, m) {
      forall calls: nat
        ensures StillWaiting(answers, calls)
      {
        if calls <= m {
          CountedGrows(answers, calls, m);
        } else {
          CountedGrows(answers, m, calls);
        }
      }
    }
  }

  /** Two ends of one wait are the same end. */
  lemma EndIsUnique(answers: nat -> PodAnswer, calls: nat, r: WaitResult, calls': nat, r': WaitResult)
    requires Ends(answers, calls, r) && Ends(answers, calls', r')
    ensures calls == calls' && r == r'
  {
    if calls < calls' {
      CountedGrows(answers, calls, calls' - 1);
    } else if calls' < calls {
      CountedGrows(answers, calls', calls - 1);
    }
  }

  // ── split_timestamp ────────────────────────────────────────────────────

  /** Bytes of a character in UTF-8. */
  function Utf8Size(c: char): nat {
    var n := c as int;
    if n < 0x80 then 1 else if n < 0x800 then 2 else if n < 0x1_0000 then 3 else 4
  }

  function Utf8Length(s: string): nat {
    if s == [] then 0 else Utf8Size(s[0]) + Utf8Length(s[1..])
  }

  /** What the line's first word must look like to be taken for its timestamp. */
  predicate LooksLikeTimestamp(word: string) {
    && Utf8Length(word) >= 20 && 'T' in word
    && ((word != [] && word[|word| - 1] == 'Z') || '+' in word)
  }

  function SplitTimestamp(raw: string): (Option<string>, string) {
    match SplitOnce(raw, ' ')
    case Some((word, rest)) =>
      if LooksLikeTimestamp(word) then (Some(word), TrimStart([' '] + rest)) else (None, raw)
    case None => (None, raw)
  }

  /**
    A stamped line comes back as its stamp and its text exactly when the stamp looks like one and
    the text does not start with whitespace: leading indentation is lost.
  */
  lemma StampRoundTrip(stamp: string, text: string)
    requires ' ' !in stamp
    ensures SplitTimestamp(stamp + " " + text) == (Some(stamp), text) <==>
            LooksLikeTimestamp(stamp) && (text == [] || !IsWhitespace(text[0]))
  {
    SplitOnceAtFirst(stamp, ' ', text);
    assert ([' '] + text)[1..] == text;
    assert TrimStart([' '] + text) == TrimStart(text);
    if text != [] && IsWhitespace(text[0]) {
      TrimStartShrinks(text[1..]);
      assert TrimStart(text) == TrimStart(text[1..]) != text;
    } else {
      assert TrimStart(text) == text;
    }
  }

  lemma {:induction false} AsciiLength(s: string)
    requires forall i | 0 <= i < |s| :: s[i] as int < 0x80
    ensures Utf8Length(s) == |s|
  {
    if s != [] {
      AsciiLength(s[1..]);
    }
  }

  /**
    A first word in ASCII is taken for a timestamp exactly if it has at least twenty characters, a
    `T` among them, and ends in `Z` or holds a `+`.
  */
  lemma StampIsRecognised(word: string, text: string)
    requires ' ' !in word && forall i | 0 <= i < |word| :: word[i] as int < 0x80
    ensures SplitTimestamp(word + " " + text).0.Some? <==>
            |word| >= 20 && 'T' in word && (word[|word| - 1] == 'Z' || '+' in word)
  {
    SplitOnceAtFirst(word, ' ', text);
    AsciiLength(word);
  }

  /**
    A line is split only at its first space, and nothing but whitespace is lost; a line that is not
    split is kept as it is.
  */
  lemma NothingButWhitespaceIsLost(raw: string) returns (lost: string)
    ensures match SplitTimestamp(raw)
            case (Some(stamp), text) => raw == stamp + " " + lost + text && ' ' !in stamp && AllWhitespace(lost)
            case (None, text) => text == raw
    ensures ' ' !in raw ==> SplitTimestamp(raw).0.None?
  {
    lost := [];
    if ' ' in raw {
      var (stamp, rest) := SplitOnce(raw, ' ').value;
      lost := TrimStartCuts(rest);
      assert ([' '] + rest)[1..] == rest;
    }
  }

  lemma {:induction false} TrimStartShrinks(s: string)
    ensures |TrimStart(s)| <= |s|
  {
    if s != [] {
      TrimStartShrinks(s[1..]);
    }
  }
}
