/**
  src/db/k8s_client.rs: the auth-refresh hook, admitted at most once per cooldown however many
  callers see a 401. Times are readings of one monotone clock, in nanoseconds.
*/
module AuthHook {
  import opened Wrappers
  import opened Clock

  const AUTH_HOOK_COOLDOWN: nat := 180 * SECOND

  /** `should_run`: no admission yet, or the cooldown has elapsed since the last one. */
  predicate ShouldRun(last: Option<nat>, now: nat) {
    last.None? || now >= last.value + AUTH_HOOK_COOLDOWN
  }

  /** Consecutive admissions are a cooldown apart. */
  ghost predicate Spaced(admissions: seq<nat>) {
    forall i | 0 < i < |admissions| :: admissions[i - 1] + AUTH_HOOK_COOLDOWN <= admissions[i]
  }

  function LastOf(admissions: seq<nat>): Option<nat> {
    if admissions == [] then None else Some(admissions[|admissions| - 1])
  }

  /** The cooldown cell, with the admissions it has recorded. */
  class HookCooldown {
    var last: Option<nat>
    ghost var admissions: seq<nat>

    ghost predicate Valid()
      reads this
    {
      Spaced(admissions) && last == LastOf(admissions)
    }

    constructor ()
      ensures Valid() && last == None && admissions == []
    {
      last := None;
      admissions := [];
    }

    /** The critical section: one reading decides, a later one is recorded. */
    method Admit(checkedAt: nat, recordedAt: nat) returns (admitted: bool)
      requires Valid() && checkedAt <= recordedAt
      modifies this
      ensures Valid()
      ensures admitted <==> forall i | 0 <= i < |old(admissions)| ::
                              old(admissions)[i] + AUTH_HOOK_COOLDOWN <= checkedAt
      ensures admissions == if admitted then old(admissions) + [recordedAt] else old(admissions)
      ensures last == if admitted then Some(recordedAt) else old(last)
    {
      SpacedGrows(admissions);
      var shouldRun := match last
        case None => true
        case Some(t) => checkedAt >= t + AUTH_HOOK_COOLDOWN;
      if !shouldRun {
        return false;
      }
      last := Some(recordedAt);
      admissions := admissions + [recordedAt];
      return true;
    }
  }

  lemma {:induction false} SpacedGrows(admissions: seq<nat>)
    requires Spaced(admissions)
    ensures forall i | 0 <= i < |admissions| :: admissions[i] <= admissions[|admissions| - 1]
  {
    if admissions != [] {
      SpacedGrows(admissions[..|admissions| - 1]);
    }
  }

  // ── The rate bound ─────────────────────────────────────────────────────

  function CountWithin(admissions: seq<nat>, from: nat, to: nat): nat {
    if admissions == [] then 0
    else
      CountWithin(admissions[..|admissions| - 1], from, to) +
      if from <= admissions[|admissions| - 1] <= to then 1 else 0
  }

  lemma {:induction false} CountCutsAt(admissions: seq<nat>, from: nat, to: nat, bound: int)
    requires forall i | 0 <= i < |admissions| :: admissions[i] <= bound
    ensures CountWithin(admissions, from, to) ==
            if bound < from then 0 else CountWithin(admissions, from, if bound < to then bound else to)
  {
    if admissions != [] {
      CountCutsAt(admissions[..|admissions| - 1], from, to, bound);
    }
  }

  lemma OneCooldownMore(span: nat, width: nat)
    requires span + AUTH_HOOK_COOLDOWN <= width
    ensures span / AUTH_HOOK_COOLDOWN + 1 <= width / AUTH_HOOK_COOLDOWN
  {
  }

  /** Any window of `width` holds at most one admission per whole cooldown in it, plus one. */
  lemma {:induction false} WindowBound(admissions: seq<nat>, from: nat, width: nat)
    requires Spaced(admissions)
    ensures CountWithin(admissions, from, from + width) <= width / AUTH_HOOK_COOLDOWN + 1
    decreases |admissions|
  {
    if admissions != [] {
      var front, last := admissions[..|admissions| - 1], admissions[|admissions| - 1];
      if from <= last <= from + width {
        if front != [] {
          SpacedGrows(front);
          var bound := last - AUTH_HOOK_COOLDOWN;
          CountCutsAt(front, from, from + width, bound);
          if bound >= from {
            WindowBound(front, from, bound - from);
            OneCooldownMore(bound - from, width);
          }
        }
      } else {
        WindowBound(front, from, width);
      }
    }
  }

  // ── Every interleaving of callers ──────────────────────────────────────

  /** Where a caller of `run_auth_refresh_hook` is with respect to the lock. */
  datatype Pc = Outside | Locked | Recording | Leaving

  datatype State = State(clock: nat, holder: Option<nat>, last: Option<nat>, callers: seq<Pc>, admissions: seq<nat>)

  datatype Action =
    | Tick(elapsed: nat)
    | Lock(caller: nat)
    | Check(caller: nat)
    | Record(caller: nat)
    | Unlock(caller: nat)

  predicate Enabled(s: State, a: Action) {
    match a
    case Tick(_) => true
    case Lock(c) => c < |s.callers| && s.callers[c] == Outside && s.holder.None?
    case Check(c) => c < |s.callers| && s.callers[c] == Locked
    case Record(c) => c < |s.callers| && s.callers[c] == Recording
    case Unlock(c) => c < |s.callers| && s.callers[c] == Leaving
  }

  function Apply(s: State, a: Action): State
    requires Enabled(s, a)
  {
    match a
    case Tick(elapsed) => s.(clock := s.clock + elapsed)
    case Lock(c) => s.(holder := Some(c), callers := s.callers[c := Locked])
    case Check(c) => s.(callers := s.callers[c := if ShouldRun(s.last, s.clock) then Recording else Leaving])
    case Record(c) =>
      s.(last := Some(s.clock), admissions := s.admissions + [s.clock], callers := s.callers[c := Leaving])
    case Unlock(c) => s.(holder := None, callers := s.callers[c := Outside])
  }

  function Initial(callers: nat, clock: nat): State {
    State(clock, None, None, seq(callers, _ => Outside), [])
  }

  predicate Executable(s: State, actions: seq<Action>)
    decreases |actions|
  {
    actions == [] || (Enabled(s, actions[0]) && Executable(Apply(s, actions[0]), actions[1..]))
  }

  function Run(s: State, actions: seq<Action>): State
    requires Executable(s, actions)
    decreases |actions|
  {
    if actions == [] then s else Run(Apply(s, actions[0]), actions[1..])
  }

  /** Only the holder is past the lock, and a caller about to record still may. */
  ghost predicate Inv(s: State) {
    && Spaced(s.admissions) && s.last == LastOf(s.admissions)
    && (s.last.Some? ==> s.last.value <= s.clock)
    && (forall c | 0 <= c < |s.callers| && s.callers[c] != Outside :: s.holder == Some(c))
    && (forall c | 0 <= c < |s.callers| && s.callers[c] == Recording :: ShouldRun(s.last, s.clock))
  }

  lemma {:induction false} RunKeepsInv(s: State, actions: seq<Action>)
    requires Inv(s) && Executable(s, actions)
    ensures Inv(Run(s, actions))
    decreases |actions|
  {
    if actions != [] {
      RunKeepsInv(Apply(s, actions[0]), actions[1..]);
    }
  }

  lemma SpacedFromLast(admissions: seq<nat>, now: nat)
    requires Spaced(admissions)
    ensures ShouldRun(LastOf(admissions), now) <==>
            forall i | 0 <= i < |admissions| :: admissions[i] + 180 * SECOND <= now
  {
    SpacedGrows(admissions);
  }

  /**
    Whatever the callers did before: while nobody holds the lock, any of them can take it. One that
    checks goes on to record exactly when every admission is 180 seconds old, and otherwise leaves.
    Only a recording adds an admission, at the time it is made.
  */
  lemma ChecksAdmitExactly(callers: nat, clock: nat, actions: seq<Action>, c: nat)
    requires Executable(Initial(callers, clock), actions)
    ensures var s := Run(Initial(callers, clock), actions);
            && (s.holder.None? && c < |s.callers| ==> Enabled(s, Lock(c)))
            && (Enabled(s, Check(c)) ==>
                  Apply(s, Check(c)).callers[c] ==
                  if forall i | 0 <= i < |s.admissions| :: s.admissions[i] + 180 * SECOND <= s.clock
                  then Recording else Leaving)
            && (Enabled(s, Record(c)) ==> Apply(s, Record(c)).admissions == s.admissions + [s.clock])
            && forall a | Enabled(s, a) && !a.Record? :: Apply(s, a).admissions == s.admissions
  {
    RunKeepsInv(Initial(callers, clock), actions);
    SpacedFromLast(Run(Initial(callers, clock), actions).admissions, Run(Initial(callers, clock), actions).clock);
  }

  /**
    For any number of callers, any interleaving and any clock, admissions are a cooldown apart, so
    `seconds` seconds hold at most floor(seconds / 180) + 1 of them.
  */
  lemma RateBound(callers: nat, clock: nat, actions: seq<Action>, from: nat, seconds: nat)
    requires Executable(Initial(callers, clock), actions)
    ensures var admissions := Run(Initial(callers, clock), actions).admissions;
            && Spaced(admissions)
            && CountWithin(admissions, from, from + seconds * SECOND) <= seconds / 180 + 1
  {
    RunKeepsInv(Initial(callers, clock), actions);
    WindowBound(Run(Initial(callers, clock), actions).admissions, from, seconds * SECOND);
    assert seconds * SECOND / AUTH_HOOK_COOLDOWN == seconds / 180;
  }

  /** The lock is exclusive: no two callers are ever past it together. */
  lemma MutualExclusion(callers: nat, clock: nat, actions: seq<Action>, a: nat, b: nat)
    requires Executable(Initial(callers, clock), actions)
    requires var s := Run(Initial(callers, clock), actions);
             a < |s.callers| && b < |s.callers| && s.callers[a] != Outside && s.callers[b] != Outside
    ensures a == b
  {
    RunKeepsInv(Initial(callers, clock), actions);
  }
}
