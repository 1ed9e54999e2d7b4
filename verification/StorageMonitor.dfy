/**
  The storage monitor of eap_middleware/storage_safety.py: a debounced state machine
  with hysteresis that decides whether durable ingress may be accepted.
 */
module StorageMonitor {
  import opened Wrappers

  datatype State = Normal | Warning | Critical | Recovering

  datatype Capacity = Capacity(freeBytes: nat, totalBytes: nat)

  datatype Config = Config(
    criticalBytes: nat, warningBytes: nat, recoveryBytes: nat,
    criticalPercent: real, warningPercent: real, recoveryPercent: real, debounce: nat)

  /** What the configuration loader accepts. */
  predicate Validated(c: Config) {
    && 1 <= c.criticalBytes < c.warningBytes < c.recoveryBytes
    && 0.0 < c.criticalPercent < c.warningPercent < c.recoveryPercent <= 100.0
    && 1 <= c.debounce <= 100
  }

  function FreePercent(s: Capacity): real {
    100.0 * s.freeBytes as real / (if s.totalBytes < 1 then 1 else s.totalBytes) as real
  }

  /** The order in which the fullest filesystem is chosen: by percentage, ties by bytes. */
  predicate Fuller(a: Capacity, b: Capacity) {
    FreePercent(a) < FreePercent(b) || (FreePercent(a) == FreePercent(b) && a.freeBytes < b.freeBytes)
  }

  function Worst(samples: seq<Capacity>): Capacity
    requires samples != []
  {
    if |samples| == 1 then samples[0]
    else
      var before, s := Worst(samples[..|samples| - 1]), samples[|samples| - 1];
      if Fuller(s, before) then s else before
  }

  predicate IsCritical(c: Config, s: Capacity) {
    s.freeBytes <= c.criticalBytes || FreePercent(s) <= c.criticalPercent
  }

  predicate IsLow(c: Config, s: Capacity) {
    s.freeBytes <= c.warningBytes || FreePercent(s) <= c.warningPercent
  }

  predicate IsRecovered(c: Config, s: Capacity) {
    s.freeBytes >= c.recoveryBytes && FreePercent(s) >= c.recoveryPercent
  }

  function Target(c: Config, state: State, s: Capacity): State {
    if IsCritical(c, s) then Critical
    else if state == Critical || state == Recovering then (if IsRecovered(c, s) then Normal else Recovering)
    else if IsLow(c, s) then Warning
    else Normal
  }

  datatype Monitor = Monitor(state: State, candidate: Option<State>, count: nat)

  const START := Monitor(Normal, None, 0)

  predicate Accepting(m: Monitor) {
    m.state == Normal || m.state == Warning
  }

  function ApplyCandidate(c: Config, m: Monitor, target: State, force: bool, integrity: bool): Monitor {
    if target == m.state then Monitor(m.state, None, 0)
    else
      var count := if m.candidate == Some(target) then m.count + 1 else 1;
      if !(force && target == Critical) && count < c.debounce then Monitor(m.state, Some(target), count)
      else if target == Normal && !Accepting(m) && !integrity then Monitor(Recovering, None, 0)
      else Monitor(target, None, 0)
  }

  /**
    One turn of the sampling loop. A reading is never empty; no configured path, or a
    probe that raises, is a failure and counts as critical at once.
   */
  datatype Turn =
    | Reading(samples: seq<Capacity>, force: bool, integrity: bool)
    | Failure

  predicate Proper(t: Turn) {
    t.Reading? ==> t.samples != []
  }

  function Next(c: Config, m: Monitor, t: Turn): Monitor
    requires Proper(t)
  {
    match t
    case Failure => ApplyCandidate(c, m, Critical, true, false)
    case Reading(samples, force, integrity) =>
      ApplyCandidate(c, m, Target(c, m.state, Worst(samples)), force, integrity)
  }

  ghost predicate AllProper(ts: seq<Turn>) {
    forall i :: 0 <= i < |ts| ==> Proper(ts[i])
  }

  function Run(c: Config, m: Monitor, ts: seq<Turn>): Monitor
    requires AllProper(ts)
  {
    if ts == [] then m else Next(c, Run(c, m, ts[..|ts| - 1]), ts[|ts| - 1])
  }

  // ---------- the fullest filesystem ----------

  lemma {:induction false} WorstIsLeast(samples: seq<Capacity>)
    requires samples != []
    ensures Worst(samples) in samples
    ensures forall i :: 0 <= i < |samples| ==> !Fuller(samples[i], Worst(samples))
  {
    hide FreePercent;
    if |samples| > 1 {
      var n := |samples| - 1;
      WorstIsLeast(samples[..n]);
      assert samples == samples[..n] + [samples[n]];
    }
  }

  predicate ShortOfBytes(c: Config, s: Capacity) {
    s.freeBytes <= c.criticalBytes
  }

  /**
    A reading is taken as critical exactly when some filesystem is at or below the
    critical percentage, or the one with the least percentage is short of bytes.
   */
  lemma CriticalExactlyWhen(c: Config, samples: seq<Capacity>)
    requires samples != []
    ensures IsCritical(c, Worst(samples)) <==>
      (exists i :: 0 <= i < |samples| && FreePercent(samples[i]) <= c.criticalPercent)
      || ShortOfBytes(c, Worst(samples))
  {
    hide FreePercent;
    WorstIsLeast(samples);
    var w :| 0 <= w < |samples| && samples[w] == Worst(samples);
    forall i | 0 <= i < |samples| ensures !Fuller(samples[i], Worst(samples)) {
    }
  }

  /**
    So a filesystem below its byte reserve goes unnoticed behind another with a
    smaller percentage but more bytes: here 4 bytes free of 8 beside 40 free of 100,
    with a byte reserve of 5.
   */
  lemma ByteReserveCanBeMissed(c: Config, state: State)
    requires c == Config(5, 6, 7, 10.0, 20.0, 30.0, 1) && (state == Normal || state == Warning)
    ensures Validated(c)
    ensures var samples := [Capacity(4, 8), Capacity(40, 100)];
      && IsCritical(c, samples[0]) && Worst(samples) == samples[1] && Target(c, state, Worst(samples)) == Normal
  {
  }

  /** With every filesystem large enough that the byte reserve is the smaller demand, nothing is missed. */
  lemma LargeFilesystemsAreNeverMissed(c: Config, samples: seq<Capacity>, i: nat)
    requires i < |samples|
    requires forall k :: 0 <= k < |samples| ==>
      ShortOfBytes(c, samples[k]) ==> FreePercent(samples[k]) <= c.criticalPercent
    ensures IsCritical(c, samples[i]) ==> IsCritical(c, Worst(samples))
  {
    hide FreePercent;
    CriticalExactlyWhen(c, samples);
  }

  /**
    A reading is low exactly when some filesystem is at or below the warning percentage, or
    the one with the least percentage is at or below the warning bytes; and it has recovered
    exactly when every filesystem has the recovery percentage and that one the bytes too.
   */
  lemma LowExactlyWhen(c: Config, samples: seq<Capacity>)
    requires samples != []
    ensures IsLow(c, Worst(samples)) <==>
      (exists i :: 0 <= i < |samples| && FreePercent(samples[i]) <= c.warningPercent)
      || Worst(samples).freeBytes <= c.warningBytes
    ensures IsRecovered(c, Worst(samples)) <==>
      (forall i :: 0 <= i < |samples| ==> FreePercent(samples[i]) >= c.recoveryPercent)
      && Worst(samples).freeBytes >= c.recoveryBytes
  {
    hide FreePercent;
    WorstIsLeast(samples);
    var w :| 0 <= w < |samples| && samples[w] == Worst(samples);
    forall i | 0 <= i < |samples| ensures !Fuller(samples[i], Worst(samples)) {
    }
  }

  // ---------- hysteresis ----------

  function TurnTarget(c: Config, state: State, t: Turn): State
    requires Proper(t)
  {
    if t.Failure? then Critical else Target(c, state, Worst(t.samples))
  }

  /** The candidate was the target of each of the last `count` turns, all seen from the present state. */
  ghost predicate Streak(c: Config, m: Monitor, ts: seq<Turn>)
    requires AllProper(ts)
  {
    && (m.candidate.None? ==> m.count == 0)
    && (m.candidate.Some? ==> m.candidate.value != m.state)
    && m.count <= |ts|
    && forall i :: |ts| - m.count <= i < |ts| ==> Some(TurnTarget(c, m.state, ts[i])) == m.candidate
  }

  lemma NextStreak(c: Config, m: Monitor, ts: seq<Turn>, t: Turn)
    requires AllProper(ts) && Proper(t) && Streak(c, m, ts)
    ensures Streak(c, Next(c, m, t), ts + [t])
  {
  }

  lemma {:induction false} StreakOverRuns(c: Config, ts: seq<Turn>)
    requires AllProper(ts)
    ensures Streak(c, Run(c, START, ts), ts)
  {
    if ts != [] {
      var n := |ts| - 1;
      StreakOverRuns(c, ts[..n]);
      NextStreak(c, Run(c, START, ts[..n]), ts[..n], ts[n]);
      assert ts[..n] + [ts[n]] == ts;
    }
  }

  predicate RecoveredTurn(c: Config, t: Turn)
    requires Proper(t)
  {
    t.Reading? && IsRecovered(c, Worst(t.samples)) && !IsCritical(c, Worst(t.samples))
  }

  predicate CriticalTurn(c: Config, t: Turn)
    requires Proper(t)
  {
    t.Failure? || IsCritical(c, Worst(t.samples))
  }

  /**
    Acceptance returns, and then as normal, only after the last `debounce` turns were
    all readings at or above both recovery thresholds and the integrity check passed.
   */
  lemma AcceptanceReturns(c: Config, ts: seq<Turn>, t: Turn)
    requires Validated(c) && AllProper(ts) && Proper(t)
    requires !Accepting(Run(c, START, ts)) && Accepting(Next(c, Run(c, START, ts), t))
    ensures Next(c, Run(c, START, ts), t).state == Normal
    ensures t.Reading? && t.integrity
    ensures var all := ts + [t];
      |all| >= c.debounce && forall i :: |all| - c.debounce <= i < |all| ==> RecoveredTurn(c, all[i])
  {
    hide Run, IsCritical, IsRecovered, IsLow;
    StreakOverRuns(c, ts);
    var m := Run(c, START, ts);
    var all := ts + [t];
    assert TurnTarget(c, m.state, t) == Normal;
    forall i | |all| - c.debounce <= i < |all| ensures 0 <= i && RecoveredTurn(c, all[i]) {
      assert i < |ts| ==> Some(TurnTarget(c, m.state, ts[i])) == m.candidate;
    }
  }

  /** A probe failure, or a critical reading taken with force, stops ingress at once. */
  lemma FailsClosed(c: Config, m: Monitor, t: Turn)
    requires Proper(t) && CriticalTurn(c, t) && (t.Reading? ==> t.force)
    ensures Next(c, m, t).state == Critical
  {
  }

  /** Seen from this state or from the target itself, the turn asks for the target and may have it. */
  predicate AsksFor(c: Config, state: State, target: State, t: Turn)
    requires Proper(t)
  {
    && TurnTarget(c, state, t) == target && TurnTarget(c, target, t) == target
    && (target == Normal && (state == Critical || state == Recovering) ==> t.Reading? && t.integrity)
  }

  /** `debounce_samples` turns in a row that ask for a state reach it and stay in it. */
  lemma {:induction false} SteadyTargetIsReached(c: Config, m: Monitor, target: State, ts: seq<Turn>)
    requires AllProper(ts) && forall i :: 0 <= i < |ts| ==> AsksFor(c, m.state, target, ts[i])
    ensures var u := Run(c, m, ts);
      && (|ts| >= c.debounce && ts != [] ==> u.state == target)
      && (u.state == m.state || u.state == target)
      && (ts != [] && u.state != target ==> u.candidate == Some(target) && u.count >= |ts|)
  {
    hide TurnTarget;
    if ts != [] {
      var n := |ts| - 1;
      SteadyTargetIsReached(c, m, target, ts[..n]);
      assert AsksFor(c, m.state, target, ts[n]);
      NextTowards(c, Run(c, m, ts[..n]), target, ts[n]);
    }
  }

  lemma NextTowards(c: Config, m: Monitor, target: State, t: Turn)
    requires Proper(t) && TurnTarget(c, m.state, t) == target
    requires target == Normal && !Accepting(m) ==> t.Reading? && t.integrity
    ensures var u := Next(c, m, t);
      && (u.state == target
          || (u.state == m.state && u.candidate == Some(target)
              && u.count == (if m.candidate == Some(target) then m.count + 1 else 1) && u.count < c.debounce))
  {
    hide Target;
  }

  /**
    No state changes in less than `debounce_samples` turns: the last that many all
    asked for the same state, which is the new one unless a failed integrity check
    turned normal into recovering. Only critical taken with force is immediate.
   */
  lemma ChangeIsDebounced(c: Config, ts: seq<Turn>, t: Turn)
    requires c.debounce >= 1 && AllProper(ts) && Proper(t)
    requires Next(c, Run(c, START, ts), t).state != Run(c, START, ts).state
    ensures var before, after := Run(c, START, ts).state, Next(c, Run(c, START, ts), t).state;
      var all := ts + [t];
      var target := TurnTarget(c, before, t);
      && (after == target || (target == Normal && after == Recovering && !(t.Reading? && t.integrity)))
      && ((target == Critical && (t.Failure? || t.force))
          || (|all| >= c.debounce
              && forall i :: |all| - c.debounce <= i < |all| ==> TurnTarget(c, before, all[i]) == target))
  {
    hide Target, Run;
    StreakOverRuns(c, ts);
    var m := Run(c, START, ts);
    var all := ts + [t];
    forall i | |all| - c.debounce <= i < |all| && i >= 0 && m.count + 1 >= c.debounce
      && m.candidate == Some(TurnTarget(c, m.state, t))
      ensures TurnTarget(c, m.state, all[i]) == TurnTarget(c, m.state, t)
    {
      assert i < |ts| ==> Some(TurnTarget(c, m.state, ts[i])) == m.candidate;
    }
  }

  /** That many critical turns reach critical from any state. */
  lemma CriticalIsReached(c: Config, m: Monitor, ts: seq<Turn>)
    requires AllProper(ts) && forall i :: 0 <= i < |ts| ==> CriticalTurn(c, ts[i])
    requires |ts| >= c.debounce && ts != []
    ensures Run(c, m, ts).state == Critical
  {
    forall i | 0 <= i < |ts| ensures AsksFor(c, m.state, Critical, ts[i]) {
      assert CriticalTurn(c, ts[i]);
    }
    SteadyTargetIsReached(c, m, Critical, ts);
  }

  lemma RecoveredIsNormal(c: Config, state: State, t: Turn)
    requires Validated(c) && Proper(t) && RecoveredTurn(c, t)
    ensures TurnTarget(c, state, t) == Normal
  {
  }

  /** That many recovered turns with the integrity check passing reach normal from any state. */
  lemma NormalIsReached(c: Config, m: Monitor, ts: seq<Turn>)
    requires Validated(c) && AllProper(ts) && |ts| >= c.debounce
    requires forall i :: 0 <= i < |ts| ==> RecoveredTurn(c, ts[i]) && ts[i].integrity
    ensures Run(c, m, ts).state == Normal
  {
    forall i | 0 <= i < |ts| ensures AsksFor(c, m.state, Normal, ts[i]) {
      assert RecoveredTurn(c, ts[i]);
      RecoveredIsNormal(c, m.state, ts[i]);
      RecoveredIsNormal(c, Normal, ts[i]);
    }
    SteadyTargetIsReached(c, m, Normal, ts);
  }

  predicate LowTurn(c: Config, t: Turn)
    requires Proper(t)
  {
    t.Reading? && IsLow(c, Worst(t.samples)) && !IsCritical(c, Worst(t.samples))
  }

  /** That many low readings turn normal into warning, and leave a monitor that is not accepting recovering. */
  lemma LowIsNoticed(c: Config, m: Monitor, ts: seq<Turn>)
    requires Validated(c) && AllProper(ts) && |ts| >= c.debounce
    requires forall i :: 0 <= i < |ts| ==> LowTurn(c, ts[i])
    ensures Run(c, m, ts).state == if Accepting(m) then Warning else Recovering
  {
    var target := if Accepting(m) then Warning else Recovering;
    forall i | 0 <= i < |ts| ensures AsksFor(c, m.state, target, ts[i]) {
      assert LowTurn(c, ts[i]);
      LowIsNotRecovered(c, Worst(ts[i].samples));
    }
    SteadyTargetIsReached(c, m, target, ts);
  }

  lemma LowIsNotRecovered(c: Config, s: Capacity)
    requires Validated(c) && IsLow(c, s)
    ensures !IsRecovered(c, s)
  {
    hide FreePercent;
  }

  // ---------- the monitor as an object ----------

  class StorageSafetyMonitor {
    const config: Config
    var state: State
    var candidate: Option<State>
    var candidateCount: nat

    constructor (config: Config)
      ensures this.config == config && Abs() == START
    {
      this.config := config;
      state, candidate, candidateCount := Normal, None, 0;
    }

    function Abs(): Monitor
      reads this
    {
      Monitor(state, candidate, candidateCount)
    }

    method Apply(target: State, force: bool, integrity: bool)
      modifies this
      ensures Abs() == ApplyCandidate(config, old(Abs()), target, force, integrity)
    {
      if target == state {
        candidate, candidateCount := None, 0;
        return;
      }
      if candidate != Some(target) {
        candidate, candidateCount := Some(target), 1;
      } else {
        candidateCount := candidateCount + 1;
      }
      if !(force && target == Critical) && candidateCount < config.debounce {
        return;
      }
      var reached := target;
      if target == Normal && (state == Critical || state == Recovering) && !integrity {
        reached := Recovering;
      }
      state, candidate, candidateCount := reached, None, 0;
    }

    /** `sample`: false when there is nothing to measure, which raises in the source. */
    method Sample(samples: seq<Capacity>, force: bool, integrity: bool) returns (ok: bool)
      modifies this
      ensures ok == (samples != [])
      ensures ok ==> Abs() == Next(config, old(Abs()), Reading(samples, force, integrity))
      ensures !ok ==> Abs() == old(Abs())
    {
      if samples == [] {
        return false;
      }
      var worst, i := samples[0], 1;
      assert samples[..1] == [samples[0]];
      while i < |samples|
        invariant 1 <= i <= |samples|
        invariant worst == Worst(samples[..i])
      {
        assert samples[..i + 1][..i] == samples[..i];
        if Fuller(samples[i], worst) {
          worst := samples[i];
        }
        i := i + 1;
      }
      assert samples[..i] == samples;
      Apply(Target(config, state, worst), force, integrity);
      return true;
    }

    /** One turn of the loop, where an exception drives the monitor to critical. */
    method Turn(t: Turn)
      requires Proper(t)
      modifies this
      ensures Abs() == Next(config, old(Abs()), t)
    {
      match t
      case Failure => Apply(Critical, true, false);
      case Reading(samples, force, integrity) =>
        var ok := Sample(samples, force, integrity);
    }
  }
}
