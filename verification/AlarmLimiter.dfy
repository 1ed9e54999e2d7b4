/**
  The per-machine sliding-window alarm limiter of eap_middleware/alarms.py. The code
  keeps a pruned list of admission times; the reference is plain counting over the
  whole history.
 */
module AlarmLimiter {
  import opened Wrappers

  /** `alcd` is None when it is not a number. */
  datatype Alarm = Alarm(isSet: bool, alcd: Option<int>, alid: string)

  datatype Bucket = Bucket(stamps: seq<real>, dropped: nat, byAlid: map<string, nat>)

  const FRESH := Bucket([], 0, map[])

  datatype Config = Config(maxPerWindow: int, windowSec: real)

  function AtLeastOne(n: int): nat {
    if n < 1 then 1 else n
  }

  function Window(cfg: Config): real {
    if cfg.windowSec < 0.001 then 0.001 else cfg.windowSec
  }

  function Limit(cfg: Config, override: Option<int>): nat {
    AtLeastOne(if override.Some? then override.value else cfg.maxPerWindow)
  }

  /** Clears and the two safety classes are never shed. Bit 8 of the code is the set flag. */
  predicate Exempt(alarm: Option<Alarm>) {
    alarm.Some? &&
    var alarmClass := if alarm.value.alcd.Some? then alarm.value.alcd.value % 128 else 0;
    !alarm.value.isSet || alarmClass == 1 || alarmClass == 2
  }

  /**
    Of the code byte the lowest seven bits are the class: what is never shed is every clear
    and the codes 1 and 2, with or without the set flag. A set alarm whose code is not a
    number, or no alarm at all, is shed like any other.
   */
  lemma ExemptExactly(alarm: Option<Alarm>)
    requires alarm.Some? && alarm.value.alcd.Some? ==> 0 <= alarm.value.alcd.value <= 255
    ensures Exempt(alarm) <==>
      alarm.Some? && (!alarm.value.isSet || alarm.value.alcd in {Some(1), Some(2), Some(129), Some(130)})
  {
  }

  function Prune(stamps: seq<real>, cutoff: real): seq<real> {
    if stamps != [] && stamps[0] < cutoff then Prune(stamps[1..], cutoff) else stamps
  }

  datatype Admitted = Admitted(bucket: Bucket, ok: bool)

  function Tally(byAlid: map<string, nat>, alid: string): nat {
    if alid in byAlid then byAlid[alid] else 0
  }

  function AdmitTo(b: Bucket, window: real, limit: nat, now: real, alid: Option<string>): Admitted {
    var stamps := Prune(b.stamps, now - window);
    if |stamps| < limit then Admitted(b.(stamps := stamps + [now]), true)
    else
      Admitted(b.(stamps := stamps, dropped := b.dropped + 1,
        byAlid := if alid.Some? then b.byAlid[alid.value := Tally(b.byAlid, alid.value) + 1] else b.byAlid), false)
  }

  // ---------- runs ----------

  datatype Op =
    | Admit(machine: string, now: real, alarm: Option<Alarm>, limit: Option<int>)
    | Drain

  /** What one machine's drain reports, and the tally it clears. */
  datatype Report = Report(count: nat, alids: map<string, nat>)

  datatype Entry =
    | Decided(machine: string, now: real, exempt: bool, limit: nat, admitted: bool, alid: Option<string>)
    | Drained(reports: map<string, Report>)

  datatype Sys = Sys(buckets: map<string, Bucket>, log: seq<Entry>)

  const START := Sys(map[], [])

  function BucketOf(buckets: map<string, Bucket>, machine: string): Bucket {
    if machine in buckets then buckets[machine] else FRESH
  }

  function AlidOf(alarm: Option<Alarm>): Option<string> {
    if alarm.Some? then Some(alarm.value.alid) else None
  }

  function Cleared(b: Bucket): Bucket {
    if b.dropped > 0 then b.(dropped := 0, byAlid := map[]) else b
  }

  function DrainBuckets(buckets: map<string, Bucket>): map<string, Bucket> {
    map m | m in buckets :: Cleared(buckets[m])
  }

  function Reports(buckets: map<string, Bucket>): map<string, Report> {
    map m | m in buckets && buckets[m].dropped > 0 :: Report(buckets[m].dropped, buckets[m].byAlid)
  }

  function Next(s: Sys, cfg: Config, op: Op): Sys {
    match op
    case Drain => Sys(DrainBuckets(s.buckets), s.log + [Drained(Reports(s.buckets))])
    case Admit(machine, now, alarm, override) =>
      var limit := Limit(cfg, override);
      if Exempt(alarm) then
        s.(log := s.log + [Decided(machine, now, true, limit, true, AlidOf(alarm))])
      else
        var r := AdmitTo(BucketOf(s.buckets, machine), Window(cfg), limit, now, AlidOf(alarm));
        Sys(s.buckets[machine := r.bucket],
            s.log + [Decided(machine, now, false, limit, r.ok, AlidOf(alarm))])
  }

  function Run(cfg: Config, ops: seq<Op>): Sys {
    if ops == [] then START else Next(Run(cfg, ops[..|ops| - 1]), cfg, ops[|ops| - 1])
  }

  ghost predicate ClockMovesForward(ops: seq<Op>) {
    forall i, j :: 0 <= i < j < |ops| && ops[i].Admit? && ops[j].Admit? ==> ops[i].now <= ops[j].now
  }

  // ---------- counting ----------

  predicate Counts(e: Entry, machine: string) {
    e.Decided? && !e.exempt && e.admitted && e.machine == machine
  }

  /** The non-exempt admissions of the machine at or after a time, over the whole history. */
  function AdmittedSince(log: seq<Entry>, machine: string, from: real): nat {
    if log == [] then 0
    else
      var e := log[|log| - 1];
      AdmittedSince(log[..|log| - 1], machine, from) + (if Counts(e, machine) && e.now >= from then 1 else 0)
  }

  /** The same within a closed interval. */
  function AdmittedWithin(log: seq<Entry>, machine: string, from: real, to: real): nat {
    if log == [] then 0
    else
      var e := log[|log| - 1];
      AdmittedWithin(log[..|log| - 1], machine, from, to)
        + (if Counts(e, machine) && from <= e.now <= to then 1 else 0)
  }

  function CountSince(stamps: seq<real>, from: real): nat {
    if stamps == [] then 0
    else (if stamps[0] >= from then 1 else 0) + CountSince(stamps[1..], from)
  }

  ghost predicate Ascending(stamps: seq<real>) {
    forall i, j :: 0 <= i < j < |stamps| ==> stamps[i] <= stamps[j]
  }

  lemma {:induction false} CountAll(stamps: seq<real>, from: real)
    requires forall i :: 0 <= i < |stamps| ==> stamps[i] >= from
    ensures CountSince(stamps, from) == |stamps|
  {
    if stamps != [] {
      CountAll(stamps[1..], from);
    }
  }

  lemma {:induction false} CountPruned(stamps: seq<real>, cutoff: real, from: real)
    requires cutoff <= from
    ensures CountSince(Prune(stamps, cutoff), from) == CountSince(stamps, from)
  {
    if stamps != [] && stamps[0] < cutoff {
      CountPruned(stamps[1..], cutoff, from);
    }
  }

  lemma {:induction false} PrunedIsRecent(stamps: seq<real>, cutoff: real)
    requires Ascending(stamps)
    ensures var p := Prune(stamps, cutoff);
      Ascending(p) && (forall i :: 0 <= i < |p| ==> p[i] >= cutoff && p[i] in stamps)
  {
    if stamps != [] && stamps[0] < cutoff {
      PrunedIsRecent(stamps[1..], cutoff);
    }
  }

  lemma {:induction false} CountSnoc(stamps: seq<real>, now: real, from: real)
    ensures CountSince(stamps + [now], from) == CountSince(stamps, from) + (if now >= from then 1 else 0)
  {
    if stamps == [] {
      assert stamps + [now] == [now];
    } else {
      CountSnoc(stamps[1..], now, from);
      assert (stamps + [now])[1..] == stamps[1..] + [now];
    }
  }

  lemma AdmittedSnoc(log: seq<Entry>, e: Entry, machine: string, from: real)
    ensures AdmittedSince(log + [e], machine, from)
      == AdmittedSince(log, machine, from) + (if Counts(e, machine) && e.now >= from then 1 else 0)
  {
  }

  // ---------- the pruned list decides as counting does ----------

  /** From the last window on, the machine's list counts what the history counts. */
  ghost predicate Faithful(b: Bucket, log: seq<Entry>, machine: string, window: real, last: real) {
    && Ascending(b.stamps)
    && (forall i :: 0 <= i < |b.stamps| ==> b.stamps[i] <= last)
    && (forall from :: from >= last - window ==> CountSince(b.stamps, from) == AdmittedSince(log, machine, from))
  }

  /** Pruning leaves what the window holds, and forgets nothing a later window could count. */
  lemma PruneKeepsFaith(b: Bucket, log: seq<Entry>, machine: string, window: real, last: real, now: real)
    requires Faithful(b, log, machine, window, last) && last <= now
    ensures var pruned := b.(stamps := Prune(b.stamps, now - window));
      && Faithful(pruned, log, machine, window, now)
      && |pruned.stamps| == AdmittedSince(log, machine, now - window)
  {
    hide AdmittedSince;
    var cutoff := now - window;
    PrunedIsRecent(b.stamps, cutoff);
    CountAll(Prune(b.stamps, cutoff), cutoff);
    forall from | from >= cutoff
      ensures CountSince(Prune(b.stamps, cutoff), from) == AdmittedSince(log, machine, from)
    {
      CountPruned(b.stamps, cutoff, from);
    }
  }

  lemma AdmissionKeepsFaith(b: Bucket, log: seq<Entry>, e: Entry, window: real)
    requires e.Decided? && !e.exempt && e.admitted && Faithful(b, log, e.machine, window, e.now)
    ensures Faithful(b.(stamps := b.stamps + [e.now]), log + [e], e.machine, window, e.now)
  {
    hide AdmittedSince, CountSince;
    forall from | from >= e.now - window
      ensures CountSince(b.stamps + [e.now], from) == AdmittedSince(log + [e], e.machine, from)
    {
      CountSnoc(b.stamps, e.now, from);
      AdmittedSnoc(log, e, e.machine, from);
    }
  }

  lemma AdmitDecidesByCounting(
    b: Bucket, log: seq<Entry>, machine: string, window: real, limit: nat, last: real, now: real, alid: Option<string>)
    requires Faithful(b, log, machine, window, last) && last <= now
    ensures var r := AdmitTo(b, window, limit, now, alid);
      && (r.ok <==> AdmittedSince(log, machine, now - window) < limit)
      && Faithful(r.bucket, log + [Decided(machine, now, false, limit, r.ok, alid)], machine, window, now)
  {
    hide Prune, AdmittedSince, CountSince, Faithful;
    PruneKeepsFaith(b, log, machine, window, last, now);
    var pruned := b.(stamps := Prune(b.stamps, now - window));
    var r := AdmitTo(b, window, limit, now, alid);
    var e := Decided(machine, now, false, limit, r.ok, alid);
    if r.ok {
      AdmissionKeepsFaith(pruned, log, e, window);
    } else {
      OtherEntry(pruned, log, e, machine, window, now, now);
      SameStamps(pruned, r.bucket, log + [e], machine, window, now);
    }
  }

  lemma SameStamps(b: Bucket, c: Bucket, log: seq<Entry>, machine: string, window: real, last: real)
    requires Faithful(b, log, machine, window, last) && c.stamps == b.stamps
    ensures Faithful(c, log, machine, window, last)
  {
  }

  ghost predicate AllBy(ops: seq<Op>, t: real) {
    forall i :: 0 <= i < |ops| && ops[i].Admit? ==> ops[i].now <= t
  }

  lemma OtherEntry(b: Bucket, log: seq<Entry>, e: Entry, machine: string, window: real, last: real, now: real)
    requires Faithful(b, log, machine, window, last) && last <= now && !Counts(e, machine)
    ensures Faithful(b, log + [e], machine, window, now)
  {
  }

  /** Every machine's list stays faithful to the whole history of the run. */
  lemma {:induction false} FaithfulOverRuns(cfg: Config, ops: seq<Op>, machine: string, t: real)
    requires ClockMovesForward(ops) && AllBy(ops, t)
    ensures var s := Run(cfg, ops); Faithful(BucketOf(s.buckets, machine), s.log, machine, Window(cfg), t)
  {
    if ops != [] {
      var n := |ops| - 1;
      var s := Run(cfg, ops[..n]);
      var u := Run(cfg, ops);
      var e := u.log[|s.log|];
      var last := if ops[n].Admit? then ops[n].now else t;
      FaithfulOverRuns(cfg, ops[..n], machine, last);
      var b := BucketOf(s.buckets, machine);
      if Counts(e, machine) || (e.Decided? && !e.exempt && e.machine == machine) {
        AdmitDecidesByCounting(b, s.log, machine, Window(cfg), e.limit, last, last, AlidOf(ops[n].alarm));
        SameFaith(BucketOf(u.buckets, machine), u.log, machine, Window(cfg), last, t);
      } else {
        OtherEntry(b, s.log, e, machine, Window(cfg), last, t);
        SameStamps(b, BucketOf(u.buckets, machine), u.log, machine, Window(cfg), t);
      }
    }
  }

  lemma SameFaith(b: Bucket, log: seq<Entry>, machine: string, window: real, last: real, t: real)
    requires Faithful(b, log, machine, window, last) && last <= t
    ensures Faithful(b, log, machine, window, t)
  {
  }

  lemma {:induction false} OneEntryPerOp(cfg: Config, ops: seq<Op>, i: nat)
    requires i <= |ops|
    ensures |Run(cfg, ops).log| == |ops| && Run(cfg, ops).log[..i] == Run(cfg, ops[..i]).log
  {
    if ops == [] {
    } else {
      var n := |ops| - 1;
      if i < |ops| {
        OneEntryPerOp(cfg, ops[..n], i);
        assert ops[..n][..i] == ops[..i];
        assert Run(cfg, ops).log[..n] == Run(cfg, ops[..n]).log;
        assert Run(cfg, ops).log[..i] == Run(cfg, ops[..n]).log[..i];
      } else {
        OneEntryPerOp(cfg, ops[..n], n);
        assert ops[..i] == ops;
      }
    }
  }

  /** The entry an operation appends, seen from the end of the run. */
  lemma EntryAt(cfg: Config, ops: seq<Op>, i: nat)
    requires i < |ops|
    ensures var log := Run(cfg, ops).log;
      var s := Run(cfg, ops[..i]);
      && |log| == |ops| && log[..i] == s.log && |s.log| == i
      && log[i] == Next(s, cfg, ops[i]).log[i]
  {
    hide Next;
    OneEntryPerOp(cfg, ops, i);
    OneEntryPerOp(cfg, ops, i + 1);
    OneEntryPerOp(cfg, ops[..i], i);
    var log := Run(cfg, ops).log;
    assert log[i] == log[..i + 1][i];
    assert ops[..i + 1][..i] == ops[..i];
  }

  lemma NextDecides(s: Sys, cfg: Config, op: Op)
    requires op.Admit? && Faithful(BucketOf(s.buckets, op.machine), s.log, op.machine, Window(cfg), op.now)
    ensures var e := Next(s, cfg, op).log[|s.log|];
      && e.Decided? && e.machine == op.machine && e.now == op.now
      && (e.exempt <==> Exempt(op.alarm))
      && (e.exempt ==> e.admitted)
      && (!e.exempt ==>
            (e.admitted <==> AdmittedSince(s.log, op.machine, op.now - Window(cfg)) < Limit(cfg, op.limit)))
  {
    hide AdmittedSince, Exempt, Limit, Window, AdmitTo, Faithful, AlidOf;
    AdmitDecidesByCounting(BucketOf(s.buckets, op.machine), s.log, op.machine, Window(cfg),
      Limit(cfg, op.limit), op.now, op.now, AlidOf(op.alarm));
  }

  /**
    With a clock that never goes back, the pruned list decides every request exactly
    as counting the machine's non-exempt admissions of the last window would.
   */
  lemma DecidesAsCounting(cfg: Config, ops: seq<Op>, i: nat)
    requires ClockMovesForward(ops) && i < |ops| && ops[i].Admit?
    ensures var log := Run(cfg, ops).log;
      && i < |log| && log[i].Decided? && log[i].machine == ops[i].machine && log[i].now == ops[i].now
      && (log[i].exempt <==> Exempt(ops[i].alarm))
      && (log[i].exempt ==> log[i].admitted)
      && (!log[i].exempt ==>
            (log[i].admitted <==>
              AdmittedSince(log[..i], ops[i].machine, ops[i].now - Window(cfg)) < Limit(cfg, ops[i].limit)))
  {
    hide Run, AdmittedSince, Exempt, Limit, Window, Next, Faithful;
    EntryAt(cfg, ops, i);
    FaithfulOverRuns(cfg, ops[..i], ops[i].machine, ops[i].now);
    hide ClockMovesForward, AllBy;
    NextDecides(Run(cfg, ops[..i]), cfg, ops[i]);
  }

  // ---------- the cap holds for every interval ----------

  lemma {:induction false} WithinIsSince(log: seq<Entry>, machine: string, from: real, earlier: real, to: real)
    requires earlier <= from
    ensures AdmittedWithin(log, machine, from, to) <= AdmittedSince(log, machine, earlier)
  {
    if log != [] {
      WithinIsSince(log[..|log| - 1], machine, from, earlier, to);
    }
  }

  /** The admission at this place found fewer than `cap` in the window before it. */
  ghost predicate HadRoom(log: seq<Entry>, i: nat, machine: string, window: real, cap: nat)
    requires i < |log|
  {
    Counts(log[i], machine) ==> AdmittedSince(log[..i], machine, log[i].now - window) < cap
  }

  lemma {:induction false} RoomCapsWindows(log: seq<Entry>, machine: string, from: real, window: real, cap: nat)
    requires forall i :: 0 <= i < |log| ==> HadRoom(log, i, machine, window, cap)
    ensures AdmittedWithin(log, machine, from, from + window) <= cap
  {
    if log != [] {
      var n := |log| - 1;
      forall i | 0 <= i < n ensures HadRoom(log[..n], i, machine, window, cap) {
        assert HadRoom(log, i, machine, window, cap) && log[..n][..i] == log[..i];
      }
      RoomCapsWindows(log[..n], machine, from, window, cap);
      assert HadRoom(log, n, machine, window, cap);
      var e := log[n];
      if Counts(e, machine) && from <= e.now <= from + window {
        WithinIsSince(log[..n], machine, from, e.now - window, from + window);
      }
    }
  }

  /**
    With a limit never above `cap`, no closed interval as long as the window holds
    more than `cap` non-exempt admissions of one machine.
   */
  lemma NoWindowHoldsMore(cfg: Config, ops: seq<Op>, machine: string, from: real, cap: nat)
    requires ClockMovesForward(ops)
    requires forall i :: 0 <= i < |ops| && ops[i].Admit? && ops[i].machine == machine ==> Limit(cfg, ops[i].limit) <= cap
    ensures AdmittedWithin(Run(cfg, ops).log, machine, from, from + Window(cfg)) <= cap
  {
    var log := Run(cfg, ops).log;
    hide ClockMovesForward, AdmittedSince, Limit, Window, Run, AdmitTo;
    OneEntryPerOp(cfg, ops, 0);
    forall i | 0 <= i < |log| ensures HadRoom(log, i, machine, Window(cfg), cap) {
      if Counts(log[i], machine) {
        EntryAt(cfg, ops, i);
        DecidesAsCounting(cfg, ops, i);
      }
    }
    RoomCapsWindows(log, machine, from, Window(cfg), cap);
  }

  // ---------- every refusal is reported once ----------

  function Refusals(log: seq<Entry>, machine: string): nat {
    if log == [] then 0
    else
      var e := log[|log| - 1];
      Refusals(log[..|log| - 1], machine) + (if e.Decided? && !e.admitted && e.machine == machine then 1 else 0)
  }

  function Reported(log: seq<Entry>, machine: string): nat {
    if log == [] then 0
    else
      var e := log[|log| - 1];
      Reported(log[..|log| - 1], machine)
        + (if e.Drained? && machine in e.reports then e.reports[machine].count else 0)
  }

  function RefusalsOf(log: seq<Entry>, machine: string, alid: string): nat {
    if log == [] then 0
    else
      var e := log[|log| - 1];
      RefusalsOf(log[..|log| - 1], machine, alid)
        + (if e.Decided? && !e.admitted && e.machine == machine && e.alid == Some(alid) then 1 else 0)
  }

  function ReportedOf(log: seq<Entry>, machine: string, alid: string): nat {
    if log == [] then 0
    else
      var e := log[|log| - 1];
      ReportedOf(log[..|log| - 1], machine, alid)
        + (if e.Drained? && machine in e.reports then Tally(e.reports[machine].alids, alid) else 0)
  }

  ghost predicate Conserved(s: Sys, machine: string, alid: string) {
    var b := BucketOf(s.buckets, machine);
    && Refusals(s.log, machine) == Reported(s.log, machine) + b.dropped
    && RefusalsOf(s.log, machine, alid) == ReportedOf(s.log, machine, alid) + Tally(b.byAlid, alid)
    && (b.dropped == 0 ==> b.byAlid == map[])
  }

  lemma LogSnoc(log: seq<Entry>, e: Entry, machine: string, alid: string)
    ensures Refusals(log + [e], machine) == Refusals(log, machine) + Refusals([e], machine)
    ensures Reported(log + [e], machine) == Reported(log, machine) + Reported([e], machine)
    ensures RefusalsOf(log + [e], machine, alid) == RefusalsOf(log, machine, alid) + RefusalsOf([e], machine, alid)
    ensures ReportedOf(log + [e], machine, alid) == ReportedOf(log, machine, alid) + ReportedOf([e], machine, alid)
    ensures Refusals([e], machine) == if e.Decided? && !e.admitted && e.machine == machine then 1 else 0
    ensures Reported([e], machine) == if e.Drained? && machine in e.reports then e.reports[machine].count else 0
    ensures RefusalsOf([e], machine, alid)
      == if e.Decided? && !e.admitted && e.machine == machine && e.alid == Some(alid) then 1 else 0
    ensures ReportedOf([e], machine, alid)
      == if e.Drained? && machine in e.reports then Tally(e.reports[machine].alids, alid) else 0
  {
  }

  lemma AdmitConserves(s: Sys, cfg: Config, op: Op, machine: string, alid: string)
    requires Conserved(s, machine, alid) && op.Admit?
    ensures Conserved(Next(s, cfg, op), machine, alid)
  {
    hide Prune, Exempt, Limit, Window, Refusals, Reported, RefusalsOf, ReportedOf;
    var u := Next(s, cfg, op);
    LogSnoc(s.log, u.log[|s.log|], machine, alid);
    assert u.log == s.log + [u.log[|s.log|]];
  }

  lemma DrainConserves(s: Sys, cfg: Config, machine: string, alid: string)
    requires Conserved(s, machine, alid)
    ensures Conserved(Next(s, cfg, Drain), machine, alid)
  {
    hide Refusals, Reported, RefusalsOf, ReportedOf;
    var u := Next(s, cfg, Drain);
    LogSnoc(s.log, u.log[|s.log|], machine, alid);
    assert u.log == s.log + [u.log[|s.log|]];
  }

  /**
    Refusals are conserved: those drained so far plus those still in the bucket, in
    total and for each alarm id, whatever the clock does.
   */
  lemma {:induction false} RefusalsAreReported(cfg: Config, ops: seq<Op>, machine: string, alid: string)
    ensures Conserved(Run(cfg, ops), machine, alid)
  {
    if ops != [] {
      var n := |ops| - 1;
      RefusalsAreReported(cfg, ops[..n], machine, alid);
      hide Conserved, Next;
      if ops[n].Admit? {
        AdmitConserves(Run(cfg, ops[..n]), cfg, ops[n], machine, alid);
      } else {
        DrainConserves(Run(cfg, ops[..n]), cfg, machine, alid);
      }
    }
  }

  // ---------- the limiter as an object ----------

  /** The drain with some machines done. */
  function DrainSome(buckets: map<string, Bucket>, done: set<string>): map<string, Bucket> {
    map m | m in buckets :: if m in done then Cleared(buckets[m]) else buckets[m]
  }

  function ReportSome(buckets: map<string, Bucket>, done: set<string>): map<string, Report> {
    map m | m in buckets && m in done && buckets[m].dropped > 0 :: Report(buckets[m].dropped, buckets[m].byAlid)
  }

  lemma DrainOneMore(was: map<string, Bucket>, done: set<string>, m: string)
    requires m in was && m !in done
    ensures var b := was[m];
      && m in DrainSome(was, done) && DrainSome(was, done)[m] == b
      && DrainSome(was, done + {m})
          == (if b.dropped > 0 then DrainSome(was, done)[m := b.(dropped := 0, byAlid := map[])] else DrainSome(was, done))
      && ReportSome(was, done + {m})
          == (if b.dropped > 0 then ReportSome(was, done)[m := Report(b.dropped, b.byAlid)] else ReportSome(was, done))
  {
  }

  class AlarmRateLimiter {
    const cfg: Config
    var buckets: map<string, Bucket>

    constructor (cfg: Config)
      ensures this.cfg == cfg && buckets == map[]
    {
      this.cfg := cfg;
      buckets := map[];
    }

    method Admit(machine: string, now: real, alarm: Option<Alarm>, override: Option<int>) returns (ok: bool)
      modifies this
      ensures Exempt(alarm) ==> ok && buckets == old(buckets)
      ensures !Exempt(alarm) ==>
        var r := AdmitTo(BucketOf(old(buckets), machine), Window(cfg), Limit(cfg, override), now, AlidOf(alarm));
        ok == r.ok && buckets == old(buckets)[machine := r.bucket]
    {
      if Exempt(alarm) {
        return true;
      }
      var limit := Limit(cfg, override);
      var b := BucketOf(buckets, machine);
      var stamps := b.stamps;
      var cutoff := now - Window(cfg);
      while stamps != [] && stamps[0] < cutoff
        invariant Prune(stamps, cutoff) == Prune(b.stamps, cutoff)
        decreases |stamps|
      {
        stamps := stamps[1..];
      }
      if |stamps| < limit {
        buckets := buckets[machine := b.(stamps := stamps + [now])];
        return true;
      }
      var byAlid := b.byAlid;
      if alarm.Some? {
        byAlid := byAlid[alarm.value.alid := Tally(byAlid, alarm.value.alid) + 1];
      }
      buckets := buckets[machine := Bucket(stamps, b.dropped + 1, byAlid)];
      return false;
    }

    /** Machines in any order; the caller sees the counts and alarm ids the reports hold. */
    method DrainDropDetails(machines: seq<string>) returns (reports: map<string, Report>)
      requires forall m :: m in machines <==> m in buckets
      requires forall i, j :: 0 <= i < j < |machines| ==> machines[i] != machines[j]
      modifies this
      ensures reports == Reports(old(buckets)) && buckets == DrainBuckets(old(buckets))
    {
      reports := map[];
      ghost var was, done := buckets, {};
      var i := 0;
      while i < |machines|
        invariant i <= |machines|
        invariant forall k :: 0 <= k < |machines| ==> (machines[k] in done <==> k < i)
        invariant buckets == DrainSome(was, done) && reports == ReportSome(was, done)
      {
        DrainOneMore(was, done, machines[i]);
        hide DrainSome, ReportSome, Cleared;
        var m := machines[i];
        var b := buckets[m];
        if b.dropped > 0 {
          reports := reports[m := Report(b.dropped, b.byAlid)];
          buckets := buckets[m := b.(dropped := 0, byAlid := map[])];
        }
        done := done + {m};
        i := i + 1;
      }
      assert forall m :: m in was ==> m in done;
      hide Cleared;
    }
  }
}
