/**
  The publish loops of eap_middleware/linkstuffs_http.py and
  eap_middleware/legacy_api.py over the outbox. One worker fetches partition heads
  and visits them one by one; producers enqueue, retention purges, operators
  requeue dead rows, and the process may be killed between any two steps.
 */
module Publisher {
  import opened Outbox

  /**
    What one publish attempt can come to. `Delivered` is a 2xx answer, `Transient`
    any failure worth retrying (the request may have arrived), `Permanent` a 4xx,
    `Undeliverable` a missing token or a foreign machine, found before sending.
   */
  datatype Outcome = Delivered | Transient | Permanent | Undeliverable

  const DEAD_LETTER_AFTER := 5

  // ---------- one visit ----------

  /** The rows of the table after visiting one item, with one clock reading. */
  function Visit(t: Table, it: Item, outcome: Outcome, now: real): Table {
    match outcome
    case Delivered => MarkSent(t, it.id, now)
    case Permanent =>
      var counted := MarkFailed(t, it.id, now);
      if Attempts(counted.rows, it.id) >= DEAD_LETTER_AFTER then MarkDead(counted, it.id, now) else counted
    case _ => MarkFailed(t, it.id, now)
  }

  /** The batch, oldest head first; a stopped worker leaves the rest unvisited. */
  function VisitAll(t: Table, items: seq<Item>, outcomes: seq<Outcome>, now: real): Table
    requires |outcomes| <= |items|
  {
    if outcomes == [] then t
    else
      var n := |outcomes| - 1;
      Visit(VisitAll(t, items, outcomes[..n], now), items[n], outcomes[n], now)
  }

  // ---------- the worker as steps ----------

  datatype Worker =
    | Idle
    | Visiting(rest: seq<Item>)
    | Answered(item: Item, outcome: Outcome, rest: seq<Item>)
    | Counted(item: Item, rest: seq<Item>)

  datatype Attempt = Attempt(item: Item, outcome: Outcome)

  /** `attempts` is everything the worker ever tried, in order. */
  datatype Sys = Sys(table: Table, worker: Worker, attempts: seq<Attempt>)

  const START := Sys(EMPTY, Idle, [])

  datatype Step =
    | Produce(key: string, partition: string, now: real)
    | Expire(cutoff: real)
    | Revive(limit: nat, now: real)
    | Fetch(limit: nat, now: real)
    | Publish(outcome: Outcome)
    | Mark(now: real)
    | Bury(now: real)
    | Abandon

  /** A step that does not apply in the current state changes nothing. */
  function Next(s: Sys, cap: nat, step: Step): Sys {
    match step
    case Produce(key, partition, now) => s.(table := Enqueue(s.table, cap, key, partition, now).table)
    case Expire(cutoff) => s.(table := PurgeOld(s.table, cutoff))
    case Revive(limit, now) => s.(table := s.table.(rows := Requeue(s.table.rows, limit, now)))
    case Fetch(limit, now) =>
      if s.worker == Idle || s.worker == Visiting([]) then
        s.(worker := Visiting(PendingHeads(s.table, limit, now)))
      else s
    case Publish(outcome) =>
      if s.worker.Visiting? && s.worker.rest != [] then
        var it := s.worker.rest[0];
        s.(worker := Answered(it, outcome, s.worker.rest[1..]), attempts := s.attempts + [Attempt(it, outcome)])
      else s
    case Mark(now) =>
      if s.worker.Answered? then
        var it, rest := s.worker.item, s.worker.rest;
        match s.worker.outcome
        case Delivered => s.(table := MarkSent(s.table, it.id, now), worker := Visiting(rest))
        case Permanent => s.(table := MarkFailed(s.table, it.id, now), worker := Counted(it, rest))
        case _ => s.(table := MarkFailed(s.table, it.id, now), worker := Visiting(rest))
      else s
    case Bury(now) =>
      if s.worker.Counted? then
        var it, rest := s.worker.item, s.worker.rest;
        var t := if Attempts(s.table.rows, it.id) >= DEAD_LETTER_AFTER then MarkDead(s.table, it.id, now) else s.table;
        s.(table := t, worker := Visiting(rest))
      else s
    case Abandon => s.(worker := Idle)
  }

  function Follow(s: Sys, cap: nat, steps: seq<Step>): Sys {
    if steps == [] then s else Next(Follow(s, cap, steps[..|steps| - 1]), cap, steps[|steps| - 1])
  }

  function Run(cap: nat, steps: seq<Step>): Sys {
    Follow(START, cap, steps)
  }

  // ---------- the loop against the step machine ----------

  function StepsOfVisit(outcome: Outcome, now: real): seq<Step> {
    [Publish(outcome), Mark(now)] + (if outcome == Permanent then [Bury(now)] else [])
  }

  function StepsOfBatch(outcomes: seq<Outcome>, now: real): seq<Step> {
    if outcomes == [] then []
    else StepsOfBatch(outcomes[..|outcomes| - 1], now) + StepsOfVisit(outcomes[|outcomes| - 1], now)
  }

  lemma FollowNothing(s: Sys, cap: nat)
    ensures Follow(s, cap, []) == s
  {
  }

  lemma FollowSnoc(s: Sys, cap: nat, xs: seq<Step>, x: Step)
    ensures Follow(s, cap, xs + [x]) == Next(Follow(s, cap, xs), cap, x)
  {
    hide Next;
    assert (xs + [x])[..|xs|] == xs;
  }

  lemma {:induction false} FollowOn(s: Sys, cap: nat, xs: seq<Step>, ys: seq<Step>)
    ensures Follow(s, cap, xs + ys) == Follow(Follow(s, cap, xs), cap, ys)
  {
    hide Next, Follow;
    if ys == [] {
      assert xs + ys == xs;
      FollowNothing(Follow(s, cap, xs), cap);
    } else {
      var n := |ys| - 1;
      FollowOn(s, cap, xs, ys[..n]);
      FollowSnoc(s, cap, xs + ys[..n], ys[n]);
      FollowSnoc(Follow(s, cap, xs), cap, ys[..n], ys[n]);
      assert xs + ys == xs + ys[..n] + [ys[n]] && ys == ys[..n] + [ys[n]];
    }
  }

  lemma VisitIsSteps(s: Sys, cap: nat, outcome: Outcome, now: real)
    requires s.worker.Visiting? && s.worker.rest != []
    ensures var u := Follow(s, cap, StepsOfVisit(outcome, now));
      && u.table == Visit(s.table, s.worker.rest[0], outcome, now)
      && u.worker == Visiting(s.worker.rest[1..])
  {
    hide MarkSent, MarkFailed, MarkDead, Attempts;
    var a := Next(s, cap, Publish(outcome));
    var b := Next(a, cap, Mark(now));
    var steps := StepsOfVisit(outcome, now);
    assert steps[..2][..1] == [Publish(outcome)] && steps[..1][..0] == [];
    assert Follow(s, cap, steps[..1]) == a;
    assert Follow(s, cap, steps[..2]) == b by {
      assert steps[..2][..1] == steps[..1];
    }
    if outcome == Permanent {
      assert Follow(s, cap, steps) == Next(b, cap, Bury(now));
    } else {
      assert steps == steps[..2];
    }
  }

  /** The loop over a batch is a run of the step machine with nothing in between. */
  lemma {:induction false} BatchIsSteps(s: Sys, cap: nat, outcomes: seq<Outcome>, now: real)
    requires s.worker.Visiting? && |outcomes| <= |s.worker.rest|
    ensures var u := Follow(s, cap, StepsOfBatch(outcomes, now));
      && u.table == VisitAll(s.table, s.worker.rest, outcomes, now)
      && u.worker == Visiting(s.worker.rest[|outcomes|..])
  {
    if outcomes != [] {
      var n := |outcomes| - 1;
      BatchIsSteps(s, cap, outcomes[..n], now);
      var m := Follow(s, cap, StepsOfBatch(outcomes[..n], now));
      VisitIsSteps(m, cap, outcomes[n], now);
      FollowOn(s, cap, StepsOfBatch(outcomes[..n], now), StepsOfVisit(outcomes[n], now));
    }
  }

  // ---------- order ----------

  ghost predicate InOrder(attempts: seq<Attempt>) {
    forall i, j :: 0 <= i < j < |attempts| && attempts[i].item.partition == attempts[j].item.partition ==>
      attempts[i].item.id <= attempts[j].item.id
  }

  function InFlight(w: Worker): seq<Item> {
    match w
    case Idle => []
    case Visiting(rest) => rest
    case Answered(it, _, rest) => [it] + rest
    case Counted(it, rest) => [it] + rest
  }

  ghost predicate HeadsInFlight(s: Sys) {
    OnePerPartition(InFlight(s.worker))
    && forall k :: 0 <= k < |InFlight(s.worker)| ==> HeadItem(s.table, InFlight(s.worker)[k])
  }

  ghost predicate NothingSkipped(s: Sys) {
    forall k :: 0 <= k < |s.attempts| ==>
      s.attempts[k].item.id < s.table.next && NoOlderPending(s.table, s.attempts[k].item)
  }

  ghost predicate Fifo(s: Sys) {
    Sorted(s.table) && HeadsInFlight(s) && NothingSkipped(s) && InOrder(s.attempts)
  }

  lemma MarksAreMarked(t: Table, id: nat, now: real)
    ensures Marked(t, MarkSent(t, id, now), id)
    ensures Marked(t, MarkFailed(t, id, now), id)
    ensures Marked(t, MarkDead(t, id, now), id)
  {
  }

  /** A change that neither revives a row nor resolves one in flight keeps the order. */
  lemma TableStepKeepsFifo(s: Sys, u: Table)
    requires Fifo(s) && Sorted(u) && Evolves(s.table, u)
    requires forall k :: 0 <= k < |InFlight(s.worker)| ==> StillPending(u, InFlight(s.worker)[k])
    ensures Fifo(s.(table := u))
  {
  }

  /** Done with the item in hand, the worker still holds heads only. */
  lemma LetGoKeepsFifo(s: Sys, rest: seq<Item>)
    requires Fifo(s) && rest != [] && InFlight(s.worker) == rest
    ensures Fifo(s.(worker := Visiting(rest[1..])))
  {
  }

  /** Marking the item in hand does not touch the rest of the batch. */
  lemma RestStaysPending(t: Table, u: Table, items: seq<Item>)
    requires Sorted(t) && OnePerPartition(items) && items != []
    requires forall k :: 0 <= k < |items| ==> HeadItem(t, items[k])
    requires Marked(t, u, items[0].id)
    ensures forall k :: 0 < k < |items| ==> StillPending(u, items[k])
  {
  }

  lemma MarkKeepsFifo(s: Sys, u: Table)
    requires Fifo(s) && (s.worker.Answered? || s.worker.Counted?)
    requires Marked(s.table, u, s.worker.item.id)
    ensures Fifo(Sys(u, Visiting(s.worker.rest), s.attempts))
  {
    hide Sorted, StillPending, NoOlderPending, Marked, Evolves, NothingSkipped, InOrder;
    var flight := InFlight(s.worker);
    MarkedKeeps(s.table, u, s.worker.item.id, 0);
    RestStaysPending(s.table, u, flight);
    MarkEvolves(s.table, u, s.worker.item.id);
    LetGoKeepsFifo(s, flight);
    assert flight[1..] == s.worker.rest;
    TableStepKeepsFifo(s.(worker := Visiting(s.worker.rest)), u);
  }

  lemma FailedStaysPending(t: Table, id: nat, now: real, it: Item)
    requires StillPending(t, it)
    ensures StillPending(MarkFailed(t, id, now), it)
  {
    hide Backoff;
    var i :| 0 <= i < |t.rows| && ItemAt(t.rows, i) == it && t.rows[i].status == Pending;
    assert ItemAt(MarkFailed(t, id, now).rows, i) == it;
  }

  lemma CountKeepsFifo(s: Sys, now: real)
    requires Fifo(s) && s.worker.Answered?
    ensures Fifo(Sys(MarkFailed(s.table, s.worker.item.id, now), Counted(s.worker.item, s.worker.rest), s.attempts))
  {
    hide Sorted, StillPending, NoOlderPending, InOrder, MarkFailed, Marked, Evolves;
    var id := s.worker.item.id;
    var u := MarkFailed(s.table, id, now);
    forall k | 0 <= k < |InFlight(s.worker)| ensures StillPending(u, InFlight(s.worker)[k]) {
      FailedStaysPending(s.table, id, now, InFlight(s.worker)[k]);
    }
    MarksAreMarked(s.table, id, now);
    MarkEvolves(s.table, u, id);
    MarkedKeeps(s.table, u, id, 0);
    TableStepKeepsFifo(s, u);
  }

  lemma PublishKeepsFifo(s: Sys, cap: nat, outcome: Outcome)
    requires Fifo(s) && s.worker.Visiting? && s.worker.rest != []
    ensures Fifo(Next(s, cap, Publish(outcome)))
  {
    var it := s.worker.rest[0];
    var u := Next(s, cap, Publish(outcome));
    assert InFlight(u.worker) == InFlight(s.worker);
    assert HeadItem(s.table, it) && it.id < s.table.next;
    forall k | 0 <= k < |s.attempts| && s.attempts[k].item.partition == it.partition
      ensures s.attempts[k].item.id <= it.id
    {
      assert NoOlderPending(s.table, s.attempts[k].item);
    }
  }

  lemma TablesKeepFifo(s: Sys, cap: nat, step: Step)
    requires Fifo(s) && Sound(s.table) && (step.Produce? || step.Expire?)
    ensures Fifo(Next(s, cap, step))
  {
    hide Enqueue, PurgeOld, NothingSkipped, InOrder, StillPending, NoOlderPending, UniqueKeys, DeadEarned, Evolves;
    if step.Produce? {
      EnqueueEvolves(s.table, cap, step.key, step.partition, step.now);
      EnqueueKeeps(s.table, cap, step.key, step.partition, step.now);
    } else {
      PurgeEvolves(s.table, step.cutoff);
      PurgeKeeps(s.table, step.cutoff);
    }
    TableStepKeepsFifo(s, Next(s, cap, step).table);
  }

  lemma MarksKeepFifo(s: Sys, cap: nat, step: Step)
    requires Fifo(s) && (step.Mark? || step.Bury?)
    ensures Fifo(Next(s, cap, step))
  {
    hide Fifo, Marked, MarkSent, MarkFailed, MarkDead, Attempts;
    if step.Mark? && s.worker.Answered? {
      MarksAreMarked(s.table, s.worker.item.id, step.now);
      CountKeepsFifo(s, step.now);
      MarkKeepsFifo(s, MarkSent(s.table, s.worker.item.id, step.now));
      MarkKeepsFifo(s, MarkFailed(s.table, s.worker.item.id, step.now));
    }
    if step.Bury? && s.worker.Counted? {
      MarksAreMarked(s.table, s.worker.item.id, step.now);
      NoMark(s.table, s.worker.item.id);
      MarkKeepsFifo(s, s.table);
      MarkKeepsFifo(s, MarkDead(s.table, s.worker.item.id, step.now));
    }
  }

  lemma NoMark(t: Table, id: nat)
    ensures Marked(t, t, id)
  {
  }

  lemma NextKeepsFifo(s: Sys, cap: nat, step: Step)
    requires Fifo(s) && Sound(s.table) && !step.Revive?
    ensures Fifo(Next(s, cap, step))
  {
    match step
    case Produce(_, _, _) => TablesKeepFifo(s, cap, step);
    case Expire(_) => TablesKeepFifo(s, cap, step);
    case Fetch(limit, now) => BatchOfHeads(s.table, limit, now);
    case Publish(outcome) =>
      if s.worker.Visiting? && s.worker.rest != [] {
        PublishKeepsFifo(s, cap, outcome);
      }
    case Mark(_) => MarksKeepFifo(s, cap, step);
    case Bury(_) => MarksKeepFifo(s, cap, step);
    case Abandon =>
  }

  // ---------- accounting ----------

  function Failures(attempts: seq<Attempt>, id: nat): nat {
    if attempts == [] then 0
    else
      var a := attempts[|attempts| - 1];
      Failures(attempts[..|attempts| - 1], id) + (if a.item.id == id && a.outcome != Delivered then 1 else 0)
  }

  predicate Tried(attempts: seq<Attempt>, id: nat, outcome: Outcome) {
    exists k :: 0 <= k < |attempts| && attempts[k].item.id == id && attempts[k].outcome == outcome
  }

  /** A failure observed but not yet counted in the table. */
  function Owed(w: Worker, id: nat): nat {
    if w.Answered? && w.item.id == id && w.outcome != Delivered then 1 else 0
  }

  /** Every count and every verdict on a row was earned by attempts on that row. */
  predicate Justified(attempts: seq<Attempt>, w: Worker, r: Row) {
    && r.attempts + Owed(w, r.id) <= Failures(attempts, r.id)
    && (r.status == Sent ==> Tried(attempts, r.id, Delivered))
    && (r.status == Dead ==> Tried(attempts, r.id, Permanent))
  }

  predicate HandLogged(s: Sys) {
    && (s.worker.Answered? ==>
          s.attempts != [] && s.attempts[|s.attempts| - 1] == Attempt(s.worker.item, s.worker.outcome))
    && (s.worker.Counted? ==> Tried(s.attempts, s.worker.item.id, Permanent))
  }

  ghost predicate Accounted(s: Sys) {
    && Sound(s.table)
    && HandLogged(s)
    && forall i :: 0 <= i < |s.table.rows| ==> Justified(s.attempts, s.worker, s.table.rows[i])
  }

  lemma TriedSnoc(attempts: seq<Attempt>, a: Attempt, id: nat, outcome: Outcome)
    requires Tried(attempts, id, outcome) || (a.item.id == id && a.outcome == outcome)
    ensures Tried(attempts + [a], id, outcome)
  {
    if Tried(attempts, id, outcome) {
      var k :| 0 <= k < |attempts| && attempts[k].item.id == id && attempts[k].outcome == outcome;
      assert (attempts + [a])[k] == attempts[k];
    } else {
      assert (attempts + [a])[|attempts|] == a;
    }
  }

  lemma PublishAccounts(s: Sys, cap: nat, outcome: Outcome)
    requires Accounted(s) && s.worker.Visiting? && s.worker.rest != []
    ensures Accounted(Next(s, cap, Publish(outcome)))
  {
    hide Sound, Tried;
    var u := Next(s, cap, Publish(outcome));
    var a := Attempt(s.worker.rest[0], outcome);
    assert u.attempts[..|s.attempts|] == s.attempts;
    forall i | 0 <= i < |u.table.rows| ensures Justified(u.attempts, u.worker, u.table.rows[i]) {
      var r := s.table.rows[i];
      assert Justified(s.attempts, s.worker, r);
      if r.status == Sent {
        TriedSnoc(s.attempts, a, r.id, Delivered);
      }
      if r.status == Dead {
        TriedSnoc(s.attempts, a, r.id, Permanent);
      }
    }
  }

  lemma MarkedSound(t: Table, u: Table, id: nat)
    requires Sound(t) && Marked(t, u, id)
    requires forall i :: 0 <= i < |u.rows| && u.rows[i].id == id && u.rows[i].status == Dead ==> u.rows[i].attempts >= 5
    ensures Sound(u)
  {
  }

  lemma MarkAccounts(s: Sys, cap: nat, now: real)
    requires Accounted(s) && s.worker.Answered?
    ensures Accounted(Next(s, cap, Mark(now)))
  {
    var it := s.worker.item;
    MarksAreMarked(s.table, it.id, now);
    MarkedSound(s.table, MarkSent(s.table, it.id, now), it.id);
    MarkedSound(s.table, MarkFailed(s.table, it.id, now), it.id);
    hide Sound, Failures, Marked;
    assert s.attempts[|s.attempts| - 1] == Attempt(it, s.worker.outcome);
    forall i | 0 <= i < |s.table.rows| ensures Justified(s.attempts, s.worker, s.table.rows[i]) {
    }
  }

  lemma BuryAccounts(s: Sys, cap: nat, now: real)
    requires Accounted(s) && s.worker.Counted?
    ensures Accounted(Next(s, cap, Bury(now)))
  {
    var it := s.worker.item;
    if Attempts(s.table.rows, it.id) >= DEAD_LETTER_AFTER {
      var u := MarkDead(s.table, it.id, now);
      MarksAreMarked(s.table, it.id, now);
      forall i | 0 <= i < |u.rows| && u.rows[i].id == it.id ensures u.rows[i].attempts >= 5 {
        AttemptsOf(s.table.rows, i);
      }
      MarkedSound(s.table, u, it.id);
      hide Sound, Failures, Marked, Attempts, Tried;
      forall i | 0 <= i < |u.rows| ensures Justified(s.attempts, Visiting(s.worker.rest), u.rows[i]) {
        assert Justified(s.attempts, s.worker, s.table.rows[i]);
      }
    }
  }

  lemma ProduceAccounts(s: Sys, cap: nat, key: string, partition: string, now: real)
    requires Accounted(s)
    ensures Accounted(Next(s, cap, Produce(key, partition, now)))
  {
  }

  lemma ExpireAccounts(s: Sys, cap: nat, cutoff: real)
    requires Accounted(s)
    ensures Accounted(Next(s, cap, Expire(cutoff)))
  {
    hide Failures, Tried, Sound, Expired, PurgeOld, Justified;
    PurgeKeeps(s.table, cutoff);
    var u := PurgeOld(s.table, cutoff);
    forall i | 0 <= i < |u.rows| ensures Justified(s.attempts, s.worker, u.rows[i]) {
      assert u.rows[i] in u.rows;
    }
  }

  lemma ReviveAccounts(s: Sys, cap: nat, limit: nat, now: real)
    requires Accounted(s)
    ensures Accounted(Next(s, cap, Revive(limit, now)))
  {
    RequeueRows(s.table.rows, limit, now);
    var u := s.table.(rows := Requeue(s.table.rows, limit, now));
    hide Failures, Tried, Requeue;
    forall i | 0 <= i < |u.rows| ensures Justified(s.attempts, s.worker, u.rows[i]) {
      assert Justified(s.attempts, s.worker, s.table.rows[i]);
    }
  }

  lemma NextAccounts(s: Sys, cap: nat, step: Step)
    requires Accounted(s)
    ensures Accounted(Next(s, cap, step))
  {
    hide Sound;
    match step
    case Publish(outcome) =>
      if s.worker.Visiting? && s.worker.rest != [] {
        PublishAccounts(s, cap, outcome);
      }
    case Mark(now) =>
      if s.worker.Answered? {
        MarkAccounts(s, cap, now);
      }
    case Bury(now) =>
      if s.worker.Counted? {
        BuryAccounts(s, cap, now);
      }
    case Fetch(_, _) =>
    case Abandon =>
    case Produce(key, partition, now) => ProduceAccounts(s, cap, key, partition, now);
    case Expire(cutoff) => ExpireAccounts(s, cap, cutoff);
    case Revive(limit, now) => ReviveAccounts(s, cap, limit, now);
  }

  // ---------- over whole runs ----------

  /**
    In every run, crashes, retention and requeueing included: ids ascend, keys are
    unique, a dead row was refused for good at least once and failed at least five
    times, and a sent row was delivered.
   */
  lemma {:induction false} AccountingOverRuns(cap: nat, steps: seq<Step>)
    ensures var s := Run(cap, steps);
      && Accounted(s)
      && forall i :: 0 <= i < |s.table.rows| ==>
          var r := s.table.rows[i];
          && (r.status == Sent ==> Tried(s.attempts, r.id, Delivered))
          && (r.status == Dead ==> Tried(s.attempts, r.id, Permanent) && Failures(s.attempts, r.id) >= 5)
  {
    if steps != [] {
      AccountingOverRuns(cap, steps[..|steps| - 1]);
      NextAccounts(Run(cap, steps[..|steps| - 1]), cap, steps[|steps| - 1]);
    }
    var s := Run(cap, steps);
    hide Run, Failures, Tried;
    forall i | 0 <= i < |s.table.rows| ensures Justified(s.attempts, s.worker, s.table.rows[i]) {
    }
  }

  predicate NeverRevives(steps: seq<Step>) {
    forall i :: 0 <= i < |steps| ==> !steps[i].Revive?
  }

  /**
    Without requeueing, each partition is published first-in first-out: attempts have
    nondecreasing ids, and once a row has been attempted every older row of its
    partition still in the table is sent or dead, for good.
   */
  lemma {:induction false} FifoOverRuns(cap: nat, steps: seq<Step>)
    requires NeverRevives(steps)
    ensures var s := Run(cap, steps); Fifo(s)
  {
    if steps != [] {
      FifoOverRuns(cap, steps[..|steps| - 1]);
      AccountingOverRuns(cap, steps[..|steps| - 1]);
      hide Fifo, Sound;
      assert Accounted(Run(cap, steps[..|steps| - 1]));
      NextKeepsFifo(Run(cap, steps[..|steps| - 1]), cap, steps[|steps| - 1]);
    }
  }

  /** Without requeueing no partition ever holds more pending rows than the cap. */
  lemma {:induction false} CapOverRuns(cap: nat, steps: seq<Step>)
    requires NeverRevives(steps)
    ensures WithinCap(Run(cap, steps).table, cap)
  {
    if steps != [] {
      var s := Run(cap, steps[..|steps| - 1]);
      CapOverRuns(cap, steps[..|steps| - 1]);
      hide WithinCap, MarkSent, MarkFailed, MarkDead, Enqueue, PurgeOld;
      match steps[|steps| - 1]
      case Produce(key, partition, now) => EnqueueBounds(s.table, cap, key, partition, now);
      case Expire(cutoff) => PurgeBounds(s.table, cutoff, cap);
      case Mark(now) =>
        if s.worker.Answered? {
          MarksAreMarked(s.table, s.worker.item.id, now);
          MarkedKeeps(s.table, MarkSent(s.table, s.worker.item.id, now), s.worker.item.id, cap);
          MarkedKeeps(s.table, MarkFailed(s.table, s.worker.item.id, now), s.worker.item.id, cap);
        }
      case Bury(now) =>
        if s.worker.Counted? {
          MarksAreMarked(s.table, s.worker.item.id, now);
          MarkedKeeps(s.table, MarkDead(s.table, s.worker.item.id, now), s.worker.item.id, cap);
        }
      case _ =>
    }
  }

  ghost predicate Present(t: Table, r: Row) {
    exists i :: 0 <= i < |t.rows| && t.rows[i].id == r.id && t.rows[i].key == r.key && t.rows[i].partition == r.partition
  }

  /** No step ever deletes a pending row. */
  lemma PendingIsNeverDeleted(s: Sys, cap: nat, step: Step, i: nat)
    requires Accounted(s) && i < |s.table.rows| && s.table.rows[i].status == Pending
    ensures Present(Next(s, cap, step).table, s.table.rows[i])
  {
    var r := s.table.rows[i];
    var u := Next(s, cap, step).table;
    match step
    case Expire(cutoff) =>
      PurgeKeeps(s.table, cutoff);
      assert r in u.rows;
    case Revive(limit, now) =>
      RequeueRows(s.table.rows, limit, now);
      assert u.rows[i].id == r.id;
    case _ =>
      assert u.rows[i].id == r.id;
  }

  // ---------- dead letters ----------

  /** The row with this position after one visit; nothing else in the table moves. */
  lemma VisitRow(t: Table, i: nat, outcome: Outcome, now: real)
    requires Sorted(t) && i < |t.rows|
    ensures var u := Visit(t, ItemAt(t.rows, i), outcome, now);
      var r := t.rows[i];
      && Marked(t, u, r.id) && Sorted(u)
      && (r.status == Pending ==>
            (u.rows[i].status == Dead <==> outcome == Permanent && r.attempts + 1 >= DEAD_LETTER_AFTER))
      && (r.status == Pending ==> (u.rows[i].status == Sent <==> outcome == Delivered))
      && (outcome != Delivered ==> u.rows[i].attempts == r.attempts + 1)
      && (outcome != Delivered && r.status == Dead ==> u.rows[i].status == Dead)
  {
    var counted := MarkFailed(t, t.rows[i].id, now);
    assert Sorted(counted);
    AttemptsOf(counted.rows, i);
  }

  /** The same item visited again and again, once per outcome. */
  function Visits(t: Table, it: Item, outcomes: seq<Outcome>, now: real): (u: Table)
    ensures |u.rows| == |t.rows|
  {
    if outcomes == [] then t
    else Visit(Visits(t, it, outcomes[..|outcomes| - 1], now), it, outcomes[|outcomes| - 1], now)
  }

  predicate Buries(attempts: nat, outcomes: seq<Outcome>, k: nat)
    requires k < |outcomes|
  {
    outcomes[k] == Permanent && attempts + k + 1 >= DEAD_LETTER_AFTER
  }

  /**
    A pending row that is never delivered is dead-lettered by exactly those visits
    that fail for good once the count of all failures, of every kind, has reached five.
   */
  lemma {:induction false} DeadExactlyWhen(t: Table, i: nat, outcomes: seq<Outcome>, now: real)
    requires Sorted(t) && i < |t.rows| && t.rows[i].status == Pending
    requires forall k :: 0 <= k < |outcomes| ==> outcomes[k] != Delivered
    ensures var u := Visits(t, ItemAt(t.rows, i), outcomes, now);
      && u.next == t.next && |u.rows| == |t.rows| && Sorted(u) && ItemAt(u.rows, i) == ItemAt(t.rows, i)
      && u.rows[i].attempts == t.rows[i].attempts + |outcomes|
      && (u.rows[i].status == Pending || u.rows[i].status == Dead)
      && (u.rows[i].status == Dead <==>
            exists k :: 0 <= k < |outcomes| && Buries(t.rows[i].attempts, outcomes, k))
  {
    hide Visit, Sorted;
    if outcomes != [] {
      var n := |outcomes| - 1;
      var before := outcomes[..n];
      DeadExactlyWhen(t, i, before, now);
      var u := Visits(t, ItemAt(t.rows, i), before, now);
      VisitRow(u, i, outcomes[n], now);
      var a := t.rows[i].attempts;
      assert forall k :: 0 <= k < n ==> (Buries(a, before, k) <==> Buries(a, outcomes, k));
      assert Buries(a, outcomes, n) <==> outcomes[n] == Permanent && u.rows[i].attempts + 1 >= DEAD_LETTER_AFTER;
    }
  }

  /** A head that only ever fails for good is dead-lettered at the fifth visit at the latest. */
  lemma PermanentFailureLeavesInFive(t: Table, i: nat, outcomes: seq<Outcome>, now: real)
    requires Sorted(t) && i < |t.rows| && t.rows[i].status == Pending
    requires |outcomes| >= 5 && forall k :: 0 <= k < |outcomes| ==> outcomes[k] == Permanent
    ensures Visits(t, ItemAt(t.rows, i), outcomes, now).rows[i].status == Dead
  {
    DeadExactlyWhen(t, i, outcomes, now);
    assert Buries(t.rows[i].attempts, outcomes, 4);
  }

  /**
    The source's comment asks for five consecutive permanent failures. The code counts
    failures of any kind: four outages followed by one permanent answer are enough.
   */
  lemma OnePermanentFailureCanBeEnough(t: Table, i: nat, now: real)
    requires Sorted(t) && i < |t.rows| && t.rows[i].status == Pending && t.rows[i].attempts == 0
    ensures var outcomes := [Transient, Transient, Transient, Transient, Permanent];
      Visits(t, ItemAt(t.rows, i), outcomes, now).rows[i].status == Dead
  {
    var outcomes := [Transient, Transient, Transient, Transient, Permanent];
    DeadExactlyWhen(t, i, outcomes, now);
    assert Buries(0, outcomes, 4);
  }

  /**
    Requeued by an operator, a dead row keeps its count, so a single further permanent
    failure dead-letters it again.
   */
  lemma RequeuedRowHasOneChance(s: Sys, i: nat, limit: nat, now: real)
    requires Accounted(s) && i < |s.table.rows| && s.table.rows[i].status == Dead
    requires Requeue(s.table.rows, limit, now)[i].status == Pending
    ensures var t := s.table.(rows := Requeue(s.table.rows, limit, now));
      Visit(t, ItemAt(t.rows, i), Permanent, now).rows[i].status == Dead
  {
    RequeueRows(s.table.rows, limit, now);
    var t := s.table.(rows := Requeue(s.table.rows, limit, now));
    hide Requeue;
    assert Sorted(t);
    VisitRow(t, i, Permanent, now);
  }

  /** When a head is resolved, the next pending row of its partition becomes the head. */
  lemma NextHeadAdvances(t: Table, i: nat, j: nat, outcome: Outcome, now: real)
    requires Sorted(t) && i < j < |t.rows| && IsHead(t.rows, i)
    requires t.rows[j].partition == t.rows[i].partition && t.rows[j].status == Pending
    requires forall k :: i < k < j && t.rows[k].partition == t.rows[i].partition ==> t.rows[k].status != Pending
    ensures var u := Visit(t, ItemAt(t.rows, i), outcome, now);
      IsHead(u.rows, j) <==> outcome == Delivered || (outcome == Permanent && t.rows[i].attempts + 1 >= DEAD_LETTER_AFTER)
  {
    hide Visit;
    VisitRow(t, i, outcome, now);
    var u := Visit(t, ItemAt(t.rows, i), outcome, now);
    assert u.rows[i].partition == u.rows[j].partition;
    assert u.rows[j] == t.rows[j];
  }

  // ---------- the loop over one batch ----------

  /** `_publish_loop` over the heads of one fetch, with the outcomes its requests met. */
  method PublishBatch(outbox: SQLiteOutbox, limit: nat, outcomes: seq<Outcome>, now: real) returns (items: seq<Item>)
    requires Sorted(outbox.Abs()) && |outcomes| <= |PendingHeads(outbox.Abs(), limit, now)|
    modifies outbox`rows
    ensures items == PendingHeads(old(outbox.Abs()), limit, now)
    ensures outbox.Abs() == VisitAll(old(outbox.Abs()), items, outcomes, now)
  {
    items := outbox.Heads(limit, now);
    ghost var t := outbox.Abs();
    var i := 0;
    while i < |outcomes|
      invariant i <= |outcomes|
      invariant outbox.Abs() == VisitAll(t, items, outcomes[..i], now)
    {
      var it := items[i];
      assert outcomes[..i + 1][..i] == outcomes[..i];
      match outcomes[i] {
        case Permanent =>
          outbox.Failed(it.id, now);
          var attempts := outbox.AttemptsOfItem(it.id);
          if attempts >= DEAD_LETTER_AFTER {
            outbox.DeadLetter(it.id, now);
          }
        case Undeliverable =>
          outbox.Failed(it.id, now);
        case Delivered =>
          outbox.Sent(it.id, now);
        case Transient =>
          outbox.Failed(it.id, now);
      }
      i := i + 1;
    }
    assert outcomes[..|outcomes|] == outcomes;
  }
}
