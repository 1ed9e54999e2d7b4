/**
  The network-mirror queue of eap_middleware/journal.py and its copy workers: tasks
  recorded once per file, claimed under a lease, retried with backoff, and workers
  that may die at any point.
 */
module MirrorQueue {
  import opened Powers

  datatype Copy = Copy(source: string, destination: string)

  datatype Task = Task(id: nat, copy: Copy, attempts: nat, nextAt: real, leasedUntil: real)

  /** A task in a worker's hands, with the end of the lease it was claimed under. */
  datatype Claim = Claim(worker: nat, id: nat, until: real)

  /** `made` are the copies that reached their destination, `abandoned` those whose source was gone. */
  datatype Sys = Sys(tasks: seq<Task>, next: nat, held: seq<Claim>, made: set<Copy>, abandoned: set<Copy>)

  const START := Sys([], 1, [], {}, {})

  const BACKOFF_BASE := 5
  const BACKOFF_MAX := 300

  /** `Take` offers a worker the tasks it selected; it gets those that are due and free. */
  datatype Step =
    | Record(copy: Copy)
    | Take(worker: nat, ids: seq<nat>, now: real, lease: real)
    | Finish(k: nat)
    | Abandon(k: nat)
    | Fail(k: nat, now: real)
    | Die(worker: nat)

  predicate Recorded(tasks: seq<Task>, copy: Copy) {
    exists i :: 0 <= i < |tasks| && tasks[i].copy == copy
  }

  predicate Due(t: Task, now: real) {
    t.nextAt <= now && t.leasedUntil <= now
  }

  function Leased(tasks: seq<Task>, ids: seq<nat>, now: real, until: real): seq<Task> {
    seq(|tasks|, i requires 0 <= i < |tasks| =>
      if tasks[i].id in ids && Due(tasks[i], now) then tasks[i].(leasedUntil := until) else tasks[i])
  }

  function Claims(tasks: seq<Task>, worker: nat, ids: seq<nat>, now: real, until: real): seq<Claim> {
    if tasks == [] then []
    else
      var t := tasks[|tasks| - 1];
      Claims(tasks[..|tasks| - 1], worker, ids, now, until)
        + (if t.id in ids && Due(t, now) then [Claim(worker, t.id, until)] else [])
  }

  /** Seconds until the next attempt, after this many failures. */
  function Backoff(attempts: nat): nat
    requires attempts >= 1
  {
    var delay := BACKOFF_BASE * Pow2(if attempts - 1 <= 16 then attempts - 1 else 16);
    if delay <= BACKOFF_MAX then delay else BACKOFF_MAX
  }

  function Failed(tasks: seq<Task>, id: nat, now: real): seq<Task> {
    seq(|tasks|, i requires 0 <= i < |tasks| =>
      if tasks[i].id == id then
        tasks[i].(attempts := tasks[i].attempts + 1, nextAt := now + Backoff(tasks[i].attempts + 1) as real,
                  leasedUntil := 0.0)
      else tasks[i])
  }

  function Deleted(tasks: seq<Task>, id: nat): seq<Task> {
    if tasks == [] then []
    else Deleted(tasks[..|tasks| - 1], id) + (if tasks[|tasks| - 1].id == id then [] else [tasks[|tasks| - 1]])
  }

  function Copies(tasks: seq<Task>, id: nat): set<Copy> {
    set t | t in tasks && t.id == id :: t.copy
  }

  function LetGo(held: seq<Claim>, k: nat): seq<Claim>
    requires k < |held|
  {
    held[..k] + held[k + 1..]
  }

  function Without(held: seq<Claim>, worker: nat): seq<Claim> {
    if held == [] then []
    else
      Without(held[..|held| - 1], worker)
        + (if held[|held| - 1].worker == worker then [] else [held[|held| - 1]])
  }

  function Next(s: Sys, step: Step): Sys {
    match step
    case Record(copy) =>
      if Recorded(s.tasks, copy) then s
      else s.(tasks := s.tasks + [Task(s.next, copy, 0, 0.0, 0.0)], next := s.next + 1)
    case Take(worker, ids, now, lease) =>
      s.(tasks := Leased(s.tasks, ids, now, now + lease),
         held := s.held + Claims(s.tasks, worker, ids, now, now + lease))
    case Finish(k) =>
      if k < |s.held| then
        var id := s.held[k].id;
        s.(tasks := Deleted(s.tasks, id), held := LetGo(s.held, k), made := s.made + Copies(s.tasks, id))
      else s
    case Abandon(k) =>
      if k < |s.held| then
        var id := s.held[k].id;
        s.(tasks := Deleted(s.tasks, id), held := LetGo(s.held, k), abandoned := s.abandoned + Copies(s.tasks, id))
      else s
    case Fail(k, now) =>
      if k < |s.held| then
        s.(tasks := Failed(s.tasks, s.held[k].id, now), held := LetGo(s.held, k))
      else s
    case Die(worker) => s.(held := Without(s.held, worker))
  }

  function Run(steps: seq<Step>): Sys {
    if steps == [] then START else Next(Run(steps[..|steps| - 1]), steps[|steps| - 1])
  }

  // ---------- one worker at a time ----------

  /** The copy has outlived its lease when its task, due for another attempt, is offered again. */
  predicate Outlived(s: Sys, c: Claim, ids: seq<nat>, now: real) {
    && c.id in ids && c.until <= now
    && exists i :: 0 <= i < |s.tasks| && s.tasks[i].id == c.id && s.tasks[i].nextAt <= now
  }

  /** No task is offered while a copy of it that has outlived its lease is in a worker's hands. */
  ghost predicate InTime(s: Sys, step: Step) {
    step.Take? ==> forall k :: 0 <= k < |s.held| ==> !Outlived(s, s.held[k], step.ids, step.now)
  }

  ghost predicate AllInTime(steps: seq<Step>) {
    forall i :: 0 <= i < |steps| ==> InTime(Run(steps[..i]), steps[i])
  }

  ghost predicate IdsAscend(s: Sys) {
    && (forall i :: 0 <= i < |s.tasks| ==> s.tasks[i].id < s.next)
    && TasksAscend(s.tasks)
  }

  ghost predicate TasksAscend(tasks: seq<Task>) {
    forall i, j :: 0 <= i < j < |tasks| ==> tasks[i].id < tasks[j].id
  }

  predicate Backed(tasks: seq<Task>, c: Claim) {
    exists i :: 0 <= i < |tasks| && tasks[i].id == c.id && tasks[i].leasedUntil == c.until
  }

  /** Every held task is in the queue under the lease it was claimed with, in one pair of hands. */
  ghost predicate Exclusive(s: Sys) {
    && IdsAscend(s)
    && (forall k :: 0 <= k < |s.held| ==> Backed(s.tasks, s.held[k]))
    && DistinctIds(s.held)
  }

  ghost predicate DistinctIds(held: seq<Claim>) {
    forall k, l :: 0 <= k < l < |held| ==> held[k].id != held[l].id
  }

  lemma {:induction false} ClaimsAreDue(tasks: seq<Task>, worker: nat, ids: seq<nat>, now: real, until: real, c: Claim)
    ensures c in Claims(tasks, worker, ids, now, until) <==>
      exists i :: 0 <= i < |tasks| && tasks[i].id in ids && Due(tasks[i], now) && c == Claim(worker, tasks[i].id, until)
  {
    hide Due;
    if tasks != [] {
      ClaimsAreDue(tasks[..|tasks| - 1], worker, ids, now, until, c);
    }
  }

  ghost predicate InIdOrder(cs: seq<Claim>) {
    forall k, l :: 0 <= k < l < |cs| ==> cs[k].id < cs[l].id
  }

  lemma {:induction false} ClaimsAscend(tasks: seq<Task>, worker: nat, ids: seq<nat>, now: real, until: real)
    requires TasksAscend(tasks)
    ensures InIdOrder(Claims(tasks, worker, ids, now, until))
  {
    if tasks != [] {
      var n := |tasks| - 1;
      ClaimsAscend(tasks[..n], worker, ids, now, until);
      var cs := Claims(tasks[..n], worker, ids, now, until);
      forall k | 0 <= k < |cs| ensures cs[k].id < tasks[n].id {
        ClaimsAreDue(tasks[..n], worker, ids, now, until, cs[k]);
      }
    }
  }

  lemma {:induction false} DeletedTasks(tasks: seq<Task>, id: nat, t: Task)
    ensures t in Deleted(tasks, id) <==> t in tasks && t.id != id
  {
    if tasks != [] {
      DeletedTasks(tasks[..|tasks| - 1], id, t);
      assert tasks == tasks[..|tasks| - 1] + [tasks[|tasks| - 1]];
    }
  }

  lemma {:induction false} DeletedAscend(tasks: seq<Task>, id: nat)
    requires TasksAscend(tasks)
    ensures TasksAscend(Deleted(tasks, id))
  {
    if tasks != [] {
      var n := |tasks| - 1;
      DeletedAscend(tasks[..n], id);
      var d := Deleted(tasks[..n], id);
      forall i | 0 <= i < |d| ensures d[i].id < tasks[n].id {
        DeletedTasks(tasks[..n], id, d[i]);
      }
    }
  }

  lemma {:induction false} WithoutClaims(held: seq<Claim>, worker: nat, c: Claim)
    ensures c in Without(held, worker) <==> c in held && c.worker != worker
  {
    if held != [] {
      WithoutClaims(held[..|held| - 1], worker, c);
      assert held == held[..|held| - 1] + [held[|held| - 1]];
    }
  }

  lemma {:induction false} WithoutDistinct(held: seq<Claim>, worker: nat)
    requires DistinctIds(held)
    ensures DistinctIds(Without(held, worker))
  {
    if held != [] {
      var n := |held| - 1;
      WithoutDistinct(held[..n], worker);
      var w := Without(held[..n], worker);
      forall k | 0 <= k < |w| ensures w[k].id != held[n].id {
        WithoutClaims(held[..n], worker, w[k]);
      }
    }
  }

  /** A task in a worker's hands is not due while its lease runs, so it stays under that lease. */
  lemma HeldStaysBacked(s: Sys, ids: seq<nat>, now: real, until: real, c: Claim)
    requires Backed(s.tasks, c) && !Outlived(s, c, ids, now)
    ensures Backed(Leased(s.tasks, ids, now, until), c)
  {
    var i :| 0 <= i < |s.tasks| && s.tasks[i].id == c.id && s.tasks[i].leasedUntil == c.until;
    assert Leased(s.tasks, ids, now, until)[i] == s.tasks[i];
  }

  lemma TakenIsBacked(tasks: seq<Task>, worker: nat, ids: seq<nat>, now: real, until: real, c: Claim)
    requires c in Claims(tasks, worker, ids, now, until)
    ensures Backed(Leased(tasks, ids, now, until), c)
  {
    ClaimsAreDue(tasks, worker, ids, now, until, c);
    var i :| 0 <= i < |tasks| && tasks[i].id in ids && Due(tasks[i], now) && c == Claim(worker, tasks[i].id, until);
    assert Leased(tasks, ids, now, until)[i].leasedUntil == until;
  }

  lemma HeldIsNotTaken(s: Sys, worker: nat, ids: seq<nat>, now: real, until: real, h: Claim, c: Claim)
    requires IdsAscend(s) && Backed(s.tasks, h) && !Outlived(s, h, ids, now)
    requires c in Claims(s.tasks, worker, ids, now, until)
    ensures h.id != c.id
  {
    ClaimsAreDue(s.tasks, worker, ids, now, until, c);
  }

  lemma TakeExclusive(s: Sys, step: Step)
    requires Exclusive(s) && step.Take? && InTime(s, step)
    ensures Exclusive(Next(s, step))
  {
    var u := Next(s, step);
    var until := step.now + step.lease;
    var taken := Claims(s.tasks, step.worker, step.ids, step.now, until);
    ClaimsAscend(s.tasks, step.worker, step.ids, step.now, until);
    assert IdsAscend(u);
    hide Claims, Backed, Leased, IdsAscend, Outlived;
    forall k | 0 <= k < |u.held| ensures Backed(u.tasks, u.held[k]) {
      if k < |s.held| {
        HeldStaysBacked(s, step.ids, step.now, until, s.held[k]);
      } else {
        TakenIsBacked(s.tasks, step.worker, step.ids, step.now, until, taken[k - |s.held|]);
      }
    }
    forall k, l | 0 <= k < |s.held| && 0 <= l < |taken| ensures s.held[k].id != taken[l].id {
      HeldIsNotTaken(s, step.worker, step.ids, step.now, until, s.held[k], taken[l]);
    }
  }

  lemma DoneExclusive(s: Sys, k: nat, u: Sys)
    requires Exclusive(s) && k < |s.held|
    requires u.next == s.next && u.held == LetGo(s.held, k) && u.tasks == Deleted(s.tasks, s.held[k].id)
    ensures Exclusive(u)
  {
    DeletedAscend(s.tasks, s.held[k].id);
    forall i | 0 <= i < |u.tasks| ensures u.tasks[i].id < s.next {
      DeletedTasks(s.tasks, s.held[k].id, u.tasks[i]);
    }
    forall l | 0 <= l < |u.held| ensures Backed(u.tasks, u.held[l]) {
      assert Backed(s.tasks, u.held[l]);
      var i :| 0 <= i < |s.tasks| && s.tasks[i].id == u.held[l].id && s.tasks[i].leasedUntil == u.held[l].until;
      DeletedTasks(s.tasks, s.held[k].id, s.tasks[i]);
    }
  }

  lemma FailExclusive(s: Sys, k: nat, now: real)
    requires Exclusive(s) && k < |s.held|
    ensures Exclusive(Next(s, Fail(k, now)))
  {
    hide Backoff;
    var u := Next(s, Fail(k, now));
    forall l | 0 <= l < |u.held| ensures Backed(u.tasks, u.held[l]) {
      assert Backed(s.tasks, u.held[l]);
      var i :| 0 <= i < |s.tasks| && s.tasks[i].id == u.held[l].id && s.tasks[i].leasedUntil == u.held[l].until;
      assert u.tasks[i] == s.tasks[i];
    }
  }

  lemma NextExclusive(s: Sys, step: Step)
    requires Exclusive(s) && InTime(s, step)
    ensures Exclusive(Next(s, step))
  {
    hide Backed, Deleted;
    match step
    case Record(copy) =>
      var u := Next(s, step);
      forall k | 0 <= k < |s.held| ensures Backed(u.tasks, u.held[k]) {
        RecordBacks(s, copy, s.held[k]);
      }
    case Take(_, _, _, _) => TakeExclusive(s, step);
    case Finish(k) =>
      if k < |s.held| {
        DoneExclusive(s, k, Next(s, step));
      }
    case Abandon(k) =>
      if k < |s.held| {
        DoneExclusive(s, k, Next(s, step));
      }
    case Fail(k, now) =>
      if k < |s.held| {
        FailExclusive(s, k, now);
      }
    case Die(worker) =>
      WithoutDistinct(s.held, worker);
      var u := Next(s, step);
      forall k | 0 <= k < |u.held| ensures Backed(u.tasks, u.held[k]) {
        WithoutClaims(s.held, worker, u.held[k]);
      }
  }

  lemma RecordBacks(s: Sys, copy: Copy, c: Claim)
    requires Backed(s.tasks, c)
    ensures Backed(Next(s, Record(copy)).tasks, c)
  {
    var i :| 0 <= i < |s.tasks| && s.tasks[i].id == c.id && s.tasks[i].leasedUntil == c.until;
    assert Next(s, Record(copy)).tasks[i] == s.tasks[i];
  }

  lemma InTimeBefore(steps: seq<Step>, n: nat)
    requires AllInTime(steps) && n <= |steps|
    ensures AllInTime(steps[..n])
  {
    hide Run, InTime;
    forall i | 0 <= i < n ensures InTime(Run(steps[..n][..i]), steps[..n][i]) {
      assert steps[..n][..i] == steps[..i];
    }
  }

  /** As long as no task is offered over an outlived lease, no task is ever in two workers' hands. */
  lemma {:induction false} OneWorkerPerTask(steps: seq<Step>)
    requires AllInTime(steps)
    ensures Exclusive(Run(steps))
  {
    if steps != [] {
      var n := |steps| - 1;
      InTimeBefore(steps, n);
      OneWorkerPerTask(steps[..n]);
      assert InTime(Run(steps[..n]), steps[n]);
      hide Exclusive, InTime;
      NextExclusive(Run(steps[..n]), steps[n]);
    }
  }

  /**
    The lease is what the guarantee rests on. From any run that was in time, a task
    offered over an outlived lease is at once claimed a second time.
   */
  lemma OutlivedLeaseIsShared(steps: seq<Step>, step: Step, k: nat)
    requires AllInTime(steps) && step.Take?
    requires var s := Run(steps); k < |s.held| && Outlived(s, s.held[k], step.ids, step.now)
    ensures var s, u := Run(steps), Next(Run(steps), step);
      && Claim(step.worker, s.held[k].id, step.now + step.lease) in u.held[|s.held|..]
      && u.held[k] == s.held[k] && !DistinctIds(u.held)
  {
    hide Run, Claims, Leased;
    var s := Run(steps);
    OneWorkerPerTask(steps);
    var c, until := s.held[k], step.now + step.lease;
    assert Backed(s.tasks, c);
    var i :| 0 <= i < |s.tasks| && s.tasks[i].id == c.id && s.tasks[i].leasedUntil == c.until;
    var j :| 0 <= j < |s.tasks| && s.tasks[j].id == c.id && s.tasks[j].nextAt <= step.now;
    assert i == j && Due(s.tasks[i], step.now);
    ClaimsAreDue(s.tasks, step.worker, step.ids, step.now, until, Claim(step.worker, c.id, until));
    var u, taken := Next(s, step), Claims(s.tasks, step.worker, step.ids, step.now, until);
    var l :| 0 <= l < |taken| && taken[l] == Claim(step.worker, c.id, until);
    assert u.held[|s.held|..] == taken && u.held[|s.held| + l].id == u.held[k].id;
  }

  /** So a run keeps every task in one pair of hands throughout if and only if it is in time. */
  lemma ExclusiveExactly(steps: seq<Step>)
    ensures AllInTime(steps) <==> forall n :: 0 <= n <= |steps| ==> DistinctIds(Run(steps[..n]).held)
  {
    hide Run, DistinctIds, InTime;
    if AllInTime(steps) {
      forall n | 0 <= n <= |steps| ensures DistinctIds(Run(steps[..n]).held) {
        InTimeBefore(steps, n);
        OneWorkerPerTask(steps[..n]);
      }
    } else {
      BreaksDistinct(steps);
    }
  }

  lemma {:induction false} BreaksDistinct(steps: seq<Step>)
    requires !AllInTime(steps)
    ensures exists n :: 0 <= n <= |steps| && !DistinctIds(Run(steps[..n]).held)
  {
    hide DistinctIds, InTime;
    var m := |steps| - 1;
    if AllInTime(steps[..m]) {
      if InTime(Run(steps[..m]), steps[m]) {
        InTimeOneMore(steps);
      }
      LateTakeBreaks(steps);
      assert steps[..|steps|] == steps;
    } else {
      BreaksDistinct(steps[..m]);
      var n :| 0 <= n <= m && !DistinctIds(Run(steps[..m][..n]).held);
      assert steps[..m][..n] == steps[..n];
    }
  }

  lemma InTimeOneMore(steps: seq<Step>)
    requires steps != [] && AllInTime(steps[..|steps| - 1]) && InTime(Run(steps[..|steps| - 1]), steps[|steps| - 1])
    ensures AllInTime(steps)
  {
    hide Run, InTime;
    var n := |steps| - 1;
    forall i | 0 <= i < |steps| ensures InTime(Run(steps[..i]), steps[i]) {
      if i < n {
        assert steps[..n][..i] == steps[..i] && InTime(Run(steps[..n][..i]), steps[..n][i]);
      }
    }
  }

  lemma LateTakeBreaks(steps: seq<Step>)
    requires steps != [] && AllInTime(steps[..|steps| - 1]) && !InTime(Run(steps[..|steps| - 1]), steps[|steps| - 1])
    ensures !DistinctIds(Run(steps).held)
  {
    hide Outlived, DistinctIds, Next;
    var m := |steps| - 1;
    var s, step := Run(steps[..m]), steps[m];
    var k :| 0 <= k < |s.held| && Outlived(s, s.held[k], step.ids, step.now);
    OutlivedLeaseIsShared(steps[..m], step, k);
  }

  // ---------- no copy is lost ----------

  ghost predicate Kept(s: Sys, copy: Copy) {
    Recorded(s.tasks, copy) || copy in s.made || copy in s.abandoned
  }

  lemma NextKeeps(s: Sys, step: Step, copy: Copy)
    requires Kept(s, copy) || step == Record(copy)
    ensures Kept(Next(s, step), copy)
  {
    hide Deleted, Backoff, Claims, Without;
    var u := Next(s, step);
    if Recorded(s.tasks, copy) {
      var i :| 0 <= i < |s.tasks| && s.tasks[i].copy == copy;
      if (step.Finish? || step.Abandon?) && step.k < |s.held| {
        DeletedTasks(s.tasks, s.held[step.k].id, s.tasks[i]);
        if s.tasks[i].id == s.held[step.k].id {
          assert copy in Copies(s.tasks, s.held[step.k].id);
        }
      } else {
        assert u.tasks[i].copy == copy;
      }
    } else if step == Record(copy) {
      assert u.tasks[|s.tasks|].copy == copy;
    }
  }

  /**
    Whatever workers die and however long copies take, every recorded copy is still
    queued, was made, or was given up because its source was gone.
   */
  lemma {:induction false} NoCopyIsLost(steps: seq<Step>, i: nat)
    requires i < |steps| && steps[i].Record?
    ensures Kept(Run(steps), steps[i].copy)
  {
    var n := |steps| - 1;
    if i < n {
      NoCopyIsLost(steps[..n], i);
    }
    NextKeeps(Run(steps[..n]), steps[n], steps[i].copy);
  }

  /** No two queued tasks are of one copy. */
  ghost predicate OneTaskEach(tasks: seq<Task>) {
    forall i, j :: 0 <= i < j < |tasks| ==> tasks[i].copy != tasks[j].copy
  }

  lemma {:induction false} DeletedOneEach(tasks: seq<Task>, id: nat)
    requires OneTaskEach(tasks)
    ensures OneTaskEach(Deleted(tasks, id))
  {
    if tasks != [] {
      var n := |tasks| - 1;
      DeletedOneEach(tasks[..n], id);
      var d := Deleted(tasks[..n], id);
      forall i | 0 <= i < |d| ensures d[i].copy != tasks[n].copy {
        DeletedTasks(tasks[..n], id, d[i]);
      }
    }
  }

  /** Over any run a copy is queued once at most, however often it is recorded. */
  lemma {:induction false} CopyIsQueuedOnce(steps: seq<Step>)
    ensures OneTaskEach(Run(steps).tasks)
  {
    hide Deleted, Backoff, Claims, Without;
    if steps != [] {
      var s, step := Run(steps[..|steps| - 1]), steps[|steps| - 1];
      CopyIsQueuedOnce(steps[..|steps| - 1]);
      if (step.Finish? || step.Abandon?) && step.k < |s.held| {
        DeletedOneEach(s.tasks, s.held[step.k].id);
      }
    }
  }

  /**
    A failed copy is let go: it counts one more failure, is free for any worker, and is
    taken again only once its delay is over. Every other task stays as it is.
   */
  lemma FailedCopyWaits(steps: seq<Step>, k: nat, now: real, i: nat, later: real)
    requires k < |Run(steps).held| && i < |Run(steps).tasks|
    ensures var s, u := Run(steps), Run(steps + [Fail(k, now)]);
      var was, left, delay := s.tasks[i], u.tasks[i], Backoff(s.tasks[i].attempts + 1) as real;
      && |u.tasks| == |s.tasks| && u.held == LetGo(s.held, k)
      && (was.id != s.held[k].id ==> left == was)
      && (was.id == s.held[k].id ==>
            && left.id == was.id && left.copy == was.copy && left.attempts == was.attempts + 1
            && (later >= 0.0 ==> (Due(left, later) <==> later >= now + delay)))
  {
    hide Backoff;
    assert (steps + [Fail(k, now)])[..|steps|] == steps;
  }

  /** The delay is five seconds after the first failure, doubles with each, and is cut at five minutes. */
  lemma BackoffDoubles(attempts: nat)
    requires attempts >= 1
    ensures Backoff(1) == 5
    ensures Backoff(attempts + 1) == if 2 * Backoff(attempts) > 300 then 300 else 2 * Backoff(attempts)
  {
    if attempts - 1 >= 6 {
      Pow2Grows(6, if attempts - 1 <= 16 then attempts - 1 else 16);
      Pow2Grows(6, if attempts <= 16 then attempts else 16);
      assert Pow2(6) == 64 by {
        assert Pow2(3) == 8;
        assert Pow2(6) == 8 * Pow2(3);
      }
    }
  }

  /** The delay stays between its base and its cap, and never shrinks. */
  lemma BackoffBounds(attempts: nat)
    requires attempts >= 1
    ensures BACKOFF_BASE <= Backoff(attempts) <= Backoff(attempts + 1) <= BACKOFF_MAX
  {
    Pow2Grows(0, if attempts - 1 <= 16 then attempts - 1 else 16);
  }
}
