/**
  When a provisioning worker tries its subscription again, over whole runs: how an
  attempt ends, what follows, and that no band of an attempt is passed over.
 */
module SessionAttempts {
  import opened Session

  /** This step ends attempt `n` of the worker: its last band is through, something raised, or a check stopped it. */
  predicate EndsAttempt(s: Sys, c: Config, step: Step, w: nat, n: nat) {
    && w < |s.workers|
    && match step
       case Act(v, turn) =>
         v == w && s.workers[w].pc.Cleared?
         && (match s.workers[w].pc.phase
             case Reset(m) => m == n && turn.raised
             case Band(m, i) => m == n && (i + 1 >= c.bands || turn.raised)
             case _ => false)
       case CheckEpoch(v, connected, _) =>
         && v == w && s.workers[w].pc.Wants? && IsBandOf(s.workers[w].pc.phase, n)
         && (s.workers[w].epoch != s.epoch || s.stopped || !connected)
       case CheckHost(v, _) =>
         v == w && s.workers[w].pc.Passed? && IsBandOf(s.workers[w].pc.phase, n) && s.host != s.workers[w].owned
       case _ => false
  }

  predicate IsBandOf(p: Phase, n: nat) {
    p.Band? && p.n == n
  }

  /** Some band was accepted and nothing raised; or there are no attempts left; or a stop cut the pause short. */
  predicate NoneFollows(c: Config, n: nat, turn: Turn) {
    (turn.accepted && !turn.raised) || n >= c.attempts || turn.woken
  }

  function TurnOf(step: Step): Turn
    requires step.Act? || step.CheckEpoch? || step.CheckHost?
  {
    step.turn
  }

  /** After an attempt the worker goes on to the drain exactly when no other follows, and else to the next attempt. */
  lemma AttemptEndsExactly(s: Sys, c: Config, step: Step, w: nat, n: nat)
    requires EndsAttempt(s, c, step, w, n)
    ensures w < |Next(s, c, step).workers|
    ensures Next(s, c, step).workers[w].pc == Wants(if NoneFollows(c, n, TurnOf(step)) then Drain else Attempt(n + 1))
  {
  }

  // ---------- once no other attempt follows ----------

  predicate PastBands(pc: Pc) {
    match pc
    case Born => false
    case Capture => false
    case Gone => true
    case _ => pc.phase.Drain? || pc.phase.Alarms?
  }

  lemma StaysPastBands(s: Sys, c: Config, step: Step, w: nat)
    requires w < |s.workers| && PastBands(s.workers[w].pc)
    ensures var u := Next(s, c, step);
      && w < |u.workers| && PastBands(u.workers[w].pc)
      && s.log <= u.log
      && forall k :: |s.log| <= k < |u.log| && u.log[k].worker == w ==> u.log[k].phase.Drain? || u.log[k].phase.Alarms?
  {
  }

  lemma {:induction false} NoBandsLater(s: Sys, c: Config, steps: seq<Step>, w: nat)
    requires w < |s.workers| && PastBands(s.workers[w].pc)
    ensures var u := Follow(s, c, steps);
      && w < |u.workers| && PastBands(u.workers[w].pc)
      && s.log <= u.log
      && forall k :: |s.log| <= k < |u.log| && u.log[k].worker == w ==> u.log[k].phase.Drain? || u.log[k].phase.Alarms?
  {
    hide Next, PastBands;
    if steps != [] {
      var n := |steps| - 1;
      NoBandsLater(s, c, steps[..n], w);
      StaysPastBands(Follow(s, c, steps[..n]), c, steps[n], w);
    }
  }

  /**
    Over any run, once an attempt has ended with a band accepted and nothing raised, or as
    the last one, or in a pause cut short, that worker sends no band and no reset again.
   */
  lemma SettledIsFinal(c: Config, steps: seq<Step>, i: nat, w: nat, n: nat)
    requires i < |steps| && EndsAttempt(Run(c, steps[..i]), c, steps[i], w, n) && NoneFollows(c, n, TurnOf(steps[i]))
    ensures var before, log := |Run(c, steps[..i + 1]).log|, Run(c, steps).log;
      && before <= |log|
      && forall k :: before <= k < |log| && log[k].worker == w ==> !log[k].phase.Band? && !log[k].phase.Reset?
  {
    hide Next, Follow, EndsAttempt, NoneFollows;
    var s := Run(c, steps[..i]);
    AttemptEndsExactly(s, c, steps[i], w, n);
    FollowSnoc(START, c, steps[..i], steps[i]);
    FollowOn(START, c, steps[..i + 1], steps[i + 1..]);
    assert steps[..i + 1] == steps[..i] + [steps[i]] && steps == steps[..i + 1] + steps[i + 1..];
    NoBandsLater(Run(c, steps[..i + 1]), c, steps[i + 1..], w);
  }

  // ---------- why another attempt is made ----------

  /** At step `i` attempt `n` of the worker ended, and another was to follow. */
  predicate GoesOn(c: Config, steps: seq<Step>, i: nat, w: nat, n: nat) {
    && i < |steps|
    && EndsAttempt(Run(c, steps[..i]), c, steps[i], w, n)
    && !NoneFollows(c, n, TurnOf(steps[i]))
  }

  ghost predicate Retried(c: Config, steps: seq<Step>, w: nat, n: nat) {
    exists i: nat :: GoesOn(c, steps, i, w, n)
  }

  predicate Numbered(p: Phase, n: nat) {
    match p
    case Attempt(m) => m == n
    case Reset(m) => m == n
    case Band(m, _) => m == n
    case _ => false
  }

  predicate IsIn(s: Sys, w: nat, n: nat) {
    w < |s.workers| && (s.workers[w].pc.Wants? || s.workers[w].pc.Passed? || s.workers[w].pc.Cleared?)
    && Numbered(s.workers[w].pc.phase, n)
  }

  ghost predicate WasIn(log: seq<Action>, w: nat, n: nat) {
    exists k :: 0 <= k < |log| && log[k].worker == w && Numbered(log[k].phase, n)
  }

  lemma RetriedBefore(c: Config, steps: seq<Step>, w: nat, n: nat)
    requires steps != [] && Retried(c, steps[..|steps| - 1], w, n)
    ensures Retried(c, steps, w, n)
  {
    hide Run, EndsAttempt;
    var m := |steps| - 1;
    var i: nat :| GoesOn(c, steps[..m], i, w, n);
    assert steps[..m][..i] == steps[..i];
    assert GoesOn(c, steps, i, w, n);
  }

  /** One step puts a worker in a later attempt only where it ends the attempt before. */
  lemma EntersByRetry(s: Sys, c: Config, step: Step, w: nat, n: nat)
    requires n >= 1 && IsIn(Next(s, c, step), w, n + 1) && !IsIn(s, w, n + 1)
    ensures EndsAttempt(s, c, step, w, n) && !NoneFollows(c, n, TurnOf(step))
  {
    hide Acts;
  }

  /** What a worker does belongs to the attempt it is in. */
  lemma LogsWhereItIs(s: Sys, c: Config, step: Step, w: nat, n: nat)
    ensures WasIn(Next(s, c, step).log, w, n) ==> WasIn(s.log, w, n) || IsIn(s, w, n)
  {
    hide Refused, After, Acts;
    var u := Next(s, c, step);
    if WasIn(u.log, w, n) {
      var k :| 0 <= k < |u.log| && u.log[k].worker == w && Numbered(u.log[k].phase, n);
      if k < |s.log| {
        assert u.log[k] == s.log[k];
      }
    }
  }

  /**
    Over any run a worker is in a further attempt, or has sent a band of one, only because
    the attempt before it ended with nothing accepted or something raised, with attempts
    left and without a stop.
   */
  lemma {:induction false} RetriesHaveAReason(c: Config, steps: seq<Step>, w: nat, n: nat)
    requires n >= 1
    requires IsIn(Run(c, steps), w, n + 1) || WasIn(Run(c, steps).log, w, n + 1)
    ensures Retried(c, steps, w, n)
  {
    hide Next, IsIn, WasIn, EndsAttempt, NoneFollows;
    if steps == [] {
      NothingAtFirst(w, n + 1);
    } else {
      var m := |steps| - 1;
      var s := Run(c, steps[..m]);
      LogsWhereItIs(s, c, steps[m], w, n + 1);
      if IsIn(s, w, n + 1) || WasIn(s.log, w, n + 1) {
        RetriesHaveAReason(c, steps[..m], w, n);
        RetriedBefore(c, steps, w, n);
      } else {
        EntersByRetry(s, c, steps[m], w, n);
        assert GoesOn(c, steps, m, w, n);
      }
    }
  }

  lemma NothingAtFirst(w: nat, n: nat)
    ensures !IsIn(START, w, n) && !WasIn(START.log, w, n)
  {
  }

  // ---------- why no other attempt is made ----------

  /**
    This step ends the worker's subscription: its last attempt ended, the check at the top
    of the loop stopped it, or it was not to subscribe at all.
   */
  ghost predicate EndsSubscription(s: Sys, c: Config, step: Step, w: nat) {
    && w < |s.workers|
    && ((exists n :: EndsAttempt(s, c, step, w, n) && NoneFollows(c, n, TurnOf(step)))
        || AtTheTop(s.workers[w].pc)
        || s.workers[w].pc == Born
        || (s.workers[w].pc == Capture && !(c.subscribes && s.host.Some?)))
  }

  predicate AtTheTop(pc: Pc) {
    (pc.Wants? || pc.Passed?) && pc.phase.Attempt?
  }

  lemma LeavesForAReason(s: Sys, c: Config, step: Step, w: nat)
    requires w < |Next(s, c, step).workers| && PastBands(Next(s, c, step).workers[w].pc)
    requires w < |s.workers| ==> !PastBands(s.workers[w].pc)
    ensures EndsSubscription(s, c, step, w)
  {
    hide Acts;
    if w < |s.workers| && !AtTheTop(s.workers[w].pc) && s.workers[w].pc != Born && s.workers[w].pc != Capture {
      var n := s.workers[w].pc.phase.n;
      assert EndsAttempt(s, c, step, w, n) && NoneFollows(c, n, TurnOf(step));
    }
  }

  ghost predicate EndedAt(c: Config, steps: seq<Step>, i: nat, w: nat) {
    i < |steps| && EndsSubscription(Run(c, steps[..i]), c, steps[i], w)
  }

  /** Over any run a worker is done with its subscription only because a step of the run ended it. */
  lemma {:induction false} DoneForAReason(c: Config, steps: seq<Step>, w: nat)
    requires w < |Run(c, steps).workers| && PastBands(Run(c, steps).workers[w].pc)
    ensures exists i: nat :: EndedAt(c, steps, i, w)
  {
    hide Next, PastBands, EndsSubscription;
    if steps != [] {
      var m := |steps| - 1;
      var s := Run(c, steps[..m]);
      if w < |s.workers| && PastBands(s.workers[w].pc) {
        DoneForAReason(c, steps[..m], w);
        var i: nat :| EndedAt(c, steps[..m], i, w);
        assert steps[..m][..i] == steps[..i];
        assert EndedAt(c, steps, i, w);
      } else {
        LeavesForAReason(s, c, steps[m], w);
        assert EndedAt(c, steps, m, w);
      }
    }
  }

  /** The session has moved on, has been stopped, or its link is down. */
  predicate Superseded(s: Sys, it: Worker, connected: bool) {
    it.epoch != s.epoch || s.stopped || !connected
  }

  /** A worker leaves only when it is superseded, when its host is replaced, or after its alarms. */
  lemma GoneForAReason(s: Sys, c: Config, step: Step, w: nat)
    requires w < |s.workers| && s.workers[w].pc != Gone && Next(s, c, step).workers[w].pc == Gone
    ensures var it := s.workers[w];
      match step
      case First(_, connected) => it.pc == Born && Superseded(s, it, connected)
      case CheckEpoch(_, connected, _) => it.pc in {Wants(Drain), Wants(Alarms)} && Superseded(s, it, connected)
      case CheckHost(_, _) => it.pc in {Passed(Drain), Passed(Alarms)} && s.host != it.owned
      case Act(_, _) => it.pc == Cleared(Alarms)
      case _ => false
  {
    hide Acts;
  }

  // ---------- no band is passed over ----------

  ghost predicate Sent(log: seq<Action>, w: nat, p: Phase) {
    exists k :: 0 <= k < |log| && log[k].worker == w && log[k].phase == p
  }

  /** A worker about a band has sent the one before it in the same attempt. */
  ghost predicate InOrder(s: Sys, w: nat)
    requires w < |s.workers|
  {
    var pc := s.workers[w].pc;
    pc.Wants? || pc.Passed? || pc.Cleared? ==>
      && (pc.phase.Attempt? || pc.phase.Reset? || pc.phase.Band? ==> s.workers[w].owned.Some?)
      && (pc.phase.Band? && pc.phase.i > 0 ==> Sent(s.log, w, Band(pc.phase.n, pc.phase.i - 1)))
  }

  ghost predicate NonePassedOver(s: Sys) {
    && (forall w :: 0 <= w < |s.workers| ==> InOrder(s, w))
    && (forall k :: 0 <= k < |s.log| && s.log[k].phase.Band? && s.log[k].phase.i > 0 ==>
          Sent(s.log[..k], s.log[k].worker, Band(s.log[k].phase.n, s.log[k].phase.i - 1)))
  }

  lemma SentSnoc(log: seq<Action>, a: Action, w: nat, p: Phase)
    ensures Sent(log + [a], w, p) <==> Sent(log, w, p) || (a.worker == w && a.phase == p)
  {
    if a.worker == w && a.phase == p {
      assert (log + [a])[|log|] == a;
    }
    if Sent(log, w, p) {
      var k :| 0 <= k < |log| && log[k].worker == w && log[k].phase == p;
      assert (log + [a])[k] == log[k];
    }
  }

  lemma WorkerStaysInOrder(s: Sys, c: Config, step: Step, w: nat)
    requires NonePassedOver(s) && w < |Next(s, c, step).workers|
    ensures InOrder(Next(s, c, step), w)
  {
    hide Sent;
    var u := Next(s, c, step);
    if w < |s.workers| {
      assert InOrder(s, w);
    }
    if u.log != s.log {
      var a := u.log[|s.log|];
      assert u.log == s.log + [a];
      forall p {
        SentSnoc(s.log, a, w, p);
      }
    }
  }

  lemma NextPassesNoneOver(s: Sys, c: Config, step: Step)
    requires NonePassedOver(s)
    ensures NonePassedOver(Next(s, c, step))
  {
    hide Sent;
    var u := Next(s, c, step);
    forall w | 0 <= w < |u.workers| ensures InOrder(u, w) {
      WorkerStaysInOrder(s, c, step, w);
    }
    if u.log != s.log {
      assert InOrder(s, step.w);
      var a := u.log[|s.log|];
      assert u.log == s.log + [a];
      forall k | 0 <= k < |u.log| && u.log[k].phase.Band? && u.log[k].phase.i > 0
        ensures Sent(u.log[..k], u.log[k].worker, Band(u.log[k].phase.n, u.log[k].phase.i - 1))
      {
        assert u.log[..k] == if k < |s.log| then s.log[..k] else s.log;
      }
    }
  }

  /** Over any run every band of an attempt that is sent follows the band before it in that attempt. */
  lemma {:induction false} NoBandIsPassedOver(c: Config, steps: seq<Step>)
    ensures NonePassedOver(Run(c, steps))
  {
    hide NonePassedOver, Next;
    if steps == [] {
      StartPassesNoneOver();
    } else {
      var n := |steps| - 1;
      NoBandIsPassedOver(c, steps[..n]);
      NextPassesNoneOver(Run(c, steps[..n]), c, steps[n]);
    }
  }

  lemma StartPassesNoneOver()
    ensures NonePassedOver(START)
  {
  }
}
