/**
  The session generations of eap_middleware/secs_runtime.py. Every start opens a
  generation and every stop closes one; provisioning workers run beside them and
  check, before each thing they do to the tool, that their generation is still the
  current one. Threads are interleaved step by step: an atomic step is one region
  under the session's lock, one read of `self.host`, or one action on a host.
 */
module Session {
  import opened Wrappers

  /** What a worker does to a tool, or (`Attempt`) the top of its retry loop. */
  datatype Phase =
    | Attempt(n: nat)
    | Reset(n: nat)
    | Band(n: nat, i: nat)
    | Drain
    | Alarms

  /**
    `Born` has checked nothing yet. A `Wants` worker is about to check its epoch, a
    `Passed` worker is about to compare the host, a `Cleared` worker is about to act.
   */
  datatype Pc =
    | Born
    | Capture
    | Wants(phase: Phase)
    | Passed(phase: Phase)
    | Cleared(phase: Phase)
    | Gone

  /** `owned` is the generation of the host captured when the worker began. */
  datatype Worker = Worker(epoch: nat, owned: Option<nat>, pc: Pc)

  datatype Action = Action(worker: nat, gen: nat, target: Option<nat>, phase: Phase, late: bool)

  /**
    `opening` are the generations whose start has bumped the epoch but not yet
    installed its host, `installed` those whose start has not yet gone on to enable
    one; `enabled` are the hosts that can report a connection. A host is named by the
    generation that created it.
   */
  datatype Sys = Sys(
    epoch: nat, stopped: bool, host: Option<nat>, opening: set<nat>, installed: set<nat>, enabled: set<nat>,
    workers: seq<Worker>, log: seq<Action>)

  const START := Sys(0, true, None, {}, {}, {}, [], [])

  /** `bands` is at least one: a file without reports and events is refused before any message. */
  datatype Config = Config(
    subscribes: bool, resets: bool, bands: nat, attempts: nat, drains: bool, alarms: bool)

  predicate Sensible(c: Config) {
    c.bands >= 1 && c.attempts >= 1
  }

  /**
    How an attempt may end when it does: some band accepted, the subscription raised
    an exception, or the pause before the next attempt cut short by a stop.
   */
  datatype Turn = Turn(accepted: bool, raised: bool, woken: bool)

  datatype Step =
    | Open
    | Install(gen: nat)
    | Enable(gen: nat)
    | Stop
    | Connect(gen: nat)
    | First(w: nat, connected: bool)
    | TakeHost(w: nat)
    | CheckEpoch(w: nat, connected: bool, turn: Turn)
    | CheckHost(w: nat, turn: Turn)
    | Act(w: nat, turn: Turn)

  predicate IsCurrent(s: Sys, epoch: nat, connected: bool) {
    epoch == s.epoch && !s.stopped && connected
  }

  /** The retry loop after one attempt: done, out of attempts, woken by a stop, or again. */
  function AttemptOver(c: Config, n: nat, turn: Turn): Phase {
    if (turn.accepted && !turn.raised) || n >= c.attempts || turn.woken then Drain else Attempt(n + 1)
  }

  /** What a worker goes on to when a check stands in the way of this phase. */
  function Refused(c: Config, p: Phase, turn: Turn): (pc: Pc)
    ensures pc.Wants? || pc == Gone
  {
    match p
    case Attempt(_) => Wants(Drain)
    case Reset(n) => Wants(Band(n, 0))
    case Band(n, _) => Wants(AttemptOver(c, n, turn))
    case Drain => Gone
    case Alarms => Gone
  }

  /** What a worker goes on to after this phase. */
  function After(c: Config, p: Phase, turn: Turn): (pc: Pc)
    ensures pc.Wants? || pc == Gone
  {
    match p
    case Attempt(n) => Wants(if n == 1 && c.resets then Reset(n) else Band(n, 0))
    case Reset(n) => Wants(if turn.raised then AttemptOver(c, n, turn) else Band(n, 0))
    case Band(n, i) => Wants(if i + 1 < c.bands && !turn.raised then Band(n, i + 1) else AttemptOver(c, n, turn))
    case Drain => Wants(Alarms)
    case Alarms => Gone
  }

  /** The loop top does nothing to the tool, and draining and alarms are opt-in. */
  predicate Acts(c: Config, p: Phase) {
    match p
    case Attempt(_) => false
    case Drain => c.drains
    case Alarms => c.alarms
    case _ => true
  }

  function Move(s: Sys, w: nat, pc: Pc): Sys
    requires w < |s.workers|
  {
    s.(workers := s.workers[w := s.workers[w].(pc := pc)])
  }

  /**
    A step that does not apply in the current state changes nothing. A start enables
    whichever host is installed by the time it comes to that.
   */
  function Next(s: Sys, c: Config, step: Step): Sys {
    match step
    case Open => s.(epoch := s.epoch + 1, stopped := false, opening := s.opening + {s.epoch + 1})
    case Install(gen) =>
      if gen in s.opening then
        s.(host := Some(gen), opening := s.opening - {gen}, installed := s.installed + {gen})
      else s
    case Enable(gen) =>
      if gen in s.installed && s.host.Some? then
        s.(enabled := s.enabled + {s.host.value}, installed := s.installed - {gen})
      else s
    case Stop => s.(epoch := s.epoch + 1, stopped := true)
    case Connect(gen) =>
      if gen in s.enabled && gen == s.epoch && !s.stopped then
        s.(workers := s.workers + [Worker(gen, None, Born)])
      else s
    case First(w, connected) =>
      if w < |s.workers| && s.workers[w].pc == Born then
        Move(s, w, if IsCurrent(s, s.workers[w].epoch, connected) then Capture else Gone)
      else s
    case TakeHost(w) =>
      if w < |s.workers| && s.workers[w].pc == Capture then
        s.(workers := s.workers[w := Worker(s.workers[w].epoch, s.host,
          Wants(if c.subscribes && s.host.Some? then Attempt(1) else Drain))])
      else s
    case CheckEpoch(w, connected, turn) =>
      if w < |s.workers| && s.workers[w].pc.Wants? then
        var p := s.workers[w].pc.phase;
        Move(s, w, if IsCurrent(s, s.workers[w].epoch, connected) then Passed(p) else Refused(c, p, turn))
      else s
    case CheckHost(w, turn) =>
      if w < |s.workers| && s.workers[w].pc.Passed? then
        var p := s.workers[w].pc.phase;
        Move(s, w, if s.host == s.workers[w].owned then Cleared(p) else Refused(c, p, turn))
      else s
    case Act(w, turn) =>
      if w < |s.workers| && s.workers[w].pc.Cleared? then
        var it, p := s.workers[w], s.workers[w].pc.phase;
        var done := Move(s, w, After(c, p, turn));
        if Acts(c, p) && it.owned.Some? then
          done.(log := s.log + [Action(w, it.epoch, it.owned, p, it.epoch != s.epoch)])
        else done
      else s
  }

  function Follow(s: Sys, c: Config, steps: seq<Step>): Sys {
    if steps == [] then s else Next(Follow(s, c, steps[..|steps| - 1]), c, steps[|steps| - 1])
  }

  function Run(c: Config, steps: seq<Step>): Sys {
    Follow(START, c, steps)
  }

  /** No start installs its host once the host of the current generation can report a connection. */
  ghost predicate InstalledInOrder(c: Config, steps: seq<Step>) {
    forall i :: 0 <= i < |steps| ==> KeepsOrder(Run(c, steps[..i]), steps[i])
  }

  predicate KeepsOrder(s: Sys, step: Step) {
    step.Install? && step.gen in s.opening ==> s.epoch !in s.enabled
  }

  lemma OrderOfPrefix(c: Config, steps: seq<Step>, n: nat)
    requires InstalledInOrder(c, steps) && n <= |steps|
    ensures InstalledInOrder(c, steps[..n])
    ensures n < |steps| ==> KeepsOrder(Run(c, steps[..n]), steps[n])
  {
    hide Run;
    forall i | 0 <= i < n ensures KeepsOrder(Run(c, steps[..n][..i]), steps[..n][i]) {
      assert steps[..n][..i] == steps[..i];
    }
  }

  lemma InOrderOneMore(c: Config, steps: seq<Step>)
    requires steps != [] && InstalledInOrder(c, steps[..|steps| - 1])
    requires KeepsOrder(Run(c, steps[..|steps| - 1]), steps[|steps| - 1])
    ensures InstalledInOrder(c, steps)
  {
    hide Run, KeepsOrder;
    var n := |steps| - 1;
    forall i | 0 <= i < |steps| ensures KeepsOrder(Run(c, steps[..i]), steps[i]) {
      if i < n {
        assert steps[..n][..i] == steps[..i] && KeepsOrder(Run(c, steps[..n][..i]), steps[..n][i]);
      }
    }
  }

  // ---------- generations ----------

  /** After a stop the current generation is one that never opens. */
  predicate StoppedIsOver(s: Sys) {
    s.stopped ==> s.epoch !in s.enabled && s.epoch !in s.opening && s.host != Some(s.epoch)
  }

  /** The current generation's host, once enabled, is the installed one. */
  ghost predicate HostsInOrder(s: Sys) {
    && (forall g :: g in s.opening ==> g <= s.epoch && g !in s.enabled)
    && (forall g :: g in s.enabled ==> g <= s.epoch)
    && (s.host.Some? ==> s.host.value <= s.epoch && s.host.value !in s.opening)
    && (s.epoch in s.enabled ==> s.host == Some(s.epoch))
    && StoppedIsOver(s)
  }

  /** A worker still current owns its own generation's host, and one past a check always does. */
  predicate OwnsItsHost(s: Sys, it: Worker) {
    && it.epoch in s.enabled
    && (it.pc.Wants? && it.epoch == s.epoch ==> it.owned == Some(it.epoch))
    && (it.pc.Passed? || it.pc.Cleared? ==> it.owned == Some(it.epoch))
  }

  /** Some action went to a host that is not of its worker's generation. */
  ghost predicate Crossed(log: seq<Action>) {
    exists k :: 0 <= k < |log| && log[k].target != Some(log[k].gen)
  }

  ghost predicate Generations(s: Sys) {
    && HostsInOrder(s)
    && (forall w :: 0 <= w < |s.workers| ==> OwnsItsHost(s, s.workers[w]))
    && !Crossed(s.log)
  }

  lemma HostsStayInOrder(s: Sys, c: Config, step: Step)
    requires HostsInOrder(s) && KeepsOrder(s, step)
    ensures HostsInOrder(Next(s, c, step))
  {
    hide Refused, After, Acts;
  }

  lemma WorkerOwnsItsHost(s: Sys, c: Config, step: Step, w: nat)
    requires HostsInOrder(s) && KeepsOrder(s, step) && w < |Next(s, c, step).workers|
    requires w < |s.workers| ==> OwnsItsHost(s, s.workers[w])
    ensures OwnsItsHost(Next(s, c, step), Next(s, c, step).workers[w])
  {
    hide Refused, After, Acts;
  }

  lemma NextKeepsGenerations(s: Sys, c: Config, step: Step)
    requires Generations(s) && KeepsOrder(s, step)
    ensures Generations(Next(s, c, step))
  {
    hide HostsInOrder, OwnsItsHost, KeepsOrder, Refused, After;
    var u := Next(s, c, step);
    HostsStayInOrder(s, c, step);
    forall w | 0 <= w < |u.workers| ensures OwnsItsHost(u, u.workers[w]) {
      WorkerOwnsItsHost(s, c, step, w);
    }
    if u.log != s.log {
      ActorOwnsItsHost(s, s.workers[step.w]);
    }
  }

  lemma ActorOwnsItsHost(s: Sys, it: Worker)
    requires OwnsItsHost(s, it) && it.pc.Cleared?
    ensures it.owned == Some(it.epoch)
  {
  }

  /**
    Every subscription, drain and alarm action of a worker goes to the host of the
    worker's own generation, over all interleavings of starts, stops, connections
    and workers in which no start installs its host over the enabled host of a newer,
    current generation. Starts may overlap otherwise.
   */
  lemma {:induction false} ActionsStayInTheirGeneration(c: Config, steps: seq<Step>)
    requires InstalledInOrder(c, steps)
    ensures Generations(Run(c, steps))
    ensures !Crossed(Run(c, steps).log)
  {
    if steps != [] {
      var n := |steps| - 1;
      OrderOfPrefix(c, steps, n);
      ActionsStayInTheirGeneration(c, steps[..n]);
      NextKeepsGenerations(Run(c, steps[..n]), c, steps[n]);
    }
  }

  // ---------- starts kept apart ----------

  /** A start is not begun while another is between opening its generation and enabling its host. */
  ghost predicate StartsApart(c: Config, steps: seq<Step>) {
    forall i :: 0 <= i < |steps| && steps[i].Open? ==> NoneStarting(Run(c, steps[..i]))
  }

  predicate NoneStarting(s: Sys) {
    s.opening == {} && s.installed == {}
  }

  predicate Starting(s: Sys, gen: nat) {
    gen in s.opening || gen in s.installed
  }

  /** At most one start is under way, and it is newer than every host that can connect. */
  ghost predicate OneStarting(s: Sys) {
    && (forall g, h :: Starting(s, g) && Starting(s, h) ==> g == h)
    && (forall g :: g in s.opening ==> g !in s.installed && g <= s.epoch && s.host != Some(g))
    && (forall g, h :: g in s.opening && h in s.enabled ==> h < g)
    && (forall g :: g in s.enabled ==> g <= s.epoch)
    && (s.host.Some? ==> s.host.value <= s.epoch)
  }

  lemma NextKeepsOneStarting(s: Sys, c: Config, step: Step)
    requires OneStarting(s) && (step.Open? ==> NoneStarting(s))
    ensures OneStarting(Next(s, c, step)) && KeepsOrder(s, step)
  {
    hide Refused, After, Acts;
    var u := Next(s, c, step);
    assert forall g :: Starting(u, g) ==> Starting(s, g) || step.Open?;
    assert forall g :: g in s.opening || g in s.installed ==> Starting(s, g);
  }

  /** Starts that do not overlap install their hosts in order. */
  lemma {:induction false} ApartIsInOrder(c: Config, steps: seq<Step>)
    requires StartsApart(c, steps)
    ensures OneStarting(Run(c, steps)) && InstalledInOrder(c, steps)
  {
    if steps == [] {
      assert Run(c, steps) == START && OneStarting(START);
    } else {
      var n := |steps| - 1;
      forall i | 0 <= i < n && steps[..n][i].Open? ensures NoneStarting(Run(c, steps[..n][..i])) {
        assert steps[..n][..i] == steps[..i];
      }
      ApartIsInOrder(c, steps[..n]);
      NextKeepsOneStarting(Run(c, steps[..n]), c, steps[n]);
      InOrderOneMore(c, steps);
    }
  }

  // ---------- after a stop ----------

  function LateActions(log: seq<Action>, w: nat): nat {
    if log == [] then 0
    else
      var a := log[|log| - 1];
      LateActions(log[..|log| - 1], w) + (if a.worker == w && a.late then 1 else 0)
  }

  /** A worker whose generation is over, but which has passed its last successful check. */
  function Slipping(s: Sys, it: Worker): nat {
    if it.epoch != s.epoch && (it.pc.Passed? || it.pc.Cleared?) then 1 else 0
  }

  ghost predicate AtMostOneLate(s: Sys) {
    && (forall w :: 0 <= w < |s.workers| ==>
          && s.workers[w].epoch <= s.epoch
          && (s.workers[w].epoch == s.epoch ==> LateActions(s.log, w) == 0)
          && LateActions(s.log, w) + Slipping(s, s.workers[w]) <= 1)
    && (forall w :: |s.workers| <= w ==> LateActions(s.log, w) == 0)
  }

  lemma LateSnoc(log: seq<Action>, a: Action, w: nat)
    ensures LateActions(log + [a], w) == LateActions(log, w) + (if a.worker == w && a.late then 1 else 0)
  {
  }

  lemma ActKeepsLate(s: Sys, c: Config, w: nat, turn: Turn)
    requires AtMostOneLate(s)
    ensures AtMostOneLate(Next(s, c, Act(w, turn)))
  {
    hide LateActions;
    var u := Next(s, c, Act(w, turn));
    if |u.log| > |s.log| {
      var a := u.log[|s.log|];
      assert u.log == s.log + [a];
      forall k: nat ensures LateActions(u.log, k) == LateActions(s.log, k) + (if a.worker == k && a.late then 1 else 0) {
        LateSnoc(s.log, a, k);
      }
    }
  }

  lemma NextKeepsLate(s: Sys, c: Config, step: Step)
    requires AtMostOneLate(s)
    ensures AtMostOneLate(Next(s, c, step))
  {
    match step
    case Act(w, turn) => ActKeepsLate(s, c, w, turn);
    case _ => hide LateActions, Refused, After;
  }

  /**
    After its generation is over, by a stop or a newer start, a worker begins at most
    one further action, starts overlapping or not.
   */
  lemma {:induction false} AtMostOneActionAfterStop(c: Config, steps: seq<Step>, w: nat)
    ensures var s := Run(c, steps); AtMostOneLate(s) && LateActions(s.log, w) <= 1
  {
    if steps != [] {
      AtMostOneActionAfterStop(c, steps[..|steps| - 1], w);
      NextKeepsLate(Run(c, steps[..|steps| - 1]), c, steps[|steps| - 1]);
    }
  }

  // ---------- the order of a worker's actions ----------

  /** Reset first, then the bands attempt by attempt, then the spool, then the alarms. */
  function Place(c: Config, p: Phase): (nat, nat) {
    match p
    case Attempt(n) => (n, 0)
    case Reset(n) => (n, 1)
    case Band(n, i) => (n, 2 + i)
    case Drain => (c.attempts + 1, 0)
    case Alarms => (c.attempts + 2, 0)
  }

  predicate Before(a: (nat, nat), b: (nat, nat)) {
    a.0 < b.0 || (a.0 == b.0 && a.1 < b.1)
  }

  /** Where a worker stands: the place of the phase it is about, or before or after all. */
  function Stand(c: Config, pc: Pc): (nat, nat) {
    match pc
    case Born => (0, 0)
    case Capture => (0, 0)
    case Gone => (c.attempts + 3, 0)
    case _ => Place(c, pc.phase)
  }

  predicate PhaseFits(c: Config, p: Phase) {
    match p
    case Attempt(n) => 1 <= n <= c.attempts
    case Reset(n) => n == 1 && c.resets
    case Band(n, _) => 1 <= n <= c.attempts
    case _ => true
  }

  predicate PcFits(c: Config, pc: Pc) {
    pc.Wants? || pc.Passed? || pc.Cleared? ==> PhaseFits(c, pc.phase)
  }

  lemma Onwards(c: Config, p: Phase, turn: Turn)
    requires Sensible(c) && PhaseFits(c, p)
    ensures PcFits(c, After(c, p, turn)) && Before(Place(c, p), Stand(c, After(c, p, turn)))
    ensures PcFits(c, Refused(c, p, turn)) && Before(Place(c, p), Stand(c, Refused(c, p, turn)))
  {
  }

  ghost predicate InTurn(s: Sys, c: Config) {
    && (forall w :: 0 <= w < |s.workers| ==> PcFits(c, s.workers[w].pc))
    && (forall k :: 0 <= k < |s.log| ==>
          && s.log[k].worker < |s.workers| && PhaseFits(c, s.log[k].phase) && Acts(c, s.log[k].phase)
          && Before(Place(c, s.log[k].phase), Stand(c, s.workers[s.log[k].worker].pc)))
    && (forall k, l :: 0 <= k < l < |s.log| && s.log[k].worker == s.log[l].worker ==>
          Before(Place(c, s.log[k].phase), Place(c, s.log[l].phase)))
  }

  lemma MoveKeepsTurn(s: Sys, c: Config, w: nat, it: Worker)
    requires InTurn(s, c) && w < |s.workers| && PcFits(c, it.pc)
    requires Stand(c, s.workers[w].pc) == Stand(c, it.pc) || Before(Stand(c, s.workers[w].pc), Stand(c, it.pc))
    ensures InTurn(s.(workers := s.workers[w := it]), c)
  {
  }

  lemma ActKeepsTurn(s: Sys, c: Config, w: nat, turn: Turn)
    requires Sensible(c) && InTurn(s, c) && w < |s.workers| && s.workers[w].pc.Cleared?
    ensures InTurn(Next(s, c, Act(w, turn)), c)
  {
    var p := s.workers[w].pc.phase;
    assert PcFits(c, s.workers[w].pc);
    Onwards(c, p, turn);
    MoveKeepsTurn(s, c, w, s.workers[w].(pc := After(c, p, turn)));
    assert Stand(c, s.workers[w].pc) == Place(c, p);
    hide Place, Stand, PcFits, PhaseFits, After;
  }

  lemma NextKeepsTurn(s: Sys, c: Config, step: Step)
    requires Sensible(c) && InTurn(s, c)
    ensures InTurn(Next(s, c, step), c)
  {
    hide Refused, After, PhaseFits;
    match step
    case First(w, connected) =>
      if w < |s.workers| && s.workers[w].pc == Born {
        MoveKeepsTurn(s, c, w, s.workers[w].(pc := Capture));
        MoveKeepsTurn(s, c, w, s.workers[w].(pc := Gone));
      }
    case TakeHost(w) =>
      if w < |s.workers| && s.workers[w].pc == Capture {
        MoveKeepsTurn(s, c, w, Next(s, c, step).workers[w]);
      }
    case CheckEpoch(w, connected, turn) =>
      if w < |s.workers| && s.workers[w].pc.Wants? {
        assert PcFits(c, s.workers[w].pc);
        Onwards(c, s.workers[w].pc.phase, turn);
        MoveKeepsTurn(s, c, w, Next(s, c, step).workers[w]);
      }
    case CheckHost(w, turn) =>
      if w < |s.workers| && s.workers[w].pc.Passed? {
        assert PcFits(c, s.workers[w].pc);
        Onwards(c, s.workers[w].pc.phase, turn);
        MoveKeepsTurn(s, c, w, Next(s, c, step).workers[w]);
      }
    case Act(w, turn) =>
      if w < |s.workers| && s.workers[w].pc.Cleared? {
        ActKeepsTurn(s, c, w, turn);
      }
    case _ =>
  }

  /**
    A worker's delete-all reset precedes all its bands and happens at most once, its
    bands come in order within an attempt, the spool is drained after them and the
    alarms are enabled last: the actions of one worker strictly ascend in that order.
   */
  lemma {:induction false} ActionsInTurn(c: Config, steps: seq<Step>)
    requires Sensible(c)
    ensures var s := Run(c, steps);
      && InTurn(s, c)
      && (forall k, l :: 0 <= k < l < |s.log| && s.log[k].worker == s.log[l].worker ==>
            Before(Place(c, s.log[k].phase), Place(c, s.log[l].phase)) && !s.log[l].phase.Reset?)
  {
    if steps != [] {
      ActionsInTurn(c, steps[..|steps| - 1]);
      NextKeepsTurn(Run(c, steps[..|steps| - 1]), c, steps[|steps| - 1]);
    }
    var s := Run(c, steps);
    hide Run;
    forall k, l | 0 <= k < l < |s.log| && s.log[k].worker == s.log[l].worker ensures !s.log[l].phase.Reset? {
      assert Before(Place(c, s.log[k].phase), Place(c, s.log[l].phase));
      assert Acts(c, s.log[k].phase) && PhaseFits(c, s.log[k].phase) && PhaseFits(c, s.log[l].phase);
    }
  }

  // ---------- when the reset happens ----------

  /** The worker that finds the link down just when it is about to reset, if this step is such a check. */
  function Missing(s: Sys, step: Step): set<nat> {
    match step
    case CheckEpoch(w, connected, _) =>
      if !connected && w < |s.workers| && s.workers[w].pc == Wants(Reset(1)) then {w} else {}
    case _ => {}
  }

  /** The workers whose link was down at the check before their reset. */
  function Down(c: Config, steps: seq<Step>): set<nat> {
    if steps == [] then {}
    else Down(c, steps[..|steps| - 1]) + Missing(Run(c, steps[..|steps| - 1]), steps[|steps| - 1])
  }

  ghost predicate DidReset(log: seq<Action>, w: nat) {
    exists j :: 0 <= j < |log| && log[j].worker == w && log[j].phase.Reset?
  }

  predicate PastTheReset(p: Phase) {
    match p
    case Attempt(n) => n >= 2
    case Band(_, _) => true
    case _ => false
  }

  predicate BeforeTheReset(pc: Pc) {
    match pc
    case Born => true
    case Capture => true
    case Gone => false
    case _ => pc.phase == Attempt(1) || pc.phase == Reset(1)
  }

  /** A worker that can still send a band has reset the tool unless its link was down. */
  ghost predicate Settled(s: Sys, down: set<nat>, w: nat)
    requires w < |s.workers|
  {
    var it := s.workers[w];
    && (BeforeTheReset(it.pc) ==> w !in down)
    && (it.pc.Wants? && PastTheReset(it.pc.phase) && it.epoch == s.epoch ==> (DidReset(s.log, w) <==> w !in down))
    && ((it.pc.Passed? || it.pc.Cleared?) && PastTheReset(it.pc.phase) ==> (DidReset(s.log, w) <==> w !in down))
  }

  ghost predicate BandsFollow(log: seq<Action>, down: set<nat>) {
    forall k :: 0 <= k < |log| && log[k].phase.Band? ==>
      (DidReset(log[..k], log[k].worker) <==> log[k].worker !in down)
  }

  ghost predicate Resetting(s: Sys, down: set<nat>) {
    && (forall w :: w in down ==> w < |s.workers|)
    && (forall w :: 0 <= w < |s.workers| ==> Settled(s, down, w))
    && BandsFollow(s.log, down)
  }

  lemma DidSnoc(log: seq<Action>, a: Action, w: nat)
    ensures DidReset(log + [a], w) <==> DidReset(log, w) || (a.worker == w && a.phase.Reset?)
  {
    if a.worker == w && a.phase.Reset? {
      assert (log + [a])[|log|] == a;
    }
    if DidReset(log, w) {
      var j :| 0 <= j < |log| && log[j].worker == w && log[j].phase.Reset?;
      assert (log + [a])[j] == log[j];
    }
  }

  /** Before its reset a worker has neither reset nor sent a band. */
  lemma NothingBeforeTheReset(s: Sys, c: Config, w: nat)
    requires InTurn(s, c) && w < |s.workers| && BeforeTheReset(s.workers[w].pc)
    ensures forall k :: 0 <= k < |s.log| && s.log[k].worker == w ==> !s.log[k].phase.Band? && !s.log[k].phase.Reset?
    ensures !DidReset(s.log, w)
  {
    hide PcFits;
    forall k | 0 <= k < |s.log| && s.log[k].worker == w ensures !s.log[k].phase.Band? && !s.log[k].phase.Reset? {
      assert PhaseFits(c, s.log[k].phase) && Before(Place(c, s.log[k].phase), Stand(c, s.workers[w].pc));
    }
  }

  lemma FollowSnocLog(log: seq<Action>, a: Action, down: set<nat>)
    requires BandsFollow(log, down)
    requires a.phase.Band? ==> (DidReset(log, a.worker) <==> a.worker !in down)
    ensures BandsFollow(log + [a], down)
  {
    var u := log + [a];
    forall k | 0 <= k < |u| && u[k].phase.Band? ensures DidReset(u[..k], u[k].worker) <==> u[k].worker !in down {
      assert u[..k] == if k < |log| then log[..k] else log;
    }
  }

  predicate IsCheckBy(step: Step, w: nat) {
    (step.CheckEpoch? || step.CheckHost?) && step.w == w
  }

  lemma CheckSettles(s: Sys, c: Config, step: Step, down: set<nat>, w: nat)
    requires Sensible(c) && c.resets && Generations(s) && InTurn(s, c) && Resetting(s, down)
    requires IsCheckBy(step, w) && w < |s.workers|
    ensures Settled(Next(s, c, step), down + Missing(s, step), w)
  {
    hide DidReset, BandsFollow, HostsInOrder;
    assert HostFits(s) by { HostsFit(s); }
    var it := s.workers[w];
    assert Settled(s, down, w) && OwnsItsHost(s, it) && PcFits(c, it.pc);
    if BeforeTheReset(it.pc) {
      NothingBeforeTheReset(s, c, w);
    }
    hide InTurn;
  }

  lemma OtherSettles(s: Sys, c: Config, step: Step, down: set<nat>, w: nat)
    requires c.resets && Generations(s) && Resetting(s, down)
    requires !step.Act? && !IsCheckBy(step, w) && w < |Next(s, c, step).workers|
    ensures Settled(Next(s, c, step), down + Missing(s, step), w)
  {
    hide DidReset, BandsFollow, HostsInOrder, Refused;
    assert HostFits(s) by { HostsFit(s); }
    if w < |s.workers| {
      assert Settled(s, down, w) && OwnsItsHost(s, s.workers[w]);
    }
  }

  /** What a worker's own host check needs of the generations. */
  ghost predicate HostFits(s: Sys) {
    && (s.epoch in s.enabled ==> s.host == Some(s.epoch))
    && (forall g :: g in s.enabled || g in s.opening ==> g <= s.epoch)
    && StoppedIsOver(s)
  }

  lemma HostsFit(s: Sys)
    requires HostsInOrder(s)
    ensures HostFits(s)
  {
  }

  lemma ActSettles(s: Sys, c: Config, actor: nat, turn: Turn, down: set<nat>, w: nat)
    requires Sensible(c) && c.resets && Generations(s) && InTurn(s, c) && Resetting(s, down) && w < |s.workers|
    ensures Settled(Next(s, c, Act(actor, turn)), down, w)
  {
    hide DidReset, BandsFollow, HostsInOrder;
    var u := Next(s, c, Act(actor, turn));
    assert Settled(s, down, w) && OwnsItsHost(s, s.workers[w]) && PcFits(c, s.workers[w].pc);
    if BeforeTheReset(s.workers[w].pc) {
      NothingBeforeTheReset(s, c, w);
    }
    if u.log != s.log {
      var a := u.log[|s.log|];
      assert u.log == s.log + [a];
      DidSnoc(s.log, a, w);
    }
    hide InTurn;
  }

  lemma ActFollows(s: Sys, c: Config, actor: nat, turn: Turn, down: set<nat>)
    requires Resetting(s, down)
    ensures BandsFollow(Next(s, c, Act(actor, turn)).log, down)
  {
    hide DidReset, BandsFollow;
    var u := Next(s, c, Act(actor, turn));
    if u.log != s.log {
      assert Settled(s, down, actor);
      var a := u.log[|s.log|];
      assert u.log == s.log + [a];
      FollowSnocLog(s.log, a, down);
    }
  }

  lemma NextKeepsResetting(s: Sys, c: Config, step: Step, down: set<nat>)
    requires Sensible(c) && c.resets && Generations(s) && InTurn(s, c) && Resetting(s, down)
    ensures Resetting(Next(s, c, step), down + Missing(s, step))
  {
    var u := Next(s, c, step);
    hide Generations, InTurn, Settled, BandsFollow;
    if step.Act? {
      ActFollows(s, c, step.w, step.turn, down);
      forall w | 0 <= w < |u.workers| ensures Settled(u, down + Missing(s, step), w) {
        ActSettles(s, c, step.w, step.turn, down, w);
        assert down + Missing(s, step) == down;
      }
      assert down + Missing(s, step) == down;
    } else {
      forall w | 0 <= w < |u.workers| ensures Settled(u, down + Missing(s, step), w) {
        if IsCheckBy(step, w) && w < |s.workers| {
          CheckSettles(s, c, step, down, w);
        } else {
          OtherSettles(s, c, step, down, w);
        }
      }
      ChecksFollow(s, c, step, down);
    }
  }

  lemma ChecksFollow(s: Sys, c: Config, step: Step, down: set<nat>)
    requires InTurn(s, c) && Resetting(s, down) && !step.Act?
    ensures BandsFollow(Next(s, c, step).log, down + Missing(s, step))
  {
    hide DidReset;
    if Missing(s, step) != {} {
      NothingBeforeTheReset(s, c, step.w);
    }
  }

  lemma {:induction false} ResettingOverRuns(c: Config, steps: seq<Step>)
    requires Sensible(c) && c.resets && InstalledInOrder(c, steps)
    ensures Resetting(Run(c, steps), Down(c, steps))
  {
    if steps != [] {
      var n := |steps| - 1;
      OrderOfPrefix(c, steps, n);
      ActionsStayInTheirGeneration(c, steps[..n]);
      ActionsInTurn(c, steps[..n]);
      ResettingOverRuns(c, steps[..n]);
      NextKeepsResetting(Run(c, steps[..n]), c, steps[n], Down(c, steps[..n]));
    }
  }

  /**
    Exactly when the tool is reset before its bands: in any run of hosts installed in
    order, a worker that sends a band has sent its reset before it if and only if
    its link was not down at the one check before that reset.
   */
  lemma ResetHappensExactly(c: Config, steps: seq<Step>, k: nat)
    requires Sensible(c) && c.resets && InstalledInOrder(c, steps)
    requires k < |Run(c, steps).log| && Run(c, steps).log[k].phase.Band?
    ensures var log := Run(c, steps).log;
      DidReset(log[..k], log[k].worker) <==> log[k].worker !in Down(c, steps)
  {
    hide Run, Down, Settled, DidReset;
    ResettingOverRuns(c, steps);
  }

  // ---------- where the guarantees end ----------

  lemma FollowSnoc(s: Sys, c: Config, xs: seq<Step>, x: Step)
    ensures Follow(s, c, xs + [x]) == Next(Follow(s, c, xs), c, x)
  {
  }

  lemma ThreeSteps(s: Sys, c: Config, x: Step, y: Step, z: Step)
    ensures Follow(s, c, [x, y, z]) == Next(Next(Next(s, c, x), c, y), c, z)
  {
    FollowSnoc(s, c, [], x);
    FollowSnoc(s, c, [x], y);
    FollowSnoc(s, c, [x, y], z);
    assert Follow(s, c, []) == s;
    hide Next, Follow;
    assert [] + [x] == [x] && [x] + [y] == [x, y] && [x, y] + [z] == [x, y, z];
  }

  lemma FollowNothing(s: Sys, c: Config)
    ensures Follow(s, c, []) == s
  {
  }

  lemma {:induction false} FollowOn(s: Sys, c: Config, xs: seq<Step>, ys: seq<Step>)
    ensures Follow(s, c, xs + ys) == Follow(Follow(s, c, xs), c, ys)
  {
    hide Next, Follow;
    if ys == [] {
      assert xs + ys == xs;
      FollowNothing(Follow(s, c, xs), c);
    } else {
      var n := |ys| - 1;
      FollowOn(s, c, xs, ys[..n]);
      FollowSnoc(s, c, xs + ys[..n], ys[n]);
      FollowSnoc(Follow(s, c, xs), c, ys[..n], ys[n]);
      assert xs + ys == xs + ys[..n] + [ys[n]] && ys == ys[..n] + [ys[n]];
    }
  }

  const QUIET := Turn(false, false, false)

  /** The newer generation's host connects, and its worker takes whichever host is installed. */
  function Connecting(gen: nat, w: nat): seq<Step> {
    [Connect(gen), First(w, true), TakeHost(w)]
  }

  /** A worker goes once through its two checks and the action behind them. */
  function OneTurn(w: nat): seq<Step> {
    [CheckEpoch(w, true, QUIET), CheckHost(w, QUIET), Act(w, QUIET)]
  }

  lemma TurnActs(s: Sys, c: Config, w: nat)
    requires w < |s.workers| && !s.stopped
    requires var it := s.workers[w]; it.epoch == s.epoch && it.pc.Wants? && it.owned == s.host && s.host.Some?
    ensures var p, u := s.workers[w].pc.phase, Follow(s, c, OneTurn(w));
      && u == Move(s, w, After(c, p, QUIET)).(log := u.log)
      && u.log == s.log + (if Acts(c, p) then [Action(w, s.epoch, s.host, p, false)] else [])
  {
    hide Follow, After, Acts;
    ThreeSteps(s, c, CheckEpoch(w, true, QUIET), CheckHost(w, QUIET), Act(w, QUIET));
  }

  lemma TakesTheOther(s: Sys, c: Config)
    requires s.epoch in s.enabled && !s.stopped && s.host.Some?
    ensures Follow(s, c, Connecting(s.epoch, |s.workers|))
      == s.(workers := s.workers + [Worker(s.epoch, s.host, Wants(if c.subscribes then Attempt(1) else Drain))])
  {
    hide Follow;
    ThreeSteps(s, c, Connect(s.epoch), First(|s.workers|, true), TakeHost(|s.workers|));
  }

  /** Without these a worker does nothing to a tool. */
  predicate ActsAtAll(c: Config) {
    c.subscribes || c.drains || c.alarms
  }

  function CrossingSteps(gen: nat, w: nat): seq<Step> {
    Connecting(gen, w) + OneTurn(w) + OneTurn(w)
  }

  /** With another generation's host installed, the current one's next worker acts on that host. */
  lemma OtherHostIsActedOn(s: Sys, c: Config)
    requires ActsAtAll(c) && s.epoch in s.enabled && !s.stopped && s.host.Some? && s.host != Some(s.epoch)
    ensures Crossed(Follow(s, c, CrossingSteps(s.epoch, |s.workers|)).log)
  {
    hide Follow, Crossed;
    var w := |s.workers|;
    var one := Follow(s, c, Connecting(s.epoch, w));
    var two := Follow(one, c, OneTurn(w));
    var three := Follow(two, c, OneTurn(w));
    TakesTheOther(s, c);
    TurnActs(one, c, w);
    TurnActs(two, c, w);
    FollowOn(s, c, Connecting(s.epoch, w), OneTurn(w));
    FollowOn(s, c, Connecting(s.epoch, w) + OneTurn(w), OneTurn(w));
    EndsCrossed(three.log);
  }

  lemma EndsCrossed(log: seq<Action>)
    requires log != [] && log[|log| - 1].target != Some(log[|log| - 1].gen)
    ensures Crossed(log)
  {
  }

  /**
    The order of installs is the exact condition. Whatever the run so far, a start that
    installs its host over the enabled host of the current generation can be followed by
    an action of that generation on the other's host, for every configuration that acts.
   */
  lemma LateInstallCrosses(c: Config, steps: seq<Step>, late: nat)
    requires ActsAtAll(c) && InstalledInOrder(c, steps) && !KeepsOrder(Run(c, steps), Install(late))
    ensures var s := Run(c, steps);
      Crossed(Run(c, steps + [Install(late)] + CrossingSteps(s.epoch, |s.workers|)).log)
  {
    hide Follow, Crossed, CrossingSteps;
    var s := Run(c, steps);
    ActionsStayInTheirGeneration(c, steps);
    OtherHostIsActedOn(Next(s, c, Install(late)), c);
    FollowSnoc(START, c, steps, Install(late));
    FollowOn(START, c, steps + [Install(late)], CrossingSteps(s.epoch, |s.workers|));
  }

  /** So every run that breaks the order goes, from the install that breaks it, on to such an action. */
  lemma {:induction false} BrokenOrderCrosses(c: Config, steps: seq<Step>) returns (n: nat, more: seq<Step>)
    requires ActsAtAll(c) && !InstalledInOrder(c, steps)
    ensures n < |steps| && !KeepsOrder(Run(c, steps[..n]), steps[n])
    ensures Crossed(Run(c, steps[..n + 1] + more).log)
  {
    hide Run, Crossed, CrossingSteps, KeepsOrder;
    var m := |steps| - 1;
    if InstalledInOrder(c, steps[..m]) {
      var s := Run(c, steps[..m]);
      if KeepsOrder(s, steps[m]) {
        InOrderOneMore(c, steps);
      }
      assert steps[m].Install? by { OnlyInstallsBreak(s, steps[m]); }
      LateInstallCrosses(c, steps[..m], steps[m].gen);
      n, more := m, CrossingSteps(s.epoch, |s.workers|);
      assert steps[..m + 1] == steps[..m] + [steps[m]];
    } else {
      n, more := BrokenOrderCrosses(c, steps[..m]);
      assert steps[..m][..n] == steps[..n] && steps[..m][..n + 1] == steps[..n + 1];
    }
  }

  lemma OnlyInstallsBreak(s: Sys, step: Step)
    requires !KeepsOrder(s, step)
    ensures step.Install?
  {
  }

  /** Two starts open generations 1 and 2, and only 2 has installed and enabled its host. */
  const TWO_STARTS := [Open, Open, Install(2)]

  lemma TwoStartsOpen(c: Config)
    ensures Run(c, TWO_STARTS + [Enable(2)]) == Sys(2, false, Some(2), {1}, {}, {2}, [], [])
    ensures !NoneStarting(Run(c, [Open]))
  {
    ThreeSteps(START, c, Open, Open, Install(2));
    FollowSnoc(START, c, TWO_STARTS, Enable(2));
    FollowSnoc(START, c, [], Open);
    assert Follow(START, c, []) == START;
    hide Follow;
    assert [] + [Open] == [Open];
  }

  /** Such a run exists: two overlapping starts, the older one installing its host last. */
  lemma OverlappingStartsCross(c: Config)
    requires ActsAtAll(c)
    ensures var steps := TWO_STARTS + [Enable(2)] + [Install(1)] + CrossingSteps(2, 0);
      !StartsApart(c, steps) && !InstalledInOrder(c, steps) && Crossed(Run(c, steps).log)
  {
    hide Follow, Next, Crossed, CrossingSteps;
    var before := TWO_STARTS + [Enable(2)];
    var steps := before + [Install(1)] + CrossingSteps(2, 0);
    TwoStartsOpen(c);
    assert steps[..4] == before && steps[4] == Install(1) && !KeepsOrder(Run(c, steps[..4]), steps[4]);
    assert steps[..1] == [Open] && steps[1] == Open && !NoneStarting(Run(c, steps[..1]));
    OtherHostIsActedOn(Sys(2, false, Some(1), {}, {1}, {2}, [], []), c);
    InstallsOver(c);
    FollowSnoc(START, c, before, Install(1));
    FollowOn(START, c, before + [Install(1)], CrossingSteps(2, 0));
  }

  lemma InstallsOver(c: Config)
    ensures Next(Sys(2, false, Some(2), {1}, {}, {2}, [], []), c, Install(1)) == Sys(2, false, Some(1), {}, {1}, {2}, [], [])
  {
  }

  /** A start, a connection and its worker, whose link is down when it is about to reset. */
  const STARTED := [Open, Install(1), Enable(1)]
  const FLICKER := [CheckEpoch(0, false, QUIET)]

  /** One generation, started and enabled, with these workers. */
  function Started(workers: seq<Worker>): Sys {
    Sys(1, false, Some(1), {}, {}, {1}, workers, [])
  }

  lemma StartsUp(c: Config)
    ensures Run(c, STARTED) == Started([])
  {
    hide Follow;
    ThreeSteps(START, c, Open, Install(1), Enable(1));
  }

  lemma AttemptsFirst(c: Config)
    requires c.resets
    ensures Follow(Started([Worker(1, Some(1), Wants(Attempt(1)))]), c, OneTurn(0))
      == Started([Worker(1, Some(1), Wants(Reset(1)))])
  {
    hide Follow;
    TurnActs(Started([Worker(1, Some(1), Wants(Attempt(1)))]), c, 0);
  }

  lemma FlickersPastTheReset(c: Config)
    ensures Follow(Started([Worker(1, Some(1), Wants(Reset(1)))]), c, FLICKER) == Started([Worker(1, Some(1), Wants(Band(1, 0)))])
  {
    var s := Started([Worker(1, Some(1), Wants(Reset(1)))]);
    FollowSnoc(s, c, [], CheckEpoch(0, false, QUIET));
    FollowNothing(s, c);
    hide Follow;
    assert [] + [CheckEpoch(0, false, QUIET)] == FLICKER;
  }

  /**
    The reset is asked for on the first attempt only and a failed check merely skips
    it, so a link that is down at that one check leaves the worker defining its bands
    over whatever the tool held before.
   */
  lemma ResetCanBeSkipped(c: Config)
    requires Sensible(c) && c.subscribes && c.resets
    ensures Run(c, STARTED + Connecting(1, 0) + OneTurn(0) + FLICKER + OneTurn(0)).log
      == [Action(0, 1, Some(1), Band(1, 0), false)]
  {
    hide Follow, Next;
    StartsUp(c);
    TakesTheOther(Started([]), c);
    assert Started([]).workers + [Worker(1, Some(1), Wants(Attempt(1)))] == [Worker(1, Some(1), Wants(Attempt(1)))];
    AttemptsFirst(c);
    FlickersPastTheReset(c);
    TurnActs(Started([Worker(1, Some(1), Wants(Band(1, 0)))]), c, 0);
    assert Started([]).log + [Action(0, 1, Some(1), Band(1, 0), false)] == [Action(0, 1, Some(1), Band(1, 0), false)];
    FollowOn(START, c, STARTED, Connecting(1, 0));
    FollowOn(START, c, STARTED + Connecting(1, 0), OneTurn(0));
    FollowOn(START, c, STARTED + Connecting(1, 0) + OneTurn(0), FLICKER);
    FollowOn(START, c, STARTED + Connecting(1, 0) + OneTurn(0) + FLICKER, OneTurn(0));
  }

  // ---------- the session as an object ----------

  /** The steps of the session itself do not depend on the configuration. */
  const ANY := Config(true, true, 1, 1, true, true)

  class SecsMachineSession {
    var epoch: nat
    var stopped: bool
    var host: Option<nat>
    var provisionThreads: seq<Worker>
    ghost var opening: set<nat>
    ghost var installed: set<nat>
    ghost var enabled: set<nat>
    ghost var log: seq<Action>

    constructor ()
      ensures View() == START
    {
      epoch, stopped, host, provisionThreads := 0, true, None, [];
      opening, installed, enabled, log := {}, {}, {}, [];
    }

    ghost function View(): Sys
      reads this
    {
      Sys(epoch, stopped, host, opening, installed, enabled, provisionThreads, log)
    }

    /** The locked region at the head of `start`. */
    method OpenGeneration() returns (gen: nat)
      modifies this
      ensures forall c :: View() == Next(old(View()), c, Open)
      ensures gen == epoch && gen in opening
    {
      epoch := epoch + 1;
      gen := epoch;
      stopped := false;
      opening := opening + {gen};
    }

    /** `start` binds its new host. */
    method InstallHost(gen: nat)
      requires gen in opening
      modifies this
      ensures forall c :: View() == Next(old(View()), c, Install(gen))
      ensures host == Some(gen) && gen in installed && opening == old(opening) - {gen}
      ensures Generations(old(View())) && old(epoch !in enabled) ==> Generations(View())
    {
      ghost var before := View();
      if Generations(before) && epoch !in enabled {
        NextKeepsGenerations(before, ANY, Install(gen));
      }
      hide Generations;
      host := Some(gen);
      opening, installed := opening - {gen}, installed + {gen};
      assert View() == Next(before, ANY, Install(gen));
    }

    /** `start` enables the host bound now, which another start may have bound since. */
    method EnableHost(gen: nat)
      requires gen in installed && host.Some?
      modifies this
      ensures forall c :: View() == Next(old(View()), c, Step.Enable(gen))
      ensures host.value in enabled && gen !in installed
      ensures Generations(old(View())) ==> Generations(View())
    {
      ghost var before := View();
      if Generations(before) {
        NextKeepsGenerations(before, ANY, Step.Enable(gen));
      }
      hide Generations;
      enabled, installed := enabled + {host.value}, installed - {gen};
      assert View() == Next(before, ANY, Step.Enable(gen));
    }

    /** The locked region at the head of `stop`. */
    method CloseGeneration()
      modifies this
      ensures forall c :: View() == Next(old(View()), c, Stop)
      ensures forall g, connected :: !IsCurrent(View(), g, connected)
      ensures Generations(old(View())) ==>
        forall w :: 0 <= w < |provisionThreads| ==> provisionThreads[w].epoch < epoch
      ensures Generations(old(View())) ==> Generations(View())
      ensures AtMostOneLate(old(View())) ==> AtMostOneLate(View())
    {
      ghost var before := View();
      if Generations(before) {
        NextKeepsGenerations(before, ANY, Step.Stop);
        forall w | 0 <= w < |provisionThreads| ensures provisionThreads[w].epoch <= epoch {
          assert OwnsItsHost(before, before.workers[w]);
        }
      }
      if AtMostOneLate(before) {
        NextKeepsLate(before, ANY, Step.Stop);
      }
      hide Generations, AtMostOneLate;
      epoch := epoch + 1;
      stopped := true;
      assert View() == Next(before, ANY, Step.Stop);
    }

    method OnConnect(gen: nat) returns (begun: bool)
      requires gen in enabled
      modifies this
      ensures forall c :: View() == Next(old(View()), c, Connect(gen))
      ensures begun == (gen == epoch && !stopped)
    {
      if gen != epoch || stopped {
        return false;
      }
      provisionThreads := provisionThreads + [Worker(gen, None, Born)];
      return true;
    }

    method Current(gen: nat, connected: bool) returns (current: bool)
      ensures current == IsCurrent(View(), gen, connected)
      ensures current && gen in enabled && Generations(View()) ==> host == Some(gen)
      ensures current ==> forall g, link :: IsCurrent(View(), g, link) ==> g == gen
    {
      if gen != epoch || stopped {
        return false;
      }
      return connected;
    }
  }
}
