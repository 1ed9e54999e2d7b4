/**
  The message spool of simulator/equipment.py: one producer that sends or spools,
  one drain worker that retransmits, acknowledgements that may be lost, a bounded
  spool that overwrites its oldest message, and a host that may purge it. Messages
  are numbered in the order they are produced.
 */
module Spool {
  import opened Counting

  /** What became of one send: answered, received but the answer lost, or not received. */
  datatype Sent = Answered | AnswerLost | NotReceived

  datatype Producer = Resting | Fresh(m: nat) | Sending(m: nat) | Queueing(m: nat)

  datatype Drain = Waiting | Holding(held: nat) | Acknowledged(held: nat)

  /**
    `delivered` is what the host received, in order and with repetitions. The other
    logs say where a message left for good: `confirmed` (sent directly and answered,
    or removed from the spool after its answer), `overwritten`, `purged`, `refused`.
   */
  datatype Tool = Tool(
    produced: nat, producer: Producer, spool: seq<nat>, drain: Drain, delivered: seq<nat>,
    confirmed: seq<nat>, overwritten: seq<nat>, purged: seq<nat>, refused: seq<nat>)

  const START := Tool(0, Resting, [], Waiting, [], [], [], [], [])

  datatype Config = Config(enabled: bool, limit: nat)

  datatype Step =
    | Produce
    | Check(communicating: bool)
    | Send(outcome: Sent)
    | Queue
    | Peek
    | Transmit(outcome: Sent)
    | Pop
    | Purge

  /** Dropping the oldest message when the spool is full. */
  function MakeRoom(spool: seq<nat>, limit: nat): seq<nat>
    requires limit >= 1
  {
    if |spool| >= limit then spool[1..] else spool
  }

  function Dropped(spool: seq<nat>, limit: nat): seq<nat>
    requires limit >= 1
  {
    if |spool| >= limit then [spool[0]] else []
  }

  function QueueSpooled(t: Tool, c: Config, m: nat): Tool
    requires c.limit >= 1
  {
    if !c.enabled then t.(refused := t.refused + [m], producer := Resting)
    else
      t.(spool := MakeRoom(t.spool, c.limit) + [m], producer := Resting,
         overwritten := t.overwritten + Dropped(t.spool, c.limit))
  }

  /** A step that does not apply in the current state changes nothing. */
  function Next(t: Tool, c: Config, step: Step): Tool
    requires c.limit >= 1
  {
    match step
    case Produce =>
      if t.producer == Resting then t.(produced := t.produced + 1, producer := Fresh(t.produced)) else t
    case Check(communicating) =>
      if t.producer.Fresh? then
        t.(producer := if t.spool != [] || !communicating then Queueing(t.producer.m) else Sending(t.producer.m))
      else t
    case Send(outcome) =>
      if t.producer.Sending? then
        var m := t.producer.m;
        match outcome
        case Answered => t.(producer := Resting, delivered := t.delivered + [m], confirmed := t.confirmed + [m])
        case AnswerLost => t.(producer := Queueing(m), delivered := t.delivered + [m])
        case NotReceived => t.(producer := Queueing(m))
      else t
    case Queue =>
      if t.producer.Queueing? then QueueSpooled(t, c, t.producer.m) else t
    case Peek =>
      if t.drain == Waiting && t.spool != [] then t.(drain := Holding(t.spool[0])) else t
    case Transmit(outcome) =>
      if t.drain.Holding? then
        var m := t.drain.held;
        match outcome
        case Answered => t.(drain := Acknowledged(m), delivered := t.delivered + [m])
        case AnswerLost => t.(drain := Waiting, delivered := t.delivered + [m])
        case NotReceived => t.(drain := Waiting)
      else t
    case Pop =>
      if t.drain.Acknowledged? then
        if t.spool != [] && t.spool[0] == t.drain.held then
          t.(drain := Waiting, spool := t.spool[1..], confirmed := t.confirmed + [t.drain.held])
        else t.(drain := Waiting)
      else t
    case Purge => t.(spool := [], purged := t.purged + t.spool)
  }

  function Follow(t: Tool, c: Config, steps: seq<Step>): Tool
    requires c.limit >= 1
  {
    if steps == [] then t else Next(Follow(t, c, steps[..|steps| - 1]), c, steps[|steps| - 1])
  }

  function Run(c: Config, steps: seq<Step>): Tool
    requires c.limit >= 1
  {
    Follow(START, c, steps)
  }

  // ---------- conservation ----------

  function InHand(p: Producer, m: nat): nat {
    if !p.Resting? && p.m == m then 1 else 0
  }

  /** The places a message can be in, counted. */
  function Places(t: Tool, m: nat): nat {
    InHand(t.producer, m) + Count(t.spool, m) + Count(t.confirmed, m) + Count(t.overwritten, m)
      + Count(t.purged, m) + Count(t.refused, m)
  }

  lemma SplitHead(xs: seq<nat>, m: nat)
    requires xs != []
    ensures Count(xs, m) == Count([xs[0]], m) + Count(xs[1..], m)
  {
    CountConcat([xs[0]], xs[1..], m);
    assert [xs[0]] + xs[1..] == xs;
  }

  lemma NextPlaces(t: Tool, c: Config, step: Step, m: nat)
    requires c.limit >= 1
    ensures Places(Next(t, c, step), m)
      == Places(t, m) + (if step.Produce? && t.producer == Resting && t.produced == m then 1 else 0)
  {
    hide Count;
    match step
    case Send(_) =>
      if t.producer.Sending? {
        CountConcat(t.confirmed, [t.producer.m], m);
        CountOne(t.producer.m, m);
      }
    case Queue =>
      if t.producer.Queueing? {
        var k := t.producer.m;
        CountOne(k, m);
        CountNone(m);
        CountConcat(t.refused, [k], m);
        CountConcat(MakeRoom(t.spool, c.limit), [k], m);
        CountConcat(t.overwritten, Dropped(t.spool, c.limit), m);
        if |t.spool| >= c.limit {
          SplitHead(t.spool, m);
        }
      }
    case Pop =>
      if t.drain.Acknowledged? && t.spool != [] {
        SplitHead(t.spool, m);
        CountConcat(t.confirmed, [t.drain.held], m);
      }
    case Purge =>
      CountConcat(t.purged, t.spool, m);
      CountNone(m);
    case _ =>
  }

  /**
    Nothing is lost and nothing is kept twice: in every run each produced message is
    in exactly one place - in the producer's hand, in the spool, confirmed,
    overwritten at a full spool, purged by the host, or refused with spooling off.
   */
  lemma {:induction false} ExactlyOnePlace(c: Config, steps: seq<Step>, m: nat)
    requires c.limit >= 1
    ensures var t := Run(c, steps); Places(t, m) == (if m < t.produced then 1 else 0)
  {
    if steps == [] {
      CountNone(m);
    } else {
      ExactlyOnePlace(c, steps[..|steps| - 1], m);
      NextPlaces(Run(c, steps[..|steps| - 1]), c, steps[|steps| - 1], m);
      hide Places;
    }
  }

  // ---------- what the logs mean ----------

  ghost predicate Ascending(xs: seq<nat>) {
    forall i, j :: 0 <= i < j < |xs| ==> xs[i] < xs[j]
  }

  ghost predicate Nondecreasing(xs: seq<nat>) {
    forall i, j :: 0 <= i < j < |xs| ==> xs[i] <= xs[j]
  }

  /** The spool is bounded, in production order, and older than what the producer holds. */
  ghost predicate Ordered(t: Tool, limit: nat) {
    && Ascending(t.spool) && |t.spool| <= limit
    && (forall i :: 0 <= i < |t.spool| ==> t.spool[i] < t.produced)
    && (!t.producer.Resting? ==>
          t.producer.m + 1 == t.produced && forall i :: 0 <= i < |t.spool| ==> t.spool[i] < t.producer.m)
  }

  /** Nothing is confirmed that the host did not receive. */
  ghost predicate Received(t: Tool) {
    && (forall i :: 0 <= i < |t.confirmed| ==> t.confirmed[i] in t.delivered)
    && (t.drain.Acknowledged? ==> t.drain.held in t.delivered)
  }

  ghost predicate Sound(t: Tool, limit: nat) {
    Ordered(t, limit) && Received(t)
  }

  lemma QueueOrdered(spool: seq<nat>, limit: nat, m: nat)
    requires limit >= 1 && Ascending(spool) && |spool| <= limit && forall i :: 0 <= i < |spool| ==> spool[i] < m
    ensures var q := MakeRoom(spool, limit) + [m];
      Ascending(q) && |q| <= limit && forall i :: 0 <= i < |q| ==> q[i] <= m
  {
  }

  lemma NextOrdered(t: Tool, c: Config, step: Step)
    requires c.limit >= 1 && Ordered(t, c.limit)
    ensures Ordered(Next(t, c, step), c.limit)
  {
    if step.Queue? && t.producer.Queueing? {
      QueueOrdered(t.spool, c.limit, t.producer.m);
    }
    hide MakeRoom, Dropped;
  }

  lemma NextReceived(t: Tool, c: Config, step: Step)
    requires c.limit >= 1 && Received(t)
    ensures Received(Next(t, c, step))
  {
  }

  lemma {:induction false} SoundOverRuns(c: Config, steps: seq<Step>)
    requires c.limit >= 1
    ensures Sound(Run(c, steps), c.limit)
  {
    if steps != [] {
      SoundOverRuns(c, steps[..|steps| - 1]);
      NextOrdered(Run(c, steps[..|steps| - 1]), c, steps[|steps| - 1]);
      NextReceived(Run(c, steps[..|steps| - 1]), c, steps[|steps| - 1]);
    }
  }

  // ---------- why a message is spooled ----------

  /** The message is on its way into the spool, or has been in it, or was refused by it. */
  predicate Diverted(t: Tool, m: nat) {
    t.producer == Queueing(m) || m in t.spool || m in t.overwritten || m in t.purged || m in t.refused
  }

  /** The message was held back behind others or by a dead link, or was sent and got no answer. */
  predicate Diverts(t: Tool, step: Step, m: nat) {
    match step
    case Check(communicating) => t.producer == Fresh(m) && (t.spool != [] || !communicating)
    case Send(outcome) => t.producer == Sending(m) && outcome != Answered
    case _ => false
  }

  lemma NextDiverts(t: Tool, c: Config, step: Step, m: nat)
    requires c.limit >= 1 && Diverted(Next(t, c, step), m)
    ensures Diverted(t, m) || Diverts(t, step, m)
  {
  }

  ghost predicate DivertedAt(c: Config, steps: seq<Step>, i: nat, m: nat)
    requires c.limit >= 1
  {
    i < |steps| && Diverts(Run(c, steps[..i]), steps[i], m)
  }

  /**
    Over any run a message is not sent directly only because the spool was not empty or the
    link down when it was produced, or because its own send was not answered.
   */
  lemma {:induction false} SpooledForAReason(c: Config, steps: seq<Step>, m: nat)
    requires c.limit >= 1 && Diverted(Run(c, steps), m)
    ensures exists i: nat :: DivertedAt(c, steps, i, m)
  {
    hide Next, Diverted, Diverts;
    if steps == [] {
      NothingDiverted(m);
    } else {
      var n := |steps| - 1;
      NextDiverts(Run(c, steps[..n]), c, steps[n], m);
      if Diverted(Run(c, steps[..n]), m) {
        SpooledForAReason(c, steps[..n], m);
        var i: nat :| DivertedAt(c, steps[..n], i, m);
        assert steps[..n][..i] == steps[..i];
        assert DivertedAt(c, steps, i, m);
      } else {
        assert DivertedAt(c, steps, n, m);
      }
    }
  }

  lemma NothingDiverted(m: nat)
    ensures !Diverted(START, m)
  {
  }

  /** A tool that may not spool keeps nothing and refuses what it cannot send; one that may refuses nothing. */
  lemma {:induction false} SpoolsOnlyWhenEnabled(c: Config, steps: seq<Step>)
    requires c.limit >= 1
    ensures var t := Run(c, steps);
      if c.enabled then t.refused == [] else t.spool == [] && t.overwritten == [] && t.purged == []
  {
    if steps != [] {
      SpoolsOnlyWhenEnabled(c, steps[..|steps| - 1]);
    }
  }

  /** A purge takes every spooled message and no other. */
  lemma PurgeTakesAll(c: Config, steps: seq<Step>)
    requires c.limit >= 1
    ensures var t, u := Run(c, steps), Run(c, steps + [Purge]);
      u.spool == [] && u.purged == t.purged + t.spool && u.producer == t.producer && u.drain == t.drain
  {
    assert (steps + [Purge])[..|steps|] == steps;
  }

  // ---------- overflow ----------

  ghost predicate AllOlder(gone: seq<nat>, m: nat) {
    forall i :: 0 <= i < |gone| ==> gone[i] < m
  }

  ghost predicate OlderThanAll(gone: seq<nat>, spool: seq<nat>) {
    forall j :: 0 <= j < |spool| ==> AllOlder(gone, spool[j])
  }

  /** Everything overwritten is older than everything still to be sent. */
  ghost predicate OldestGone(t: Tool) {
    && Ascending(t.overwritten) && AllOlder(t.overwritten, t.produced) && OlderThanAll(t.overwritten, t.spool)
    && (!t.producer.Resting? ==> AllOlder(t.overwritten, t.producer.m))
  }

  lemma QueueOldestGone(gone: seq<nat>, spool: seq<nat>, limit: nat, m: nat)
    requires limit >= 1 && Ascending(spool) && AllOlder(spool, m)
    requires Ascending(gone) && OlderThanAll(gone, spool) && AllOlder(gone, m)
    ensures var after := gone + Dropped(spool, limit);
      Ascending(after) && OlderThanAll(after, MakeRoom(spool, limit) + [m]) && AllOlder(after, m)
  {
  }

  lemma NextOldestGone(t: Tool, c: Config, step: Step)
    requires c.limit >= 1 && Ordered(t, c.limit) && OldestGone(t)
    ensures OldestGone(Next(t, c, step))
  {
    hide MakeRoom, Dropped, Ascending;
    if step.Queue? && t.producer.Queueing? {
      QueueOldestGone(t.overwritten, t.spool, c.limit, t.producer.m);
    }
  }

  /** A full spool overwrites its oldest message, never another. */
  lemma {:induction false} OverwritesTheOldest(c: Config, steps: seq<Step>)
    requires c.limit >= 1
    ensures OldestGone(Run(c, steps))
  {
    if steps != [] {
      OverwritesTheOldest(c, steps[..|steps| - 1]);
      SoundOverRuns(c, steps[..|steps| - 1]);
      NextOldestGone(Run(c, steps[..|steps| - 1]), c, steps[|steps| - 1]);
    }
  }

  // ---------- order ----------

  /** No purge arrives while the drain worker is about to transmit a message. */
  ghost predicate NoPurgeUnderTheDrain(c: Config, steps: seq<Step>)
    requires c.limit >= 1
  {
    forall i :: 0 <= i < |steps| && steps[i].Purge? ==> !Run(c, steps[..i]).drain.Holding?
  }

  ghost predicate NothingNewer(xs: seq<nat>, m: nat) {
    forall i :: 0 <= i < |xs| ==> xs[i] <= m
  }

  /**
    While the drain holds a message the spool is not empty, so the producer cannot
    overtake it; and nothing newer than the head has been delivered.
   */
  ghost predicate InOrder(t: Tool) {
    && Nondecreasing(t.delivered)
    && (t.drain.Holding? ==> t.spool != [] && t.drain.held <= t.spool[0] && NothingNewer(t.delivered, t.drain.held))
    && (t.spool != [] ==> NothingNewer(t.delivered, t.spool[0]))
    && (!t.producer.Resting? ==> NothingNewer(t.delivered, t.producer.m))
    && (t.producer.Sending? ==> t.spool == [])
    && (forall i :: 0 <= i < |t.delivered| ==> t.delivered[i] < t.produced)
  }

  lemma ProducerKeepsOrder(t: Tool, c: Config, step: Step)
    requires c.limit >= 1 && Ordered(t, c.limit) && InOrder(t)
    requires step.Produce? || step.Check? || step.Send? || step.Queue?
    ensures InOrder(Next(t, c, step))
  {
  }

  lemma DrainKeepsOrder(t: Tool, c: Config, step: Step)
    requires c.limit >= 1 && Ordered(t, c.limit) && InOrder(t)
    requires step.Peek? || step.Transmit? || step.Pop? || (step.Purge? && !t.drain.Holding?)
    ensures InOrder(Next(t, c, step))
  {
  }

  /**
    The host receives messages in the order they were produced, repetitions after a
    lost answer included, whatever the interleaving of producer, drain and overflow.
   */
  lemma {:induction false} DeliveryInOrder(c: Config, steps: seq<Step>)
    requires c.limit >= 1 && NoPurgeUnderTheDrain(c, steps)
    ensures var t := Run(c, steps); InOrder(t) && Nondecreasing(t.delivered)
  {
    if steps != [] {
      var n := |steps| - 1;
      forall i | 0 <= i < n && steps[..n][i].Purge? ensures !Run(c, steps[..n][..i]).drain.Holding? {
        assert steps[..n][..i] == steps[..i];
      }
      DeliveryInOrder(c, steps[..n]);
      SoundOverRuns(c, steps[..n]);
      hide Run, Sound, InOrder;
      match steps[n]
      case Produce => ProducerKeepsOrder(Run(c, steps[..n]), c, steps[n]);
      case Check(_) => ProducerKeepsOrder(Run(c, steps[..n]), c, steps[n]);
      case Send(_) => ProducerKeepsOrder(Run(c, steps[..n]), c, steps[n]);
      case Queue => ProducerKeepsOrder(Run(c, steps[..n]), c, steps[n]);
      case _ => DrainKeepsOrder(Run(c, steps[..n]), c, steps[n]);
    }
  }

  lemma FollowNothing(t: Tool, c: Config)
    requires c.limit >= 1
    ensures Follow(t, c, []) == t
  {
  }

  lemma {:induction false} FollowOn(t: Tool, c: Config, xs: seq<Step>, ys: seq<Step>)
    requires c.limit >= 1
    ensures Follow(t, c, xs + ys) == Follow(Follow(t, c, xs), c, ys)
  {
    hide Next, Follow;
    if ys == [] {
      assert xs + ys == xs;
      FollowNothing(Follow(t, c, xs), c);
    } else {
      var n := |ys| - 1;
      FollowOn(t, c, xs, ys[..n]);
      FollowSnoc(t, c, xs + ys[..n], ys[n]);
      FollowSnoc(Follow(t, c, xs), c, ys[..n], ys[n]);
      assert xs + ys == xs + ys[..n] + [ys[n]] && ys == ys[..n] + [ys[n]];
    }
  }

  lemma FollowSnoc(t: Tool, c: Config, xs: seq<Step>, x: Step)
    requires c.limit >= 1
    ensures Follow(t, c, xs + [x]) == Next(Follow(t, c, xs), c, x)
  {
  }

  lemma ThreeSteps(t: Tool, c: Config, x: Step, y: Step, z: Step)
    requires c.limit >= 1
    ensures Follow(t, c, [x, y, z]) == Next(Next(Next(t, c, x), c, y), c, z)
  {
    FollowSnoc(t, c, [], x);
    FollowSnoc(t, c, [x], y);
    FollowSnoc(t, c, [x, y], z);
    assert Follow(t, c, []) == t;
    hide Next, Follow;
    assert [] + [x] == [x] && [x] + [y] == [x, y] && [x, y] + [z] == [x, y, z];
  }

  const SPOOL_ONE := [Produce, Check(false), Queue]
  const PURGE_UNDER_THE_DRAIN := [Peek, Purge, Produce]
  const OVERTAKE := [Check(true), Send(Answered), Transmit(Answered)]

  /** The condition is needed: a purge under a held message lets a newer one overtake it. */
  lemma PurgeUnderTheDrainReorders(c: Config)
    requires c.enabled && c.limit >= 1
    ensures Run(c, SPOOL_ONE + PURGE_UNDER_THE_DRAIN + OVERTAKE).delivered == [1, 0]
  {
    hide Follow;
    ThreeSteps(START, c, Produce, Check(false), Queue);
    var one := Tool(1, Resting, [0], Waiting, [], [], [], [], []);
    assert Follow(START, c, SPOOL_ONE) == one;
    ThreeSteps(one, c, Peek, Purge, Produce);
    var under := Tool(2, Fresh(1), [], Holding(0), [], [], [], [0], []);
    assert Follow(one, c, PURGE_UNDER_THE_DRAIN) == under;
    ThreeSteps(under, c, Check(true), Send(Answered), Transmit(Answered));
    assert Follow(under, c, OVERTAKE).delivered == [1, 0];
    FollowOn(START, c, SPOOL_ONE, PURGE_UNDER_THE_DRAIN);
    FollowOn(START, c, SPOOL_ONE + PURGE_UNDER_THE_DRAIN, OVERTAKE);
  }

  /** What the drain works on was produced before anything the producer has in hand. */
  ghost predicate DrainIsOlder(t: Tool) {
    t.drain != Waiting ==> t.drain.held < t.produced && (!t.producer.Resting? ==> t.drain.held < t.producer.m)
  }

  lemma {:induction false} DrainIsOlderOverRuns(c: Config, steps: seq<Step>)
    requires c.limit >= 1
    ensures DrainIsOlder(Run(c, steps))
  {
    if steps != [] {
      DrainIsOlderOverRuns(c, steps[..|steps| - 1]);
      SoundOverRuns(c, steps[..|steps| - 1]);
      NextIsOlder(Run(c, steps[..|steps| - 1]), c, steps[|steps| - 1]);
    }
  }

  lemma NextIsOlder(t: Tool, c: Config, step: Step)
    requires c.limit >= 1 && Ordered(t, c.limit) && DrainIsOlder(t)
    ensures DrainIsOlder(Next(t, c, step))
  {
  }

  const PURGED_UNDER := [Queue, Purge, Produce]

  lemma PurgedUnderReorders(t: Tool, c: Config)
    requires c.limit >= 1 && t.drain.Holding? && DrainIsOlder(t)
    ensures !Nondecreasing(Follow(Follow(t, c, PURGED_UNDER), c, OVERTAKE).delivered)
  {
    hide Follow;
    ThreeSteps(t, c, Queue, Purge, Produce);
    var u := Follow(t, c, PURGED_UNDER);
    ThreeSteps(u, c, Check(true), Send(Answered), Transmit(Answered));
    var n := |t.delivered|;
    var after := Follow(u, c, OVERTAKE).delivered;
    assert |after| == n + 2 && after[n] > after[n + 1];
  }

  /**
    So the condition is the exact one: whatever came before, once a purge arrives
    while the drain is about to transmit, the run can go on to deliver out of order.
   */
  lemma EveryPurgeUnderTheDrainCanReorder(c: Config, steps: seq<Step>)
    requires c.limit >= 1 && Run(c, steps).drain.Holding?
    ensures !Nondecreasing(Run(c, steps + PURGED_UNDER + OVERTAKE).delivered)
  {
    hide Follow, Next;
    DrainIsOlderOverRuns(c, steps);
    PurgedUnderReorders(Run(c, steps), c);
    FollowOn(START, c, steps, PURGED_UNDER);
    FollowOn(START, c, steps + PURGED_UNDER, OVERTAKE);
  }

  // ---------- the spool as an object ----------

  datatype Drained = Drained(spool: seq<nat>, delivered: seq<nat>)

  /** The drain loop with the fates of its retransmissions, stopped early by an empty spool. */
  function Retransmit(spool: seq<nat>, fates: seq<Sent>): Drained {
    if spool == [] || fates == [] then Drained(spool, [])
    else
      var rest := Retransmit(if fates[0] == Answered then spool[1..] else spool, fates[1..]);
      if fates[0] == NotReceived then rest else rest.(delivered := [spool[0]] + rest.delivered)
  }

  function StepsOfDrain(fates: seq<Sent>): seq<Step> {
    if fates == [] then [] else [Peek, Transmit(fates[0]), Pop] + StepsOfDrain(fates[1..])
  }

  lemma OneRetransmission(t: Tool, c: Config, fate: Sent)
    requires c.limit >= 1 && t.drain == Waiting
    ensures var u := Follow(t, c, [Peek, Transmit(fate), Pop]);
      && u.drain == Waiting
      && u.spool == (if t.spool != [] && fate == Answered then t.spool[1..] else t.spool)
      && u.delivered == (if t.spool != [] && fate != NotReceived then t.delivered + [t.spool[0]] else t.delivered)
  {
    ThreeSteps(t, c, Peek, Transmit(fate), Pop);
  }

  /** The drain loop is a run of the drain's steps with nothing in between. */
  lemma {:induction false} DrainIsSteps(t: Tool, c: Config, fates: seq<Sent>)
    requires c.limit >= 1 && t.drain == Waiting
    ensures var u := Follow(t, c, StepsOfDrain(fates));
      && u.spool == Retransmit(t.spool, fates).spool
      && u.delivered == t.delivered + Retransmit(t.spool, fates).delivered
    decreases |fates|
  {
    hide Next;
    if fates != [] {
      OneRetransmission(t, c, fates[0]);
      FollowOn(t, c, [Peek, Transmit(fates[0]), Pop], StepsOfDrain(fates[1..]));
      var u := Follow(t, c, [Peek, Transmit(fates[0]), Pop]);
      hide Follow;
      DrainIsSteps(u, c, fates[1..]);
      if t.spool == [] {
        assert Retransmit(u.spool, fates[1..]) == Drained([], []);
      }
    }
  }

  function Answers(fates: seq<Sent>): nat {
    if fates == [] then 0 else (if fates[0] == Answered then 1 else 0) + Answers(fates[1..])
  }

  /** A drain removes the oldest messages, as many as were answered, and no others. */
  lemma {:induction false} DrainRemovesTheAnswered(spool: seq<nat>, fates: seq<Sent>)
    ensures var k := if Answers(fates) < |spool| then Answers(fates) else |spool|;
      Retransmit(spool, fates).spool == spool[k..]
  {
    if spool != [] && fates != [] {
      DrainRemovesTheAnswered(if fates[0] == Answered then spool[1..] else spool, fates[1..]);
    }
  }

  function After(delivered: seq<nat>, d: Drained): Drained {
    d.(delivered := delivered + d.delivered)
  }

  lemma RetransmitOne(spool: seq<nat>, fates: seq<Sent>, i: nat, delivered: seq<nat>)
    requires i < |fates| && spool != []
    ensures After(delivered, Retransmit(spool, fates[i..]))
      == After(delivered + (if fates[i] == NotReceived then [] else [spool[0]]),
           Retransmit(if fates[i] == Answered then spool[1..] else spool, fates[i + 1..]))
  {
  }

  class EquipmentSpool {
    var messages: seq<nat>
    var total: nat
    const enabled: bool
    const limit: nat

    constructor (enabled: bool, limit: nat)
      requires limit >= 1
      ensures messages == [] && total == 0 && this.enabled == enabled && this.limit == limit
    {
      this.enabled, this.limit := enabled, limit;
      messages, total := [], 0;
    }

    method Queue(m: nat) returns (retained: bool)
      requires limit >= 1
      modifies this
      ensures retained == enabled
      ensures messages == if enabled then MakeRoom(old(messages), limit) + [m] else old(messages)
      ensures total == old(total) + if enabled then 1 else 0
    {
      if !enabled {
        return false;
      }
      if |messages| >= limit {
        messages := messages[1..];
      }
      messages := messages + [m];
      total := total + 1;
      return true;
    }

    method DrainSpooled(fates: seq<Sent>) returns (delivered: seq<nat>)
      modifies this`messages
      ensures Drained(messages, delivered) == Retransmit(old(messages), fates)
    {
      delivered := [];
      var i := 0;
      while i < |fates| && messages != []
        invariant i <= |fates|
        invariant Retransmit(old(messages), fates) == After(delivered, Retransmit(messages, fates[i..]))
      {
        RetransmitOne(messages, fates, i, delivered);
        hide Retransmit, After;
        assert delivered + [] == delivered;
        var m := messages[0];
        if fates[i] != NotReceived {
          delivered := delivered + [m];
        }
        if fates[i] == Answered {
          messages := messages[1..];
        }
        i := i + 1;
      }
      assert delivered + [] == delivered;
    }
  }
}
