/**
  The load-port tracker told from the events alone: which ports are active and which
  port a chamber has after any run, what an event binds and forgets, and that no
  identifier is ever held for two ports, so that a lookup has one answer.
 */
module TrackerEvents {
  import opened Wrappers
  import opened JobTracker

  // ---------- one port for each ----------

  lemma {:induction false} CurrentIsOne(log: seq<Note>, kind: Kind, id: string, p: string, q: string)
    requires Current(log, kind, id, p) && Current(log, kind, id, q)
    ensures p == q
  {
    var n := log[|log| - 1];
    if !Binds(n, kind, id, p) && !Binds(n, kind, id, q) {
      CurrentIsOne(log[..|log| - 1], kind, id, p, q);
    }
  }

  /** After any run no job, wafer, lot or chamber is held for two ports. */
  lemma OnePortEach(es: seq<Event>, kind: Kind, id: string, p: string, q: string)
    requires Holds(Run(es).b, kind, id, p) && Holds(Run(es).b, kind, id, q)
    ensures p == q
  {
    hide Run, Holds, Current;
    BindingsAreCurrent(es);
    CurrentIsOne(Run(es).log, kind, id, p, q);
  }

  /** What the event names before its chamber does not answer. */
  ghost predicate NoJobAnswers(b: Bindings, d: Payload) {
    d.port == "" && (d.ctrlJob == "" || !HeldFor(b, Job, d.ctrlJob))
  }

  ghost predicate NoChamberAnswers(b: Bindings, d: Payload, chamber: string) {
    NoJobAnswers(b, d) && !(IsName(chamber) && HeldFor(b, Chamber, chamber))
  }

  /**
    After any run, an event without a port is given the port of the job it names, whatever
    else it names; failing that the port of its chamber; failing that the port of its first
    held wafer; failing that the port of its first held lot.
   */
  lemma LookupOverRuns(es: seq<Event>, d: Payload, chamber: string, port: string)
    ensures var b := Run(es).b; var r := LookupLp(b, d, chamber);
      && (d.port == "" && d.ctrlJob != "" && Holds(b, Job, d.ctrlJob, port) ==> r == Some(port))
      && (NoJobAnswers(b, d) && IsName(chamber) && Holds(b, Chamber, chamber, port) ==> r == Some(port))
      && (NoChamberAnswers(b, d, chamber) && HoldsFirst(b, Wafer, d.wafers, port) ==> r == Some(port))
      && (NoChamberAnswers(b, d, chamber) && !AnyHeld(b, Wafer, d.wafers) && HoldsFirst(b, Lot, d.lots, port) ==>
            r == Some(port))
  {
    hide Run, LookupLp, Holds;
    var b := Run(es).b;
    LookupInOrder(b, d, chamber);
    forall kind, id, p, q | Holds(b, kind, id, p) && Holds(b, kind, id, q) ensures p == q {
      OnePortEach(es, kind, id, p, q);
    }
    forall kind, ids, q | HoldsFirst(b, kind, ids, port) && HoldsFirst(b, kind, ids, q) ensures q == port {
      FirstIsOne(b, kind, ids, port, q);
    }
    forall kind, ids | HoldsFirst(b, kind, ids, port) ensures AnyHeld(b, kind, ids) {
    }
  }

  lemma FirstIsOne(b: Bindings, kind: Kind, ids: seq<string>, p: string, q: string)
    requires HoldsFirst(b, kind, ids, p) && HoldsFirst(b, kind, ids, q)
    requires forall id, x, y :: Holds(b, kind, id, x) && Holds(b, kind, id, y) ==> x == y
    ensures p == q
  {
    hide Holds, HeldFor;
    var i: nat :| FirstHeld(b, kind, ids, i) && Holds(b, kind, ids[i], p);
    var j: nat :| FirstHeld(b, kind, ids, j) && Holds(b, kind, ids[j], q);
    assert i == j;
  }

  // ---------- what an event says ----------

  /** The load port an event states, in its data or by its profile. */
  function StatedPort(e: Event): string {
    if e.data.port == "" then e.profilePort else e.data.port
  }

  function StatedChamber(e: Event): string {
    if e.data.chamber == "" then e.profileChamber else e.data.chamber
  }

  predicate LoadsPort(e: Event, lp: string) {
    e.transition == Some(Activate(lp)) || (e.transition == Some(ActivateFromPayload) && lp != "" && StatedPort(e) == lp)
  }

  predicate UnloadsPort(e: Event, lp: string) {
    e.transition == Some(Deactivate(lp))
    || (e.transition == Some(DeactivateFromPayload) && lp != "" && StatedPort(e) == lp)
  }

  /** The last event to load or unload the port loaded it. */
  predicate LastLoaded(es: seq<Event>, lp: string) {
    es != [] &&
    var e := es[|es| - 1];
    LoadsPort(e, lp) || (!UnloadsPort(e, lp) && LastLoaded(es[..|es| - 1], lp))
  }

  /** The port the last event of a chamber stated, unless that port was unloaded since. */
  function LastStated(es: seq<Event>, chamber: string): Option<string> {
    if es == [] then None
    else
      var e, before := es[|es| - 1], LastStated(es[..|es| - 1], chamber);
      if StatedChamber(e) == chamber && StatedPort(e) != "" then Some(StatedPort(e))
      else if before.Some? && UnloadsPort(e, before.value) then None
      else before
  }

  lemma {:induction false} EachLeavesPorts(s: Sys, kind: Kind, ids: seq<string>, port: string, how: Evidence)
    requires kind != Chamber
    ensures var u := BindEach(s, kind, ids, port, how);
      u.b.lpHistory == s.b.lpHistory && u.b.chamberPorts == s.b.chamberPorts
  {
    hide BoundedPut;
    if ids != [] {
      EachLeavesPorts(s, kind, ids[..|ids| - 1], port, how);
    }
  }

  lemma ResolveLeavesPorts(s: Sys, d: Payload, port: string, how: Evidence)
    ensures var u := Resolve(s, d, port, how);
      u.b.lpHistory == s.b.lpHistory && u.b.chamberPorts == s.b.chamberPorts
  {
    hide BindEach;
    EachLeavesPorts(s, Wafer, d.wafers, port, how);
    EachLeavesPorts(BindEach(s, Wafer, d.wafers, port, how), Lot, d.lots, port, how);
  }

  lemma MapLeavesPorts(s: Sys, e: Event)
    ensures var t, u := NoteEvent(s, Passed(e)), MapEvent(s, e);
      u.b.lpHistory == t.b.lpHistory && u.b.chamberPorts == t.b.chamberPorts
  {
    hide NoteEvent, Resolve, LookupLp, Known;
    forall port, how {
      ResolveLeavesPorts(NoteEvent(s, Passed(e)), e.data, port, how);
    }
  }

  /** What the transition of an event does to the active ports and to the port of a chamber. */
  lemma TransitionSaysPorts(s: Sys, e: Event, lp: string, chamber: string)
    requires e.transition.Some?
    ensures var b, c := s.b, ApplyTransition(s, e.transition.value, Passed(e).data).b;
      && (lp in c.lpHistory <==> LoadsPort(e, lp) || (!UnloadsPort(e, lp) && lp in b.lpHistory))
      && (chamber in c.chamberPorts && c.chamberPorts[chamber] == lp <==>
            !UnloadsPort(e, lp) && chamber in b.chamberPorts && b.chamberPorts[chamber] == lp)
  {
    hide Absent, Without, BoundedPut, Remove;
    match e.transition.value
    case Deactivate(x) => AbsentExactly(s.b.lpHistory, x, lp);
    case DeactivateFromPayload => AbsentExactly(s.b.lpHistory, StatedPort(e), lp);
    case _ =>
  }

  lemma NoTransition(e: Event, lp: string)
    requires e.transition.None?
    ensures !LoadsPort(e, lp) && !UnloadsPort(e, lp)
  {
  }

  /** What one event does to the active ports and to the port of a chamber. */
  lemma NoteSaysPorts(s: Sys, e: Event, lp: string, chamber: string)
    requires chamber != ""
    ensures var b, c := s.b, NoteEvent(s, Passed(e)).b;
      && (lp in c.lpHistory <==> LoadsPort(e, lp) || (!UnloadsPort(e, lp) && lp in b.lpHistory))
      && (chamber in c.chamberPorts && c.chamberPorts[chamber] == lp <==>
            if StatedChamber(e) == chamber && StatedPort(e) != "" then lp == StatedPort(e)
            else !UnloadsPort(e, lp) && chamber in b.chamberPorts && b.chamberPorts[chamber] == lp)
  {
    hide Resolve, ApplyTransition, LoadsPort, UnloadsPort;
    var q := Passed(e);
    var t := if q.transition.Some? then ApplyTransition(s, q.transition.value, q.data) else s;
    ResolveLeavesPorts(t, q.data, PortOf(q), Stated);
    if e.transition.Some? {
      TransitionSaysPorts(s, e, lp, chamber);
    } else {
      NoTransition(e, lp);
    }
  }

  /** After any run the active ports are those whose last transition loaded them. */
  lemma {:induction false} ActiveByEvents(es: seq<Event>, lp: string)
    ensures lp in Run(es).b.lpHistory <==> LastLoaded(es, lp)
  {
    hide NoteEvent, MapEvent, UnloadsPort, LoadsPort;
    if es != [] {
      var n := |es| - 1;
      ActiveByEvents(es[..n], lp);
      NoteSaysPorts(Run(es[..n]), es[n], lp, "PM");
      MapLeavesPorts(Run(es[..n]), es[n]);
    }
  }

  /** After any run a chamber has exactly the port its last event stated, if that was not unloaded since. */
  lemma {:induction false} ChamberByEvents(es: seq<Event>, chamber: string, port: string)
    requires chamber != ""
    ensures Holds(Run(es).b, Chamber, chamber, port) <==> LastStated(es, chamber) == Some(port)
  {
    hide NoteEvent, MapEvent, UnloadsPort, LoadsPort, StatedChamber, StatedPort;
    if es != [] {
      var n := |es| - 1;
      ChamberByEvents(es[..n], chamber, port);
      NoteSaysPorts(Run(es[..n]), es[n], port, chamber);
      MapLeavesPorts(Run(es[..n]), es[n]);
    }
  }

  // ---------- what an event binds and forgets ----------

  /** The entry is among the last `d` of the list. */
  ghost predicate Late(m: seq<Pair>, p: Pair, d: nat) {
    exists k :: 0 <= k < |m| && |m| - d <= k && m[k] == p
  }

  lemma {:induction false} RemoveKeepsLate(m: seq<Pair>, key: string, p: Pair, d: nat)
    requires Late(m, p, d) && p.key != key
    ensures Late(Remove(m, key), p, d)
  {
    var n := |m| - 1;
    var k :| 0 <= k < |m| && |m| - d <= k && m[k] == p;
    if k < n {
      assert m[..n][k] == p;
      assert Late(m[..n], p, d - 1);
      RemoveKeepsLate(m[..n], key, p, d - 1);
      var r := Remove(m[..n], key);
      var j :| 0 <= j < |r| && |r| - (d - 1) <= j && r[j] == p;
      assert Remove(m, key)[j] == p;
    } else {
      var r := Remove(m, key);
      assert r[|r| - 1] == p;
    }
  }

  /** A put leaves the late entries late by one more, and its own the last. */
  lemma PutKeepsLate(m: seq<Pair>, key: string, port: string, cap: nat, p: Pair, d: nat)
    requires d < cap
    ensures Late(BoundedPut(m, key, port, cap), Pair(key, port), 1)
    ensures Late(m, p, d) && p.key != key ==> Late(BoundedPut(m, key, port, cap), p, d + 1)
  {
    hide Remove;
    var whole := Remove(m, key) + [Pair(key, port)];
    var put := BoundedPut(m, key, port, cap);
    assert put[|put| - 1] == Pair(key, port);
    if Late(m, p, d) && p.key != key {
      RemoveKeepsLate(m, key, p, d);
      var r := Remove(m, key);
      var k :| 0 <= k < |r| && |r| - d <= k && r[k] == p;
      assert put[k + |put| - |whole|] == p;
    }
  }

  function Cap(kind: Kind): nat {
    match kind
    case Job => 500
    case Wafer => 5000
    case Lot => 500
    case Chamber => 0
  }

  function Stored(b: Bindings, kind: Kind): seq<Pair> {
    match kind
    case Job => b.ctrlJobs
    case Wafer => b.waferPorts
    case Lot => b.lotPorts
    case Chamber => []
  }

  /** Of the wafers or lots one event names, all are bound to its port but those past the capacity. */
  lemma {:induction false} EachIsHeld(s: Sys, kind: Kind, ids: seq<string>, port: string, how: Evidence, i: nat)
    requires kind in {Wafer, Lot} && i < |ids| && |ids| - i <= Cap(kind)
    ensures Late(Stored(BindEach(s, kind, ids, port, how).b, kind), Pair(ids[i], port), |ids| - i)
  {
    hide BoundedPut, Late;
    var n := |ids| - 1;
    var before := Stored(BindEach(s, kind, ids[..n], port, how).b, kind);
    if i < n {
      EachIsHeld(s, kind, ids[..n], port, how, i);
      PutKeepsLate(before, ids[n], port, Cap(kind), Pair(ids[i], port), n - i);
      if ids[i] == ids[n] {
        LateStaysLate(BoundedPut(before, ids[n], port, Cap(kind)), Pair(ids[n], port), 1, |ids| - i);
      }
    } else {
      PutKeepsLate(before, ids[n], port, Cap(kind), Pair(ids[n], port), 0);
    }
  }

  lemma LateStaysLate(m: seq<Pair>, p: Pair, d: nat, e: nat)
    requires Late(m, p, d) && d <= e
    ensures Late(m, p, e)
  {
  }

  /** Resolving to a port binds to it every wafer and lot named, up to the capacity of the maps. */
  lemma ResolveBinds(s: Sys, d: Payload, port: string, how: Evidence, i: nat)
    ensures var b := Resolve(s, d, port, how).b;
      && (i < |d.wafers| && |d.wafers| - i <= 5000 ==> Holds(b, Wafer, d.wafers[i], port))
      && (i < |d.lots| && |d.lots| - i <= 500 ==> Holds(b, Lot, d.lots[i], port))
  {
    hide BindEach;
    var w := BindEach(s, Wafer, d.wafers, port, how);
    OthersUntouched(w, Lot, d.lots, port, how);
    if i < |d.wafers| && |d.wafers| - i <= 5000 {
      EachIsHeld(s, Wafer, d.wafers, port, how, i);
    }
    if i < |d.lots| && |d.lots| - i <= 500 {
      EachIsHeld(w, Lot, d.lots, port, how, i);
    }
  }

  /**
    After an event that states a port, every wafer and lot it names is held for that port,
    up to the capacity of the maps. An event that starts a job and states a port binds the
    job to it, and the end of a job forgets the job.
   */
  lemma EventBinds(s: Sys, e: Event, i: nat)
    ensures var b, port, d := MapEvent(s, e).b, StatedPort(e), e.data;
      && (port != "" && i < |d.wafers| && |d.wafers| - i <= 5000 ==> Holds(b, Wafer, d.wafers[i], port))
      && (port != "" && i < |d.lots| && |d.lots| - i <= 500 ==> Holds(b, Lot, d.lots[i], port))
      && (e.transition == Some(JobStart) && d.ctrlJob != "" && port != "" ==> Holds(b, Job, d.ctrlJob, port))
      && (e.transition == Some(JobEnd) && d.ctrlJob != "" ==> !HeldFor(b, Job, d.ctrlJob))
  {
    hide Resolve, LookupLp, Known, NoteEvent, ApplyTransition;
    ResolveBinds(NoteEvent(s, Passed(e)), e.data, StatedPort(e), Stated, i);
    if e.transition.Some? && e.data.ctrlJob != "" {
      MapKeepsJobs(s, e);
      TransitionBindsJobs(s, e);
    }
  }

  /**
    An event that states no port is given one only if the tracker is asked: then what it
    names is held for the answer of the lookup, and without an answer nothing more is bound.
   */
  lemma AnswerBinds(s: Sys, e: Event, i: nat)
    requires StatedPort(e) == ""
    ensures var t, b, d := NoteEvent(s, Passed(e)).b, MapEvent(s, e).b, e.data;
      var answer := if e.asks then LookupLp(t, d, AskedChamber(e)) else None;
      if answer.None? || answer.value == "" then b == t
      else
        && (i < |d.wafers| && |d.wafers| - i <= 5000 ==> Holds(b, Wafer, d.wafers[i], answer.value))
        && (i < |d.lots| && |d.lots| - i <= 500 ==> Holds(b, Lot, d.lots[i], answer.value))
  {
    hide Resolve, LookupLp, Known, NoteEvent;
    forall port, how {
      ResolveBinds(NoteEvent(s, Passed(e)), e.data, port, how, i);
    }
  }

  lemma TransitionBindsJobs(s: Sys, e: Event)
    requires e.transition.Some? && e.data.ctrlJob != ""
    ensures var b, job := ApplyTransition(s, e.transition.value, Passed(e).data).b, e.data.ctrlJob;
      && (e.transition == Some(JobStart) && StatedPort(e) != "" ==> Pair(job, StatedPort(e)) in b.ctrlJobs)
      && (e.transition == Some(JobEnd) ==> forall port :: Pair(job, port) !in b.ctrlJobs)
  {
    hide BoundedPut, Remove;
    PutIsLast(s.b.ctrlJobs, e.data.ctrlJob, StatedPort(e), MAX_CTRL_JOBS);
    forall port ensures Pair(e.data.ctrlJob, port) !in Remove(s.b.ctrlJobs, e.data.ctrlJob) {
      Removed(s.b.ctrlJobs, e.data.ctrlJob, Pair(e.data.ctrlJob, port));
    }
  }

  /** After the transition of an event nothing else of it touches the jobs. */
  lemma MapKeepsJobs(s: Sys, e: Event)
    requires e.transition.Some?
    ensures MapEvent(s, e).b.ctrlJobs == ApplyTransition(s, e.transition.value, Passed(e).data).b.ctrlJobs
  {
    hide Resolve, LookupLp, Known, ApplyTransition;
    var q := Passed(e);
    var t := ApplyTransition(s, q.transition.value, q.data);
    ResolvedIsFound(t, q.data, PortOf(q), Stated);
    forall port, how {
      ResolvedIsFound(NoteEvent(s, q), e.data, port, how);
    }
  }
}
