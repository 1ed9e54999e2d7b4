/**
  The load-port tracker of eap_middleware/job_tracker.py: bounded ordered maps from
  identifiers to load ports, cleared when a port is deactivated, and the lookup that
  attributes an event to a port without guessing for a named chamber.
 */
module JobTracker {
  import opened Wrappers

  const MAX_WAFER_IDS := 5000
  const MAX_LOT_IDS := 500
  const MAX_CTRL_JOBS := 500

  /** An ordered map is the list of its entries, oldest use first. */
  datatype Pair = Pair(key: string, port: string)

  // ---------- the bounded map ----------

  function Remove(m: seq<Pair>, key: string): seq<Pair> {
    if m == [] then []
    else Remove(m[..|m| - 1], key) + (if m[|m| - 1].key == key then [] else [m[|m| - 1]])
  }

  function Newest(m: seq<Pair>, cap: nat): seq<Pair> {
    if |m| <= cap then m else m[|m| - cap..]
  }

  function BoundedPut(m: seq<Pair>, key: string, port: string, cap: nat): seq<Pair> {
    Newest(Remove(m, key) + [Pair(key, port)], cap)
  }

  function Find(m: seq<Pair>, key: string): Option<string> {
    if m == [] then None
    else if m[|m| - 1].key == key then Some(m[|m| - 1].port)
    else Find(m[..|m| - 1], key)
  }

  function PutAll(puts: seq<Pair>, cap: nat): seq<Pair> {
    if puts == [] then []
    else
      var p := puts[|puts| - 1];
      BoundedPut(PutAll(puts[..|puts| - 1], cap), p.key, p.port, cap)
  }

  // ---------- the reference: last uses ----------

  /** This put is the last one of its key. */
  predicate IsLastUse(puts: seq<Pair>, i: nat)
    requires i < |puts|
  {
    forall j :: i < j < |puts| ==> puts[j].key != puts[i].key
  }

  function IfLast(puts: seq<Pair>, i: nat): seq<Pair>
    requires i < |puts|
  {
    if IsLastUse(puts, i) then [puts[i]] else []
  }

  /** The last put of every key, in the order of those puts, among the first n. */
  function LastUses(puts: seq<Pair>, n: nat): seq<Pair>
    requires n <= |puts|
  {
    if n == 0 then [] else LastUses(puts, n - 1) + IfLast(puts, n - 1)
  }

  lemma {:induction false} RemoveConcat(a: seq<Pair>, b: seq<Pair>, key: string)
    ensures Remove(a + b, key) == Remove(a, key) + Remove(b, key)
  {
    if b == [] {
      assert a + b == a;
    } else {
      var n := |b| - 1;
      RemoveConcat(a, b[..n], key);
      assert (a + b)[..|a + b| - 1] == a + b[..n];
    }
  }

  lemma {:induction false} RemoveAbsent(m: seq<Pair>, key: string)
    requires forall i :: 0 <= i < |m| ==> m[i].key != key
    ensures Remove(m, key) == m
  {
    if m != [] {
      RemoveAbsent(m[..|m| - 1], key);
    }
  }

  lemma {:induction false} Removed(m: seq<Pair>, key: string, p: Pair)
    ensures p in Remove(m, key) <==> p in m && p.key != key
    ensures |Remove(m, key)| <= |m|
  {
    if m != [] {
      Removed(m[..|m| - 1], key, p);
      assert m == m[..|m| - 1] + [m[|m| - 1]];
    }
  }

  predicate OneMore(all: seq<Pair>, puts: seq<Pair>, p: Pair) {
    all == puts + [p]
  }

  lemma IfLastSnoc(all: seq<Pair>, puts: seq<Pair>, p: Pair, i: nat)
    requires OneMore(all, puts, p) && i < |puts| < |all|
    ensures IfLast(all, i) == Remove(IfLast(puts, i), p.key)
  {
    assert all[|puts|] == p;
    assert forall j :: 0 <= j < |puts| ==> all[j] == puts[j];
    assert IsLastUse(all, i) <==> IsLastUse(puts, i) && puts[i].key != p.key;
    assert [puts[i]][..0] == [];
  }

  /** One more put moves its key to the end of the last uses. */
  lemma {:induction false} LastUsesSnoc(all: seq<Pair>, puts: seq<Pair>, p: Pair, n: nat)
    requires OneMore(all, puts, p) && n <= |puts| < |all|
    ensures LastUses(all, n) == Remove(LastUses(puts, n), p.key)
  {
    hide OneMore, Remove, IfLast;
    if n == 0 {
      RemoveAbsent([], p.key);
    } else {
      LastUsesSnoc(all, puts, p, n - 1);
      IfLastSnoc(all, puts, p, n - 1);
      RemoveConcat(LastUses(puts, n - 1), IfLast(puts, n - 1), p.key);
    }
  }

  ghost predicate DistinctKeys(m: seq<Pair>) {
    forall i, j :: 0 <= i < j < |m| ==> m[i].key != m[j].key
  }

  /** With distinct keys, a removal takes out one entry at most. */
  lemma {:induction false} RemovesAtMostOne(m: seq<Pair>, key: string)
    requires DistinctKeys(m)
    ensures |Remove(m, key)| + 1 >= |m|
  {
    if m != [] {
      var n := |m| - 1;
      if m[n].key == key {
        RemoveAbsent(m[..n], key);
      } else {
        RemovesAtMostOne(m[..n], key);
      }
    }
  }

  lemma NewestOfTail(front: seq<Pair>, tail: seq<Pair>, cap: nat)
    requires |tail| >= cap
    ensures Newest(front + tail, cap) == Newest(tail, cap)
  {
  }

  lemma DroppedStayDropped(dropped: seq<Pair>, kept: seq<Pair>, key: string, p: Pair)
    requires DistinctKeys(kept)
    ensures Newest(Remove(dropped + kept, key) + [p], |kept|) == Newest(Remove(kept, key) + [p], |kept|)
  {
    hide Remove, Newest, DistinctKeys;
    RemovesAtMostOne(kept, key);
    RemoveConcat(dropped, kept, key);
    var rest := Remove(kept, key) + [p];
    assert Remove(dropped, key) + Remove(kept, key) + [p] == Remove(dropped, key) + rest;
    NewestOfTail(Remove(dropped, key), rest, |kept|);
  }

  /** Trimming before or after a put comes to the same. */
  lemma PutTrimmed(m: seq<Pair>, key: string, port: string, cap: nat)
    requires DistinctKeys(m)
    ensures BoundedPut(Newest(m, cap), key, port, cap) == Newest(Remove(m, key) + [Pair(key, port)], cap)
  {
    hide Remove;
    if |m| > cap {
      var dropped, kept := m[..|m| - cap], Newest(m, cap);
      assert DistinctKeys(kept) && |kept| == cap;
      assert m == dropped + kept;
      hide DistinctKeys, Newest;
      DroppedStayDropped(dropped, kept, key, Pair(key, port));
    }
  }

  lemma {:induction false} LastUsesAreLast(puts: seq<Pair>, n: nat, p: Pair)
    requires n <= |puts|
    ensures p in LastUses(puts, n) <==> exists i :: 0 <= i < n && puts[i] == p && IsLastUse(puts, i)
  {
    hide IsLastUse;
    if n > 0 {
      LastUsesAreLast(puts, n - 1, p);
    }
  }

  lemma {:induction false} LastUsesDistinct(puts: seq<Pair>, n: nat)
    requires n <= |puts|
    ensures DistinctKeys(LastUses(puts, n))
  {
    if n > 0 {
      LastUsesDistinct(puts, n - 1);
      var m := LastUses(puts, n - 1);
      if IsLastUse(puts, n - 1) {
        forall i | 0 <= i < |m| ensures m[i].key != puts[n - 1].key {
          LastUsesAreLast(puts, n - 1, m[i]);
          var j :| 0 <= j < n - 1 && puts[j] == m[i] && IsLastUse(puts, j);
        }
      }
    }
  }

  lemma PutAllWithOneMore(puts: seq<Pair>, p: Pair, cap: nat)
    ensures PutAll(puts + [p], cap) == BoundedPut(PutAll(puts, cap), p.key, p.port, cap)
  {
  }

  lemma LastUsesWithOneMore(puts: seq<Pair>, p: Pair)
    ensures LastUses(puts + [p], |puts| + 1) == Remove(LastUses(puts, |puts|), p.key) + [p]
  {
    LastUsesSnoc(puts + [p], puts, p, |puts|);
    hide Remove;
    assert IfLast(puts + [p], |puts|) == [p];
  }

  /**
    A run of puts leaves exactly the last `cap` distinct keys, in the order of their
    last use, each with its latest port.
   */
  lemma {:induction false} BoundedMapIsLastUses(puts: seq<Pair>, cap: nat)
    ensures PutAll(puts, cap) == Newest(LastUses(puts, |puts|), cap)
    ensures DistinctKeys(LastUses(puts, |puts|))
  {
    LastUsesDistinct(puts, |puts|);
    if puts == [] {
      return;
    }
    var n, p := |puts| - 1, puts[|puts| - 1];
    var before := puts[..n];
    hide Remove, PutAll, DistinctKeys, Newest, BoundedPut, LastUses;
    BoundedMapIsLastUses(before, cap);
    PutAllWithOneMore(before, p, cap);
    LastUsesWithOneMore(before, p);
    assert before + [p] == puts;
    PutTrimmed(LastUses(before, n), p.key, p.port, cap);
  }

  // ---------- one machine ----------

  /** Chamber ports are a plain dictionary without a cap. */
  datatype Bindings = Bindings(
    lpHistory: seq<string>, ctrlJobs: seq<Pair>, waferPorts: seq<Pair>, lotPorts: seq<Pair>,
    chamberPorts: map<string, string>)

  /** The identifiers read from an event's data; an empty string is an absent one. */
  datatype Payload = Payload(port: string, ctrlJob: string, chamber: string, wafers: seq<string>, lots: seq<string>)

  datatype Transition =
    | Activate(lp: string)
    | Deactivate(lp: string)
    | ActivateFromPayload
    | DeactivateFromPayload
    | JobStart
    | JobEnd

  /**
    What a profile says about an event: its transition, its load port and its chamber,
    and whether the tracker is asked for the port of an event that has none.
   */
  datatype Event = Event(
    transition: Option<Transition>, data: Payload, profilePort: string, profileChamber: string, asks: bool)

  datatype Kind = Job | Wafer | Lot | Chamber

  /**
    Where the port of a binding comes from: the event or its profile states it, an
    earlier binding gives it, or it is the one active port.
   */
  datatype Evidence = Stated | Followed | Guessed

  /** The bindings, activations and deactivations of a run, in order. */
  datatype Note =
    | Bound(kind: Kind, id: string, to: string, how: Evidence)
    | Loaded(lp: string)
    | Deactivated(left: string)

  datatype Sys = Sys(b: Bindings, log: seq<Note>)

  const START := Sys(Bindings([], [], [], [], map[]), [])

  function Without(m: seq<Pair>, port: string): seq<Pair> {
    if m == [] then []
    else Without(m[..|m| - 1], port) + (if m[|m| - 1].port == port then [] else [m[|m| - 1]])
  }

  /** The only active port, if exactly one is active. */
  function ActiveLp(b: Bindings): Option<string> {
    if b.lpHistory != [] && forall i :: 0 <= i < |b.lpHistory| ==> b.lpHistory[i] == b.lpHistory[0] then
      Some(b.lpHistory[0])
    else None
  }

  function Activated(b: Bindings, lp: string): Bindings {
    if lp in b.lpHistory then b else b.(lpHistory := b.lpHistory + [lp])
  }

  function Absent(lps: seq<string>, lp: string): seq<string> {
    if lps == [] then []
    else Absent(lps[..|lps| - 1], lp) + (if lps[|lps| - 1] == lp then [] else [lps[|lps| - 1]])
  }

  function Cleared(b: Bindings, lp: string): Bindings {
    Bindings(Absent(b.lpHistory, lp), Without(b.ctrlJobs, lp), Without(b.waferPorts, lp), Without(b.lotPorts, lp),
      map c | c in b.chamberPorts && b.chamberPorts[c] != lp :: b.chamberPorts[c])
  }

  function Load(s: Sys, lp: string): Sys {
    Sys(Activated(s.b, lp), s.log + [Loaded(lp)])
  }

  function Unload(s: Sys, lp: string): Sys {
    Sys(Cleared(s.b, lp), s.log + [Deactivated(lp)])
  }

  function Put(b: Bindings, kind: Kind, id: string, port: string): Bindings {
    match kind
    case Job => b.(ctrlJobs := BoundedPut(b.ctrlJobs, id, port, MAX_CTRL_JOBS))
    case Wafer => b.(waferPorts := BoundedPut(b.waferPorts, id, port, MAX_WAFER_IDS))
    case Lot => b.(lotPorts := BoundedPut(b.lotPorts, id, port, MAX_LOT_IDS))
    case Chamber => b.(chamberPorts := b.chamberPorts[id := port])
  }

  function Bind(s: Sys, kind: Kind, id: string, port: string, how: Evidence): Sys {
    Sys(Put(s.b, kind, id, port), s.log + [Bound(kind, id, port, how)])
  }

  function BindEach(s: Sys, kind: Kind, ids: seq<string>, port: string, how: Evidence): Sys {
    if ids == [] then s
    else Bind(BindEach(s, kind, ids[..|ids| - 1], port, how), kind, ids[|ids| - 1], port, how)
  }

  function ApplyTransition(s: Sys, t: Transition, d: Payload): Sys {
    match t
    case Activate(lp) => Load(s, lp)
    case Deactivate(lp) => Unload(s, lp)
    case ActivateFromPayload => if d.port != "" then Load(s, d.port) else s
    case DeactivateFromPayload => if d.port != "" then Unload(s, d.port) else s
    case JobStart =>
      var lp := if d.port != "" then Some(d.port) else ActiveLp(s.b);
      if d.ctrlJob != "" && lp.Some? then
        Bind(s, Job, d.ctrlJob, lp.value, if d.port != "" then Stated else Guessed)
      else s
    case JobEnd =>
      if d.ctrlJob != "" then s.(b := s.b.(ctrlJobs := Remove(s.b.ctrlJobs, d.ctrlJob))) else s
  }

  function PortOf(e: Event): string {
    if e.data.port != "" then e.data.port else e.profilePort
  }

  function ChamberOf(e: Event): string {
    if e.data.chamber != "" then e.data.chamber else e.profileChamber
  }

  /** `note_resolution`: the wafers and lots an event names are bound to a port. */
  function Resolve(s: Sys, d: Payload, port: string, how: Evidence): Sys {
    BindEach(BindEach(s, Wafer, d.wafers, port, how), Lot, d.lots, port, how)
  }

  function NoteEvent(s: Sys, e: Event): Sys {
    var t := if e.transition.Some? then ApplyTransition(s, e.transition.value, e.data) else s;
    if PortOf(e) == "" then t
    else
      var r := Resolve(t, e.data, PortOf(e), Stated);
      if ChamberOf(e) == "" then r else Bind(r, Chamber, ChamberOf(e), PortOf(e), Stated)
  }

  /** "NA" in any case is the mapper's placeholder for no chamber. */
  predicate NamesChamber(chamber: string) {
    chamber != "" && chamber !in {"NA", "Na", "nA", "na"}
  }

  function FirstFound(m: seq<Pair>, ids: seq<string>): Option<string> {
    if ids == [] then None
    else if Find(m, ids[0]).Some? then Find(m, ids[0])
    else FirstFound(m, ids[1..])
  }

  function LookupLp(b: Bindings, d: Payload, chamber: string): Option<string> {
    if d.port != "" then Some(d.port)
    else if d.ctrlJob != "" && Find(b.ctrlJobs, d.ctrlJob).Some? then Find(b.ctrlJobs, d.ctrlJob)
    else if NamesChamber(chamber) && chamber in b.chamberPorts then Some(b.chamberPorts[chamber])
    else if FirstFound(b.waferPorts, d.wafers).Some? then FirstFound(b.waferPorts, d.wafers)
    else if FirstFound(b.lotPorts, d.lots).Some? then FirstFound(b.lotPorts, d.lots)
    else if NamesChamber(chamber) then None
    else ActiveLp(b)
  }

  /** Whether the lookup finds a stored binding of something the event names. */
  predicate Known(b: Bindings, d: Payload, chamber: string) {
    || (d.ctrlJob != "" && Find(b.ctrlJobs, d.ctrlJob).Some?)
    || (NamesChamber(chamber) && chamber in b.chamberPorts)
    || FirstFound(b.waferPorts, d.wafers).Some?
    || FirstFound(b.lotPorts, d.lots).Some?
  }

  /** The mapper's word for an event without a chamber is "NA". */
  function AskedChamber(e: Event): string {
    if ChamberOf(e) != "" then ChamberOf(e) else "NA"
  }

  /** The event as the mapper passes it on: the port it has resolved goes with the data. */
  function Passed(e: Event): Event {
    e.(data := e.data.(port := PortOf(e)))
  }

  /**
    The mapper's part: the event is noted; one without a port may be given one by the
    lookup; and what the event names is bound to whatever port it now has.
   */
  function MapEvent(s: Sys, e: Event): Sys {
    var t := NoteEvent(s, Passed(e));
    if PortOf(e) != "" then Resolve(t, e.data, PortOf(e), Stated)
    else
      var lp := if e.asks then LookupLp(t.b, e.data, AskedChamber(e)) else None;
      if lp.Some? && lp.value != "" then
        Resolve(t, e.data, lp.value, if Known(t.b, e.data, AskedChamber(e)) then Followed else Guessed)
      else t
  }

  function Run(es: seq<Event>): Sys {
    if es == [] then START else MapEvent(Run(es[..|es| - 1]), es[|es| - 1])
  }

  // ---------- bindings outlive no unload ----------

  predicate Holds(b: Bindings, kind: Kind, id: string, port: string) {
    match kind
    case Job => Pair(id, port) in b.ctrlJobs
    case Wafer => Pair(id, port) in b.waferPorts
    case Lot => Pair(id, port) in b.lotPorts
    case Chamber => id in b.chamberPorts && b.chamberPorts[id] == port
  }

  /** Neither an unload of the port nor a newer binding of the identifier. */
  predicate Spares(n: Note, kind: Kind, id: string, port: string) {
    match n
    case Deactivated(lp) => lp != port
    case Loaded(_) => true
    case Bound(k, i, _, _) => !(k == kind && i == id)
  }

  predicate Binds(n: Note, kind: Kind, id: string, port: string) {
    n.Bound? && n.kind == kind && n.id == id && n.to == port
  }

  /** The log binds the identifier to the port, and spares that binding from then on. */
  ghost predicate Current(log: seq<Note>, kind: Kind, id: string, port: string) {
    log != [] &&
    var n := log[|log| - 1];
    Binds(n, kind, id, port) || (Spares(n, kind, id, port) && Current(log[..|log| - 1], kind, id, port))
  }

  ghost predicate Justified(s: Sys) {
    forall kind, id, port :: Holds(s.b, kind, id, port) ==> Current(s.log, kind, id, port)
  }

  lemma {:induction false} WithoutPort(m: seq<Pair>, port: string, p: Pair)
    ensures p in Without(m, port) <==> p in m && p.port != port
  {
    if m != [] {
      WithoutPort(m[..|m| - 1], port, p);
      assert m == m[..|m| - 1] + [m[|m| - 1]];
    }
  }

  lemma PutMembers(m: seq<Pair>, key: string, port: string, cap: nat, p: Pair)
    requires p in BoundedPut(m, key, port, cap)
    ensures p == Pair(key, port) || (p in m && p.key != key)
  {
    Removed(m, key, p);
    hide Remove;
  }

  lemma CurrentSnoc(log: seq<Note>, n: Note, kind: Kind, id: string, port: string)
    requires Binds(n, kind, id, port) || (Spares(n, kind, id, port) && Current(log, kind, id, port))
    ensures Current(log + [n], kind, id, port)
  {
  }

  lemma BindJustified(s: Sys, kind: Kind, id: string, port: string, how: Evidence)
    requires Justified(s)
    ensures Justified(Bind(s, kind, id, port, how))
  {
    var u := Bind(s, kind, id, port, how);
    hide BoundedPut, Current;
    forall k, i, p | Holds(u.b, k, i, p) ensures Current(u.log, k, i, p) {
      if k == kind {
        if kind == Job {
          PutMembers(s.b.ctrlJobs, id, port, MAX_CTRL_JOBS, Pair(i, p));
        } else if kind == Wafer {
          PutMembers(s.b.waferPorts, id, port, MAX_WAFER_IDS, Pair(i, p));
        } else if kind == Lot {
          PutMembers(s.b.lotPorts, id, port, MAX_LOT_IDS, Pair(i, p));
        }
      }
      CurrentSnoc(s.log, Bound(kind, id, port, how), k, i, p);
    }
  }

  lemma {:induction false} BindEachJustified(s: Sys, kind: Kind, ids: seq<string>, port: string, how: Evidence)
    requires Justified(s)
    ensures Justified(BindEach(s, kind, ids, port, how))
  {
    if ids != [] {
      BindEachJustified(s, kind, ids[..|ids| - 1], port, how);
      BindJustified(BindEach(s, kind, ids[..|ids| - 1], port, how), kind, ids[|ids| - 1], port, how);
    }
  }

  lemma ClearedHolds(b: Bindings, lp: string, kind: Kind, id: string, port: string)
    ensures Holds(Cleared(b, lp), kind, id, port) <==> Holds(b, kind, id, port) && port != lp
  {
    WithoutPort(b.ctrlJobs, lp, Pair(id, port));
    WithoutPort(b.waferPorts, lp, Pair(id, port));
    WithoutPort(b.lotPorts, lp, Pair(id, port));
  }

  lemma UnloadJustified(s: Sys, lp: string)
    requires Justified(s)
    ensures Justified(Unload(s, lp))
  {
    var u := Unload(s, lp);
    hide Current, Cleared, Holds;
    forall k, i, p | Holds(u.b, k, i, p) ensures Current(u.log, k, i, p) {
      ClearedHolds(s.b, lp, k, i, p);
      CurrentSnoc(s.log, Deactivated(lp), k, i, p);
    }
  }

  lemma TransitionJustified(s: Sys, t: Transition, d: Payload)
    requires Justified(s)
    ensures Justified(ApplyTransition(s, t, d))
  {
    hide Current, Remove;
    match t
    case Deactivate(lp) => UnloadJustified(s, lp);
    case DeactivateFromPayload => UnloadJustified(s, d.port);
    case JobStart =>
      var lp := if d.port != "" then Some(d.port) else ActiveLp(s.b);
      if lp.Some? {
        BindJustified(s, Job, d.ctrlJob, lp.value, if d.port != "" then Stated else Guessed);
      }
    case JobEnd =>
      var u := ApplyTransition(s, t, d);
      forall k, i, p | Holds(u.b, k, i, p) ensures Current(u.log, k, i, p) {
        Removed(s.b.ctrlJobs, d.ctrlJob, Pair(i, p));
        assert Holds(s.b, k, i, p);
      }
    case Activate(lp) => LoadJustified(s, lp);
    case ActivateFromPayload => LoadJustified(s, d.port);
  }

  lemma LoadJustified(s: Sys, lp: string)
    requires Justified(s)
    ensures Justified(Load(s, lp))
  {
    hide Current;
    var u := Load(s, lp);
    forall k, i, p | Holds(u.b, k, i, p) ensures Current(u.log, k, i, p) {
      assert Holds(s.b, k, i, p);
      CurrentSnoc(s.log, Loaded(lp), k, i, p);
    }
  }

  lemma ResolveJustified(s: Sys, d: Payload, port: string, how: Evidence)
    requires Justified(s)
    ensures Justified(Resolve(s, d, port, how))
  {
    hide Justified, BindEach;
    BindEachJustified(s, Wafer, d.wafers, port, how);
    BindEachJustified(BindEach(s, Wafer, d.wafers, port, how), Lot, d.lots, port, how);
  }

  lemma NoteJustified(s: Sys, e: Event)
    requires Justified(s)
    ensures Justified(NoteEvent(s, e))
  {
    hide Justified, ApplyTransition, Bind, Resolve;
    if e.transition.Some? {
      TransitionJustified(s, e.transition.value, e.data);
    }
    var t := if e.transition.Some? then ApplyTransition(s, e.transition.value, e.data) else s;
    ResolveJustified(t, e.data, PortOf(e), Stated);
    BindJustified(Resolve(t, e.data, PortOf(e), Stated), Chamber, ChamberOf(e), PortOf(e), Stated);
  }

  /**
    In every run of events, each stored binding was made after the last unload of its
    port, and is the latest binding of its identifier.
   */
  lemma {:induction false} BindingsAreCurrent(es: seq<Event>)
    ensures Justified(Run(es))
  {
    if es != [] {
      var s, e := Run(es[..|es| - 1]), es[|es| - 1];
      BindingsAreCurrent(es[..|es| - 1]);
      hide Justified, NoteEvent, Resolve, LookupLp, Known;
      NoteJustified(s, Passed(e));
      forall port, how {
        ResolveJustified(NoteEvent(s, Passed(e)), e.data, port, how);
      }
    }
  }

  // ---------- which ports are active ----------

  /** Loaded, and not unloaded since. */
  predicate IsActive(log: seq<Note>, lp: string) {
    log != [] &&
    var n := log[|log| - 1];
    n == Loaded(lp) || (n != Deactivated(lp) && IsActive(log[..|log| - 1], lp))
  }

  ghost predicate Distinct(lps: seq<string>) {
    forall i, j :: 0 <= i < j < |lps| ==> lps[i] != lps[j]
  }

  /** The history lists each active port once, and no other. */
  ghost predicate HistoryIsActive(s: Sys) {
    Distinct(s.b.lpHistory) && forall lp :: lp in s.b.lpHistory <==> IsActive(s.log, lp)
  }

  lemma {:induction false} AbsentExactly(lps: seq<string>, lp: string, x: string)
    ensures x in Absent(lps, lp) <==> x in lps && x != lp
  {
    if lps != [] {
      AbsentExactly(lps[..|lps| - 1], lp, x);
      assert lps == lps[..|lps| - 1] + [lps[|lps| - 1]];
    }
  }

  lemma {:induction false} AbsentDistinct(lps: seq<string>, lp: string)
    requires Distinct(lps)
    ensures Distinct(Absent(lps, lp))
  {
    if lps != [] {
      var n := |lps| - 1;
      AbsentDistinct(lps[..n], lp);
      AbsentExactly(lps[..n], lp, lps[n]);
      DistinctSnoc(Absent(lps[..n], lp), lps[n]);
    }
  }

  lemma DistinctSnoc(lps: seq<string>, lp: string)
    ensures Distinct(lps) && lp !in lps ==> Distinct(lps + [lp])
  {
  }

  lemma ActiveSnoc(log: seq<Note>, n: Note, lp: string)
    ensures IsActive(log + [n], lp) <==> n == Loaded(lp) || (n != Deactivated(lp) && IsActive(log, lp))
  {
    assert (log + [n])[..|log|] == log;
  }

  lemma LoadIsActive(s: Sys, lp: string)
    requires HistoryIsActive(s)
    ensures HistoryIsActive(Load(s, lp))
  {
    hide IsActive, Distinct;
    var u := Load(s, lp);
    DistinctSnoc(s.b.lpHistory, lp);
    forall x ensures x in u.b.lpHistory <==> IsActive(u.log, x) {
      ActiveSnoc(s.log, Loaded(lp), x);
    }
  }

  lemma UnloadIsActive(s: Sys, lp: string)
    requires HistoryIsActive(s)
    ensures HistoryIsActive(Unload(s, lp))
  {
    hide IsActive, Distinct, Absent, Without;
    var u := Unload(s, lp);
    AbsentDistinct(s.b.lpHistory, lp);
    forall x ensures x in u.b.lpHistory <==> IsActive(u.log, x) {
      AbsentExactly(s.b.lpHistory, lp, x);
      ActiveSnoc(s.log, Deactivated(lp), x);
    }
  }

  lemma BindIsActive(s: Sys, kind: Kind, id: string, port: string, how: Evidence)
    requires HistoryIsActive(s)
    ensures HistoryIsActive(Bind(s, kind, id, port, how))
  {
    hide BoundedPut, IsActive, Distinct;
    var u := Bind(s, kind, id, port, how);
    forall x ensures x in u.b.lpHistory <==> IsActive(u.log, x) {
      ActiveSnoc(s.log, Bound(kind, id, port, how), x);
    }
  }

  lemma {:induction false} BindEachIsActive(s: Sys, kind: Kind, ids: seq<string>, port: string, how: Evidence)
    requires HistoryIsActive(s)
    ensures HistoryIsActive(BindEach(s, kind, ids, port, how))
  {
    hide Bind, HistoryIsActive;
    if ids != [] {
      BindEachIsActive(s, kind, ids[..|ids| - 1], port, how);
      BindIsActive(BindEach(s, kind, ids[..|ids| - 1], port, how), kind, ids[|ids| - 1], port, how);
    }
  }

  lemma TransitionIsActive(s: Sys, t: Transition, d: Payload)
    requires HistoryIsActive(s)
    ensures HistoryIsActive(ApplyTransition(s, t, d))
  {
    hide Bind, Load, Unload, Remove, IsActive, Distinct;
    match t
    case Activate(lp) => LoadIsActive(s, lp);
    case Deactivate(lp) => UnloadIsActive(s, lp);
    case ActivateFromPayload => LoadIsActive(s, d.port);
    case DeactivateFromPayload => UnloadIsActive(s, d.port);
    case JobStart =>
      var lp := if d.port != "" then Some(d.port) else ActiveLp(s.b);
      if lp.Some? {
        BindIsActive(s, Job, d.ctrlJob, lp.value, if d.port != "" then Stated else Guessed);
      }
    case JobEnd =>
  }

  lemma ResolveIsActive(s: Sys, d: Payload, port: string, how: Evidence)
    requires HistoryIsActive(s)
    ensures HistoryIsActive(Resolve(s, d, port, how))
  {
    hide HistoryIsActive, BindEach;
    BindEachIsActive(s, Wafer, d.wafers, port, how);
    BindEachIsActive(BindEach(s, Wafer, d.wafers, port, how), Lot, d.lots, port, how);
  }

  lemma NoteIsActive(s: Sys, e: Event)
    requires HistoryIsActive(s)
    ensures HistoryIsActive(NoteEvent(s, e))
  {
    hide HistoryIsActive, ApplyTransition, Bind, Resolve;
    if e.transition.Some? {
      TransitionIsActive(s, e.transition.value, e.data);
    }
    var t := if e.transition.Some? then ApplyTransition(s, e.transition.value, e.data) else s;
    ResolveIsActive(t, e.data, PortOf(e), Stated);
    BindIsActive(Resolve(t, e.data, PortOf(e), Stated), Chamber, ChamberOf(e), PortOf(e), Stated);
  }

  /** In every run the active ports are exactly those loaded and not unloaded since. */
  lemma {:induction false} ActiveExactly(es: seq<Event>)
    ensures HistoryIsActive(Run(es))
  {
    hide HistoryIsActive, NoteEvent, Resolve, LookupLp, Known;
    if es == [] {
      NothingActive();
    } else {
      var s, e := Run(es[..|es| - 1]), es[|es| - 1];
      ActiveExactly(es[..|es| - 1]);
      NoteIsActive(s, Passed(e));
      forall port, how {
        ResolveIsActive(NoteEvent(s, Passed(e)), e.data, port, how);
      }
    }
  }

  lemma NothingActive()
    ensures HistoryIsActive(START)
  {
  }

  // ---------- lookup ----------

  predicate Mentions(d: Payload, chamber: string, kind: Kind, id: string) {
    match kind
    case Job => id == d.ctrlJob
    case Wafer => id in d.wafers
    case Lot => id in d.lots
    case Chamber => id == chamber
  }

  /** An identifier is found exactly when it is stored, and with a port it is stored with. */
  lemma {:induction false} FindExactly(m: seq<Pair>, key: string)
    ensures Find(m, key).Some? <==> exists port :: Pair(key, port) in m
    ensures Find(m, key).Some? ==> Pair(key, Find(m, key).value) in m
  {
    if m != [] {
      FindExactly(m[..|m| - 1], key);
      assert m == m[..|m| - 1] + [m[|m| - 1]];
      if m[|m| - 1].key == key {
        assert Pair(key, m[|m| - 1].port) in m;
      }
    }
  }

  lemma {:induction false} FirstIsStored(m: seq<Pair>, ids: seq<string>)
    ensures FirstFound(m, ids).Some? ==> exists id :: id in ids && Pair(id, FirstFound(m, ids).value) in m
  {
    if ids != [] {
      FindExactly(m, ids[0]);
      FirstIsStored(m, ids[1..]);
      if Find(m, ids[0]).Some? {
        assert ids[0] in ids;
      } else if FirstFound(m, ids).Some? {
        var id :| id in ids[1..] && Pair(id, FirstFound(m, ids).value) in m;
        assert id in ids;
      }
    }
  }

  ghost predicate Evidenced(b: Bindings, d: Payload, chamber: string, port: string) {
    exists kind, id :: Mentions(d, chamber, kind, id) && Holds(b, kind, id, port)
  }

  /** An answer other than the payload's port or the active port is a stored binding of something the event names. */
  lemma KnownIsStored(b: Bindings, d: Payload, chamber: string)
    requires d.port == "" && Known(b, d, chamber)
    ensures LookupLp(b, d, chamber).Some? && Evidenced(b, d, chamber, LookupLp(b, d, chamber).value)
  {
    FindExactly(b.ctrlJobs, d.ctrlJob);
    FirstIsStored(b.waferPorts, d.wafers);
    FirstIsStored(b.lotPorts, d.lots);
    var r := LookupLp(b, d, chamber);
    hide Find, FirstFound;
    if d.ctrlJob != "" && Find(b.ctrlJobs, d.ctrlJob).Some? {
      assert Mentions(d, chamber, Job, d.ctrlJob) && Holds(b, Job, d.ctrlJob, r.value);
    } else if NamesChamber(chamber) && chamber in b.chamberPorts {
      assert Mentions(d, chamber, Chamber, chamber) && Holds(b, Chamber, chamber, r.value);
    } else if FirstFound(b.waferPorts, d.wafers).Some? {
      var id :| id in d.wafers && Pair(id, r.value) in b.waferPorts;
      assert Mentions(d, chamber, Wafer, id) && Holds(b, Wafer, id, r.value);
    } else {
      var id :| id in d.lots && Pair(id, r.value) in b.lotPorts;
      assert Mentions(d, chamber, Lot, id) && Holds(b, Lot, id, r.value);
    }
  }

  // ---------- which binding answers ----------

  /** A chamber name is neither empty nor "NA" in any mix of cases. */
  predicate IsName(chamber: string) {
    |chamber| > 0 && !(|chamber| == 2 && chamber[0] in {'n', 'N'} && chamber[1] in {'a', 'A'})
  }

  ghost predicate HeldFor(b: Bindings, kind: Kind, id: string) {
    exists port :: Holds(b, kind, id, port)
  }

  /** The first of these that is held for any port. */
  ghost predicate FirstHeld(b: Bindings, kind: Kind, ids: seq<string>, i: nat) {
    i < |ids| && HeldFor(b, kind, ids[i]) && forall j :: 0 <= j < i ==> !HeldFor(b, kind, ids[j])
  }

  ghost predicate HoldsFirst(b: Bindings, kind: Kind, ids: seq<string>, port: string) {
    exists i: nat :: FirstHeld(b, kind, ids, i) && Holds(b, kind, ids[i], port)
  }

  ghost predicate AnyHeld(b: Bindings, kind: Kind, ids: seq<string>) {
    exists i :: 0 <= i < |ids| && HeldFor(b, kind, ids[i])
  }

  ghost predicate OnlyPort(b: Bindings, port: string) {
    port in b.lpHistory && forall other :: other in b.lpHistory ==> other == port
  }

  /**
    The port an event states comes first; then that of the job it names, if one is held;
    then that of its chamber, of its first held wafer, of its first held lot. When nothing
    it names is held, an event of a named chamber has no port, and any other the only
    active one.
   */
  ghost predicate AnswersInOrder(b: Bindings, d: Payload, chamber: string, r: Option<string>) {
    if d.port != "" then r == Some(d.port)
    else if d.ctrlJob != "" && HeldFor(b, Job, d.ctrlJob) then r.Some? && Holds(b, Job, d.ctrlJob, r.value)
    else if IsName(chamber) && HeldFor(b, Chamber, chamber) then r.Some? && Holds(b, Chamber, chamber, r.value)
    else if AnyHeld(b, Wafer, d.wafers) then r.Some? && HoldsFirst(b, Wafer, d.wafers, r.value)
    else if AnyHeld(b, Lot, d.lots) then r.Some? && HoldsFirst(b, Lot, d.lots, r.value)
    else if IsName(chamber) then r.None?
    else forall port :: r == Some(port) <==> OnlyPort(b, port)
  }

  /** The entries of these identifiers, one by one. */
  lemma {:induction false} FirstFoundExactly(m: seq<Pair>, ids: seq<string>) returns (i: nat)
    ensures i <= |ids| && forall j :: 0 <= j < i ==> Find(m, ids[j]).None?
    ensures if i < |ids| then Find(m, ids[i]).Some? && FirstFound(m, ids) == Find(m, ids[i]) else FirstFound(m, ids).None?
  {
    hide Find;
    if ids == [] || Find(m, ids[0]).Some? {
      i := 0;
    } else {
      var k := FirstFoundExactly(m, ids[1..]);
      i := k + 1;
      forall j | 0 <= j < i ensures Find(m, ids[j]).None? {
        assert j > 0 ==> ids[j] == ids[1..][j - 1];
      }
    }
  }

  /** A wafer or a lot is held exactly when the tracker finds it. */
  lemma HeldIsFound(b: Bindings, kind: Kind, id: string)
    ensures kind == Job ==> (HeldFor(b, kind, id) <==> Find(b.ctrlJobs, id).Some?)
    ensures kind == Wafer ==> (HeldFor(b, kind, id) <==> Find(b.waferPorts, id).Some?)
    ensures kind == Lot ==> (HeldFor(b, kind, id) <==> Find(b.lotPorts, id).Some?)
    ensures kind == Chamber ==> (HeldFor(b, kind, id) <==> id in b.chamberPorts)
  {
    FindExactly(b.ctrlJobs, id);
    FindExactly(b.waferPorts, id);
    FindExactly(b.lotPorts, id);
    hide Find;
    forall port ensures Holds(b, kind, id, port) ==> HeldFor(b, kind, id) {
    }
    if kind == Chamber && id in b.chamberPorts {
      assert Holds(b, kind, id, b.chamberPorts[id]);
    }
    forall port
      ensures kind == Job && Pair(id, port) in b.ctrlJobs ==> Holds(b, kind, id, port)
      ensures kind == Wafer && Pair(id, port) in b.waferPorts ==> Holds(b, kind, id, port)
      ensures kind == Lot && Pair(id, port) in b.lotPorts ==> Holds(b, kind, id, port)
    {
    }
  }

  lemma FirstHeldIsFound(b: Bindings, kind: Kind, m: seq<Pair>, ids: seq<string>)
    requires (kind == Wafer && m == b.waferPorts) || (kind == Lot && m == b.lotPorts)
    ensures AnyHeld(b, kind, ids) <==> FirstFound(m, ids).Some?
    ensures AnyHeld(b, kind, ids) ==> HoldsFirst(b, kind, ids, FirstFound(m, ids).value)
  {
    hide FirstFound, Find, HeldFor;
    var i := FirstFoundExactly(m, ids);
    forall j | 0 <= j < |ids| ensures HeldFor(b, kind, ids[j]) <==> Find(m, ids[j]).Some? {
      HeldIsFound(b, kind, ids[j]);
    }
    if i < |ids| {
      FindExactly(m, ids[i]);
      assert FirstHeld(b, kind, ids, i) && Holds(b, kind, ids[i], Find(m, ids[i]).value);
    }
  }

  lemma LookupInOrder(b: Bindings, d: Payload, chamber: string)
    ensures AnswersInOrder(b, d, chamber, LookupLp(b, d, chamber))
  {
    hide Find, FirstFound, HeldFor, AnyHeld, HoldsFirst;
    HeldIsFound(b, Job, d.ctrlJob);
    HeldIsFound(b, Chamber, chamber);
    FindExactly(b.ctrlJobs, d.ctrlJob);
    FirstHeldIsFound(b, Wafer, b.waferPorts, d.wafers);
    FirstHeldIsFound(b, Lot, b.lotPorts, d.lots);
    NamesExactly(chamber);
    OnlyPortIsActive(b);
  }

  lemma NamesExactly(chamber: string)
    ensures NamesChamber(chamber) <==> IsName(chamber)
  {
    if |chamber| == 2 {
      assert chamber == [chamber[0], chamber[1]];
    }
  }

  lemma OnlyPortIsActive(b: Bindings)
    ensures forall port :: ActiveLp(b) == Some(port) <==> OnlyPort(b, port)
  {
    forall port ensures ActiveLp(b) == Some(port) <==> OnlyPort(b, port) {
      assert forall i :: 0 <= i < |b.lpHistory| ==> b.lpHistory[i] in b.lpHistory;
    }
  }

  // ---------- a named chamber ----------

  /**
    An event with a named chamber is answered from its own payload or from a stored
    binding of something it names; the active ports have no say in it.
   */
  lemma NamedChamberIsNeverGuessed(b: Bindings, d: Payload, chamber: string, history: seq<string>)
    requires NamesChamber(chamber)
    ensures LookupLp(b.(lpHistory := history), d, chamber) == LookupLp(b, d, chamber)
    ensures var r := LookupLp(b, d, chamber);
      r.Some? ==> (d.port != "" && r.value == d.port) || Evidenced(b, d, chamber, r.value)
  {
    if d.port == "" && Known(b, d, chamber) {
      KnownIsStored(b, d, chamber);
    }
    hide Evidenced;
  }

  ghost predicate BoundSinceUnload(log: seq<Note>, d: Payload, chamber: string, port: string) {
    exists kind, id :: Mentions(d, chamber, kind, id) && Current(log, kind, id, port)
  }

  /** So after any run, such an answer was bound by an event since that port was last unloaded. */
  lemma NamedChamberAnswersAreCurrent(es: seq<Event>, d: Payload, chamber: string)
    requires NamesChamber(chamber) && d.port == ""
    ensures var s := Run(es);
      LookupLp(s.b, d, chamber).Some? ==> BoundSinceUnload(s.log, d, chamber, LookupLp(s.b, d, chamber).value)
  {
    hide Run, LookupLp, Current, Holds, Mentions;
    var s := Run(es);
    BindingsAreCurrent(es);
    NamedChamberIsNeverGuessed(s.b, d, chamber, []);
    if LookupLp(s.b, d, chamber).Some? {
      var kind, id :| Mentions(d, chamber, kind, id) && Holds(s.b, kind, id, LookupLp(s.b, d, chamber).value);
    }
  }

  ghost predicate OnlyActive(log: seq<Note>, lp: string) {
    IsActive(log, lp) && forall x :: IsActive(log, x) ==> x == lp
  }

  /**
    An event that names nothing is given a port exactly when that port, and no other,
    has been loaded and not unloaded since.
   */
  lemma LonePortIsTheGuess(es: seq<Event>, chamber: string, lp: string)
    requires !NamesChamber(chamber)
    ensures var s := Run(es);
      LookupLp(s.b, Payload("", "", "", [], []), chamber) == Some(lp) <==> OnlyActive(s.log, lp)
  {
    hide Run, IsActive, Find;
    var s := Run(es);
    ActiveExactly(es);
    var h := s.b.lpHistory;
    assert forall i :: 0 <= i < |h| ==> IsActive(s.log, h[i]);
    if OnlyActive(s.log, lp) {
      assert lp in h;
    }
  }

  // ---------- an unload event may bind again ----------

  predicate Unloads(e: Event, lp: string) {
    e.transition == Some(Deactivate(lp)) || (e.transition == Some(DeactivateFromPayload) && PortOf(e) == lp)
  }

  predicate NamesNothing(e: Event) {
    e.data.wafers == [] && e.data.lots == [] && ChamberOf(e) == ""
  }

  ghost predicate NothingHeldFor(b: Bindings, lp: string) {
    forall kind, id :: !Holds(b, kind, id, lp)
  }

  lemma PutIsLast(m: seq<Pair>, key: string, port: string, cap: nat)
    requires cap > 0
    ensures Pair(key, port) in BoundedPut(m, key, port, cap)
  {
    hide Remove;
    var put := BoundedPut(m, key, port, cap);
    assert put[|put| - 1] == Pair(key, port);
  }

  lemma BoundIsHeld(s: Sys, kind: Kind, id: string, port: string, how: Evidence)
    ensures Holds(Bind(s, kind, id, port, how).b, kind, id, port)
  {
    hide BoundedPut;
    PutIsLast(s.b.ctrlJobs, id, port, MAX_CTRL_JOBS);
    PutIsLast(s.b.waferPorts, id, port, MAX_WAFER_IDS);
    PutIsLast(s.b.lotPorts, id, port, MAX_LOT_IDS);
  }

  lemma OneElsewhere(s: Sys, kind: Kind, id: string, port: string, how: Evidence, lp: string)
    requires NothingHeldFor(s.b, lp) && port != lp
    ensures NothingHeldFor(Bind(s, kind, id, port, how).b, lp)
  {
    var u := Bind(s, kind, id, port, how);
    hide BoundedPut;
    forall k, i ensures !Holds(u.b, k, i, lp) {
      if Holds(u.b, k, i, lp) && k == kind && kind != Chamber {
        match kind {
          case Job => PutMembers(s.b.ctrlJobs, id, port, MAX_CTRL_JOBS, Pair(i, lp));
          case Wafer => PutMembers(s.b.waferPorts, id, port, MAX_WAFER_IDS, Pair(i, lp));
          case Lot => PutMembers(s.b.lotPorts, id, port, MAX_LOT_IDS, Pair(i, lp));
        }
      }
      assert !Holds(s.b, k, i, lp);
    }
  }

  lemma {:induction false} EachElsewhere(s: Sys, kind: Kind, ids: seq<string>, port: string, how: Evidence, lp: string)
    requires NothingHeldFor(s.b, lp) && port != lp
    ensures NothingHeldFor(BindEach(s, kind, ids, port, how).b, lp)
  {
    hide Bind;
    if ids != [] {
      EachElsewhere(s, kind, ids[..|ids| - 1], port, how, lp);
      OneElsewhere(BindEach(s, kind, ids[..|ids| - 1], port, how), kind, ids[|ids| - 1], port, how, lp);
    }
  }

  lemma ResolvedElsewhere(s: Sys, d: Payload, port: string, how: Evidence, lp: string)
    requires NothingHeldFor(s.b, lp) && port != lp
    ensures NothingHeldFor(Resolve(s, d, port, how).b, lp)
  {
    hide BindEach, Holds;
    EachElsewhere(s, Wafer, d.wafers, port, how, lp);
    EachElsewhere(BindEach(s, Wafer, d.wafers, port, how), Lot, d.lots, port, how, lp);
  }

  /** The last wafer or lot the data names is held for the port afterwards. */
  lemma ResolvedIsHeld(s: Sys, d: Payload, port: string, how: Evidence)
    requires d.wafers != [] || d.lots != []
    ensures !NothingHeldFor(Resolve(s, d, port, how).b, port)
  {
    hide Bind, Holds;
    var w := BindEach(s, Wafer, d.wafers, port, how);
    if d.lots != [] {
      var n := |d.lots| - 1;
      BoundIsHeld(BindEach(w, Lot, d.lots[..n], port, how), Lot, d.lots[n], port, how);
    } else {
      var n := |d.wafers| - 1;
      BoundIsHeld(BindEach(s, Wafer, d.wafers[..n], port, how), Wafer, d.wafers[n], port, how);
    }
  }

  lemma NotedElsewhere(u: Sys, e: Event, lp: string)
    requires NothingHeldFor(u.b, lp) && PortOf(e) != lp
    ensures var r := Resolve(u, e.data, PortOf(e), Stated);
      var t := if ChamberOf(e) == "" then r else Bind(r, Chamber, ChamberOf(e), PortOf(e), Stated);
      NothingHeldFor(t.b, lp)
  {
    hide Resolve, Bind, NothingHeldFor;
    ResolvedElsewhere(u, e.data, PortOf(e), Stated, lp);
    OneElsewhere(Resolve(u, e.data, PortOf(e), Stated), Chamber, ChamberOf(e), PortOf(e), Stated, lp);
  }

  /** What an event that names something leaves bound to its port, noted and resolved. */
  lemma NamedIsHeld(u: Sys, e: Event, port: string)
    requires !NamesNothing(e)
    ensures var r := Resolve(u, e.data, port, Stated);
      var t := if ChamberOf(e) == "" then r else Bind(r, Chamber, ChamberOf(e), port, Stated);
      !NothingHeldFor(Resolve(t, e.data, port, Stated).b, port)
  {
    var r := Resolve(u, e.data, port, Stated);
    var t := if ChamberOf(e) == "" then r else Bind(r, Chamber, ChamberOf(e), port, Stated);
    if e.data.wafers != [] || e.data.lots != [] {
      ResolvedIsHeld(t, e.data, port, Stated);
    } else {
      hide Holds, Bind;
      BoundIsHeld(r, Chamber, ChamberOf(e), port, Stated);
    }
  }

  /** The port the mapper gives an event without one is never a port that was just unloaded. */
  lemma GivenElsewhere(b: Bindings, d: Payload, chamber: string, lp: string)
    requires NothingHeldFor(b, lp) && lp !in b.lpHistory && d.port == ""
    ensures LookupLp(b, d, chamber) != Some(lp)
  {
    var r := LookupLp(b, d, chamber);
    if Known(b, d, chamber) {
      KnownIsStored(b, d, chamber);
      var kind, id :| Mentions(d, chamber, kind, id) && Holds(b, kind, id, r.value);
      assert !Holds(b, kind, id, lp);
    }
  }

  lemma UnloadClears(s: Sys, lp: string)
    ensures NothingHeldFor(Unload(s, lp).b, lp) && lp !in Unload(s, lp).b.lpHistory
  {
    forall kind, id ensures !Holds(Unload(s, lp).b, kind, id, lp) {
      ClearedHolds(s.b, lp, kind, id, lp);
    }
    AbsentExactly(s.b.lpHistory, lp, lp);
  }

  /**
    A carrier that leaves should leave no binding behind. That is so exactly when the
    unload event itself resolves to another port, or to none, or names no wafer, lot
    or chamber: an unload event that does is noted after the clearing, and binds anew.
   */
  lemma UnloadLeavesNothingExactly(s: Sys, e: Event, lp: string)
    requires Unloads(e, lp) && lp != ""
    ensures NothingHeldFor(MapEvent(s, e).b, lp) <==> PortOf(e) != lp || NamesNothing(e)
  {
    var q, u := Passed(e), Unload(s, lp);
    var t, port := NoteEvent(s, q), PortOf(e);
    assert ApplyTransition(s, q.transition.value, q.data) == u;
    UnloadClears(s, lp);
    if port == lp {
      hide Holds, Unload, LookupLp;
      if !NamesNothing(e) {
        NamedIsHeld(u, e, lp);
      }
    } else {
      hide Holds, Unload, Resolve, Bind, NothingHeldFor, LookupLp, Known;
      NotedElsewhere(u, e, lp);
      if port == "" {
        GivenElsewhere(u.b, e.data, AskedChamber(e), lp);
      }
      forall to, how | to != lp {
        ResolvedElsewhere(t, e.data, to, how, lp);
      }
    }
  }

  /** SPTS CassetteComplete, CEID 852: it unloads port 1 and carries a cassette, its port and its lot. */
  function CassetteComplete(lot: string): Event {
    Event(Some(Deactivate("1")), Payload("1", "", "", [], [lot]), "", "", false)
  }

  lemma OneLotResolves(s: Sys, d: Payload, lot: string, port: string)
    requires d.wafers == [] && d.lots == [lot]
    ensures Resolve(s, d, port, Stated) == Bind(s, Lot, lot, port, Stated)
  {
    hide Bind;
    assert [lot][..0] == [];
    assert BindEach(s, Lot, [lot][..0], port, Stated) == s;
  }

  /** So the lot of every cassette completed on port 1 is bound to that port again, whatever came before. */
  lemma CompletedCassetteStaysBound(s: Sys, lot: string)
    ensures var u := MapEvent(s, CassetteComplete(lot)); Holds(u.b, Lot, lot, "1") && "1" !in u.b.lpHistory
  {
    var e := CassetteComplete(lot);
    var u := Unload(s, "1");
    assert Passed(e) == e && PortOf(e) == "1" && ChamberOf(e) == "";
    UnloadClears(s, "1");
    hide Unload, BoundedPut;
    var w := Bind(u, Lot, lot, "1", Stated);
    OneLotResolves(u, e.data, lot, "1");
    OneLotResolves(w, e.data, lot, "1");
    BoundIsHeld(w, Lot, lot, "1", Stated);
  }

  // ---------- where bindings come from ----------

  /** The event whose mapping wrote note `pos` of the run's log states the port. */
  ghost predicate MadeStating(es: seq<Event>, pos: nat, port: string) {
    es != [] &&
    var n := |es| - 1;
    if pos >= |Run(es[..n]).log| then PortOf(es[n]) == port else MadeStating(es[..n], pos, port)
  }

  /** A binding to a port stated by the event that made it, or to the one port active at the time. */
  ghost predicate IsRoot(n: Note, before: seq<Note>, es: seq<Event>, port: string) {
    && n.Bound? && n.to == port
    && (n.how == Stated ==> MadeStating(es, |before|, port))
    && (n.how == Guessed ==> OnlyActive(before, port))
    && n.how != Followed
  }

  /** Since it was last unloaded the port was bound because it was stated, or as the only active one. */
  ghost predicate Rooted(log: seq<Note>, es: seq<Event>, port: string) {
    log != [] &&
    var n := log[|log| - 1];
    || IsRoot(n, log[..|log| - 1], es, port)
    || (n != Deactivated(port) && Rooted(log[..|log| - 1], es, port))
  }

  ghost predicate AllRooted(s: Sys, es: seq<Event>) {
    forall kind, id, port :: Holds(s.b, kind, id, port) ==> Rooted(s.log, es, port)
  }

  lemma RootedSnoc(log: seq<Note>, n: Note, es: seq<Event>, port: string)
    ensures Rooted(log + [n], es, port)
      <==> IsRoot(n, log, es, port) || (n != Deactivated(port) && Rooted(log, es, port))
  {
    assert (log + [n])[..|log|] == log;
  }

  lemma {:induction false} RootedLonger(log: seq<Note>, es: seq<Event>, e: Event, port: string)
    requires Rooted(log, es, port) && |log| <= |Run(es).log|
    ensures Rooted(log, es + [e], port)
  {
    hide OnlyActive, Run;
    var n := log[|log| - 1];
    assert (es + [e])[..|es|] == es;
    if !IsRoot(n, log[..|log| - 1], es, port) {
      RootedLonger(log[..|log| - 1], es, e, port);
    }
  }

  /** The last event states the port, and `s` is reached while it is mapped. */
  ghost predicate LastStates(s: Sys, es: seq<Event>, port: string) {
    es != [] && |Run(es[..|es| - 1]).log| <= |s.log| && PortOf(es[|es| - 1]) == port
  }

  /** What may be bound: a stated port, the port of a stored binding, or the only active one. */
  ghost predicate MayBind(s: Sys, es: seq<Event>, port: string, how: Evidence) {
    match how
    case Stated => LastStates(s, es, port)
    case Followed => Rooted(s.log, es, port)
    case Guessed => OnlyActive(s.log, port)
  }

  lemma BindRooted(s: Sys, es: seq<Event>, kind: Kind, id: string, port: string, how: Evidence)
    requires AllRooted(s, es) && MayBind(s, es, port, how)
    ensures var u := Bind(s, kind, id, port, how); AllRooted(u, es) && MayBind(u, es, port, how)
  {
    hide BoundedPut, Rooted, IsActive, Run;
    var u := Bind(s, kind, id, port, how);
    var n := Bound(kind, id, port, how);
    forall p ensures Rooted(u.log, es, p) <==> IsRoot(n, s.log, es, p) || Rooted(s.log, es, p) {
      RootedSnoc(s.log, n, es, p);
    }
    forall x ensures IsActive(u.log, x) <==> IsActive(s.log, x) {
      ActiveSnoc(s.log, n, x);
    }
    forall k, i, p | Holds(u.b, k, i, p) ensures p == port || Holds(s.b, k, i, p) {
      PutHolds(s.b, kind, id, port, k, i, p);
    }
  }

  lemma PutHolds(b: Bindings, kind: Kind, id: string, port: string, k: Kind, i: string, p: string)
    requires Holds(Put(b, kind, id, port), k, i, p)
    ensures p == port || Holds(b, k, i, p)
  {
    hide BoundedPut;
    if k == kind {
      match kind
      case Job => PutMembers(b.ctrlJobs, id, port, MAX_CTRL_JOBS, Pair(i, p));
      case Wafer => PutMembers(b.waferPorts, id, port, MAX_WAFER_IDS, Pair(i, p));
      case Lot => PutMembers(b.lotPorts, id, port, MAX_LOT_IDS, Pair(i, p));
      case Chamber =>
    }
  }

  lemma {:induction false} BindEachRooted(
    s: Sys, es: seq<Event>, kind: Kind, ids: seq<string>, port: string, how: Evidence)
    requires AllRooted(s, es) && MayBind(s, es, port, how)
    ensures var u := BindEach(s, kind, ids, port, how); AllRooted(u, es) && MayBind(u, es, port, how)
  {
    hide Bind, AllRooted, MayBind;
    if ids != [] {
      BindEachRooted(s, es, kind, ids[..|ids| - 1], port, how);
      BindRooted(BindEach(s, kind, ids[..|ids| - 1], port, how), es, kind, ids[|ids| - 1], port, how);
    }
  }

  lemma ResolveRooted(s: Sys, es: seq<Event>, d: Payload, port: string, how: Evidence)
    requires AllRooted(s, es) && MayBind(s, es, port, how)
    ensures var u := Resolve(s, d, port, how); AllRooted(u, es) && MayBind(u, es, port, how)
  {
    hide BindEach, AllRooted, MayBind;
    BindEachRooted(s, es, Wafer, d.wafers, port, how);
    BindEachRooted(BindEach(s, Wafer, d.wafers, port, how), es, Lot, d.lots, port, how);
  }

  lemma LoadRooted(s: Sys, es: seq<Event>, lp: string)
    requires AllRooted(s, es)
    ensures AllRooted(Load(s, lp), es)
  {
    hide Rooted, IsRoot;
    var u := Load(s, lp);
    forall k, i, p | Holds(u.b, k, i, p) ensures Rooted(u.log, es, p) {
      assert Holds(s.b, k, i, p);
      RootedSnoc(s.log, Loaded(lp), es, p);
    }
  }

  lemma UnloadRooted(s: Sys, es: seq<Event>, lp: string)
    requires AllRooted(s, es)
    ensures AllRooted(Unload(s, lp), es)
  {
    hide Rooted, IsRoot, Cleared, Holds;
    var u := Unload(s, lp);
    forall k, i, p | Holds(u.b, k, i, p) ensures Rooted(u.log, es, p) {
      ClearedHolds(s.b, lp, k, i, p);
      RootedSnoc(s.log, Deactivated(lp), es, p);
    }
  }

  lemma LoneIsOnlyActive(s: Sys)
    requires HistoryIsActive(s)
    ensures ActiveLp(s.b).Some? ==> OnlyActive(s.log, ActiveLp(s.b).value)
  {
    hide IsActive;
    assert forall x :: x in s.b.lpHistory <==> IsActive(s.log, x);
  }

  lemma TransitionRooted(s: Sys, es: seq<Event>, t: Transition, d: Payload)
    requires AllRooted(s, es) && HistoryIsActive(s) && (d.port != "" ==> LastStates(s, es, d.port))
    ensures AllRooted(ApplyTransition(s, t, d), es)
  {
    hide AllRooted, HistoryIsActive, OnlyActive, Bind, Load, Unload, LastStates;
    match t
    case Activate(lp) => LoadRooted(s, es, lp);
    case Deactivate(lp) => UnloadRooted(s, es, lp);
    case ActivateFromPayload => LoadRooted(s, es, d.port);
    case DeactivateFromPayload => UnloadRooted(s, es, d.port);
    case JobStart =>
      LoneIsOnlyActive(s);
      var lp := if d.port != "" then Some(d.port) else ActiveLp(s.b);
      if lp.Some? {
        BindRooted(s, es, Job, d.ctrlJob, lp.value, if d.port != "" then Stated else Guessed);
      }
    case JobEnd => JobEndRooted(s, es, d.ctrlJob);
  }

  lemma JobEndRooted(s: Sys, es: seq<Event>, job: string)
    requires AllRooted(s, es)
    ensures AllRooted(s.(b := s.b.(ctrlJobs := Remove(s.b.ctrlJobs, job))), es)
  {
    hide Rooted, Remove;
    var u := s.(b := s.b.(ctrlJobs := Remove(s.b.ctrlJobs, job)));
    forall k, i, p | Holds(u.b, k, i, p) ensures Holds(s.b, k, i, p) {
      Removed(s.b.ctrlJobs, job, Pair(i, p));
    }
  }

  lemma NoteRooted(s: Sys, es: seq<Event>, e: Event)
    requires AllRooted(s, es) && HistoryIsActive(s) && LastStates(s, es, PortOf(e)) && e == Passed(e)
    ensures AllRooted(NoteEvent(s, e), es) && LastStates(NoteEvent(s, e), es, PortOf(e))
  {
    hide AllRooted, HistoryIsActive, ApplyTransition, Bind, Resolve, Run;
    if e.transition.Some? {
      TransitionRooted(s, es, e.transition.value, e.data);
    }
    var t := if e.transition.Some? then ApplyTransition(s, e.transition.value, e.data) else s;
    if e.transition.Some? {
      TransitionGrows(s, e.transition.value, e.data);
    }
    ResolveRooted(t, es, e.data, PortOf(e), Stated);
    BindRooted(Resolve(t, e.data, PortOf(e), Stated), es, Chamber, ChamberOf(e), PortOf(e), Stated);
  }

  lemma TransitionGrows(s: Sys, t: Transition, d: Payload)
    ensures |ApplyTransition(s, t, d).log| >= |s.log|
  {
  }

  /** A port the lookup gives may be bound: it is that of a stored binding, or the only active one. */
  lemma GivenMayBind(s: Sys, es: seq<Event>, d: Payload, chamber: string)
    requires AllRooted(s, es) && HistoryIsActive(s) && d.port == "" && LookupLp(s.b, d, chamber).Some?
    ensures MayBind(s, es, LookupLp(s.b, d, chamber).value, if Known(s.b, d, chamber) then Followed else Guessed)
  {
    hide HistoryIsActive, OnlyActive, Rooted, Holds, Mentions;
    if Known(s.b, d, chamber) {
      KnownIsStored(s.b, d, chamber);
      hide LookupLp;
      var kind, id :| Mentions(d, chamber, kind, id) && Holds(s.b, kind, id, LookupLp(s.b, d, chamber).value);
    } else {
      LoneIsOnlyActive(s);
    }
  }

  /**
    What guesses come to over runs. Every stored binding leads back to a binding made
    by an event that states its port, or to a moment since that port's last unload at which it was the
    only active port: no binding, by whatever chain of lookups, leads to a port that
    was merely one of several.
   */
  lemma {:induction false} BindingsAreRooted(es: seq<Event>)
    ensures AllRooted(Run(es), es)
  {
    if es != [] {
      var n := |es| - 1;
      var s, e := Run(es[..n]), es[n];
      BindingsAreRooted(es[..n]);
      ActiveExactly(es[..n]);
      assert es == es[..n] + [e] && PortOf(Passed(e)) == PortOf(e) && Passed(Passed(e)) == Passed(e);
      forall port | Rooted(s.log, es[..n], port) ensures Rooted(s.log, es, port) {
        RootedLonger(s.log, es[..n], e, port);
      }
      assert AllRooted(s, es) && LastStates(s, es, PortOf(e));
      NoteIsActive(s, Passed(e));
      NoteRooted(s, es, Passed(e));
      var t := NoteEvent(s, Passed(e));
      hide AllRooted, HistoryIsActive, NoteEvent, Resolve, LookupLp, Known, MayBind, LastStates;
      MappedRooted(t, es, e);
    }
  }

  /** The last part of the mapper's work on one event. */
  lemma MappedRooted(t: Sys, es: seq<Event>, e: Event)
    requires AllRooted(t, es) && HistoryIsActive(t) && LastStates(t, es, PortOf(e))
    ensures AllRooted(Resolve(t, e.data, PortOf(e), Stated), es)
    ensures var lp := LookupLp(t.b, e.data, AskedChamber(e));
      PortOf(e) == "" && lp.Some? ==>
        AllRooted(Resolve(t, e.data, lp.value, if Known(t.b, e.data, AskedChamber(e)) then Followed else Guessed), es)
  {
    hide AllRooted, HistoryIsActive, Resolve, LookupLp, Known, Rooted, OnlyActive, LastStates;
    ResolveRooted(t, es, e.data, PortOf(e), Stated);
    var lp := LookupLp(t.b, e.data, AskedChamber(e));
    if PortOf(e) == "" && lp.Some? {
      GivenMayBind(t, es, e.data, AskedChamber(e));
      ResolveRooted(t, es, e.data, lp.value, if Known(t.b, e.data, AskedChamber(e)) then Followed else Guessed);
    }
  }

  // ---------- when a guess is stored ----------

  ghost predicate HasGuess(log: seq<Note>) {
    exists k :: 0 <= k < |log| && log[k].Bound? && log[k].how == Guessed
  }

  /** A job starts without a port while one port alone is active. */
  predicate GuessesForJob(s: Sys, e: Event) {
    && e.transition == Some(JobStart) && PortOf(e) == "" && e.data.ctrlJob != ""
    && ActiveLp(s.b).Some?
  }

  /** `t` is the state once the event is noted: it names something unknown, without chamber or port, and one port is active. */
  predicate GuessesForNames(t: Sys, e: Event) {
    && PortOf(e) == "" && e.asks && (e.data.wafers != [] || e.data.lots != [])
    && !NamesChamber(AskedChamber(e)) && !Known(t.b, e.data, AskedChamber(e))
    && ActiveLp(t.b).Some? && ActiveLp(t.b).value != ""
  }

  /** What can be asked before the event is mapped: whether mapping it will store a guess. */
  predicate Guesses(s: Sys, e: Event) {
    GuessesForJob(s, e) || GuessesForNames(NoteEvent(s, Passed(e)), e)
  }

  lemma GuessSnoc(log: seq<Note>, n: Note)
    ensures HasGuess(log + [n]) <==> HasGuess(log) || (n.Bound? && n.how == Guessed)
  {
    if n.Bound? && n.how == Guessed {
      assert (log + [n])[|log|] == n;
    }
    if HasGuess(log) {
      var k :| 0 <= k < |log| && log[k].Bound? && log[k].how == Guessed;
      assert (log + [n])[k] == log[k];
    }
  }

  lemma {:induction false} BindEachGuesses(s: Sys, kind: Kind, ids: seq<string>, port: string, how: Evidence)
    ensures HasGuess(BindEach(s, kind, ids, port, how).log) <==> HasGuess(s.log) || (how == Guessed && ids != [])
  {
    hide HasGuess, Put;
    if ids != [] {
      var before := BindEach(s, kind, ids[..|ids| - 1], port, how);
      BindEachGuesses(s, kind, ids[..|ids| - 1], port, how);
      GuessSnoc(before.log, Bound(kind, ids[|ids| - 1], port, how));
    }
  }

  lemma ResolveGuesses(s: Sys, d: Payload, port: string, how: Evidence)
    ensures HasGuess(Resolve(s, d, port, how).log)
      <==> HasGuess(s.log) || (how == Guessed && (d.wafers != [] || d.lots != []))
  {
    hide HasGuess, BindEach;
    BindEachGuesses(s, Wafer, d.wafers, port, how);
    BindEachGuesses(BindEach(s, Wafer, d.wafers, port, how), Lot, d.lots, port, how);
  }

  lemma NoteGuesses(s: Sys, e: Event)
    ensures HasGuess(NoteEvent(s, Passed(e)).log) <==> HasGuess(s.log) || GuessesForJob(s, e)
  {
    hide HasGuess, Resolve, Put, Cleared, Activated, Remove;
    var q := Passed(e);
    forall n ensures HasGuess(s.log + [n]) <==> HasGuess(s.log) || (n.Bound? && n.how == Guessed) {
      GuessSnoc(s.log, n);
    }
    var t := if q.transition.Some? then ApplyTransition(s, q.transition.value, q.data) else s;
    ResolveGuesses(t, q.data, PortOf(q), Stated);
    var r := Resolve(t, q.data, PortOf(q), Stated);
    GuessSnoc(r.log, Bound(Chamber, ChamberOf(q), PortOf(q), Stated));
  }

  /** What the mapper binds for an event without a port is a guess exactly when nothing the event names is known. */
  lemma MapGuesses(s: Sys, e: Event)
    ensures HasGuess(MapEvent(s, e).log) <==> HasGuess(s.log) || Guesses(s, e)
  {
    hide HasGuess, NoteEvent, Resolve, Known, GuessesForJob, ActiveLp, Find, FirstFound;
    NoteGuesses(s, e);
    var t := NoteEvent(s, Passed(e));
    forall port, how
      ensures HasGuess(Resolve(t, e.data, port, how).log)
        <==> HasGuess(t.log) || (how == Guessed && (e.data.wafers != [] || e.data.lots != []))
    {
      ResolveGuesses(t, e.data, port, how);
    }
    if PortOf(e) == "" {
      UnknownIsGuessed(t.b, e.data, AskedChamber(e));
      hide LookupLp;
    }
  }

  /** When nothing an event names is known, a named chamber is given no port and any other the lone active one. */
  lemma UnknownIsGuessed(b: Bindings, d: Payload, chamber: string)
    requires d.port == ""
    ensures !Known(b, d, chamber) ==> LookupLp(b, d, chamber) == if NamesChamber(chamber) then None else ActiveLp(b)
  {
  }

  ghost predicate SomeGuesses(es: seq<Event>) {
    exists i :: 0 <= i < |es| && GuessesAt(es, i)
  }

  /** Event `i` meets one of the two conditions when it comes. */
  predicate GuessesAt(es: seq<Event>, i: nat) {
    i < |es| && Guesses(Run(es[..i]), es[i])
  }

  lemma SomeGuessesSnoc(es: seq<Event>)
    requires es != []
    ensures SomeGuesses(es) <==> SomeGuesses(es[..|es| - 1]) || GuessesAt(es, |es| - 1)
  {
    hide Run, Guesses;
    var n := |es| - 1;
    forall i | 0 <= i < n ensures GuessesAt(es[..n], i) <==> GuessesAt(es, i) {
      assert es[..n][..i] == es[..i];
    }
  }

  /** A run stores a guess if and only if some event of it meets one of the two conditions when it comes. */
  lemma {:induction false} GuessedExactly(es: seq<Event>)
    ensures HasGuess(Run(es).log) <==> SomeGuesses(es)
  {
    hide HasGuess, MapEvent, Guesses;
    if es == [] {
      NoGuessAtFirst();
    } else {
      var n := |es| - 1;
      GuessedExactly(es[..n]);
      MapGuesses(Run(es[..n]), es[n]);
      SomeGuessesSnoc(es);
      hide SomeGuesses;
    }
  }

  lemma NoGuessAtFirst()
    ensures !HasGuess(START.log)
  {
  }

  /** Since it was last unloaded the port was bound by an event that states it. */
  ghost predicate StatedSinceUnload(log: seq<Note>, es: seq<Event>, port: string) {
    log != [] &&
    var n := log[|log| - 1];
    || (n.Bound? && n.to == port && n.how == Stated && MadeStating(es, |log| - 1, port))
    || (n != Deactivated(port) && StatedSinceUnload(log[..|log| - 1], es, port))
  }

  lemma {:induction false} RootedWithoutGuesses(log: seq<Note>, es: seq<Event>, port: string)
    requires Rooted(log, es, port) && !HasGuess(log)
    ensures StatedSinceUnload(log, es, port)
  {
    hide MadeStating, OnlyActive;
    var n := log[|log| - 1];
    if !IsRoot(n, log[..|log| - 1], es, port) {
      assert !HasGuess(log[..|log| - 1]) by {
        GuessSnoc(log[..|log| - 1], n);
        assert log[..|log| - 1] + [n] == log;
      }
      RootedWithoutGuesses(log[..|log| - 1], es, port);
    }
  }

  /**
    So in a run without such an event a named chamber is answered only with ports that
    events have stated, for bindings they made, since the port was last unloaded.
   */
  lemma WithoutGuessesPortsAreStated(es: seq<Event>, d: Payload, chamber: string)
    requires NamesChamber(chamber) && d.port == ""
    requires !SomeGuesses(es)
    ensures var s := Run(es);
      LookupLp(s.b, d, chamber).Some? ==> StatedSinceUnload(s.log, es, LookupLp(s.b, d, chamber).value)
  {
    hide Run, LookupLp, SomeGuesses, Rooted, Holds, Mentions, HasGuess;
    var s := Run(es);
    GuessedExactly(es);
    BindingsAreRooted(es);
    NamedChamberIsNeverGuessed(s.b, d, chamber, []);
    if LookupLp(s.b, d, chamber).Some? {
      var kind, id :| Mentions(d, chamber, kind, id) && Holds(s.b, kind, id, LookupLp(s.b, d, chamber).value);
      RootedWithoutGuesses(s.log, es, LookupLp(s.b, d, chamber).value);
    }
  }

  /** A later event that names one thing the guessing event named: its job, or its last lot or wafer. */
  function AboutTheSame(s: Sys, e: Event): Payload {
    if GuessesForJob(s, e) then Payload("", e.data.ctrlJob, "", [], [])
    else if e.data.lots != [] then Payload("", "", "", [], [e.data.lots[|e.data.lots| - 1]])
    else if e.data.wafers != [] then Payload("", "", "", [e.data.wafers[|e.data.wafers| - 1]], [])
    else Payload("", "", "", [], [])
  }

  /** The port guessed: the lone active one when the job starts, or when the event has been noted. */
  function TheGuess(s: Sys, e: Event): Option<string> {
    if GuessesForJob(s, e) then ActiveLp(s.b) else ActiveLp(NoteEvent(s, Passed(e)).b)
  }

  lemma PutIsFound(m: seq<Pair>, key: string, port: string, cap: nat)
    requires cap > 0
    ensures Find(BoundedPut(m, key, port, cap), key) == Some(port)
  {
    hide Remove;
    var put := BoundedPut(m, key, port, cap);
    assert put[|put| - 1] == Pair(key, port);
  }

  lemma {:induction false} OthersUntouched(s: Sys, kind: Kind, ids: seq<string>, port: string, how: Evidence)
    ensures var b := BindEach(s, kind, ids, port, how).b;
      && (kind != Job ==> b.ctrlJobs == s.b.ctrlJobs)
      && (kind != Wafer ==> b.waferPorts == s.b.waferPorts)
      && (kind != Chamber ==> b.chamberPorts == s.b.chamberPorts)
  {
    hide BoundedPut;
    if ids != [] {
      OthersUntouched(s, kind, ids[..|ids| - 1], port, how);
    }
  }

  /** Resolving leaves jobs and chambers alone, and the last lot and the last wafer are found with the port. */
  lemma ResolvedIsFound(t: Sys, d: Payload, port: string, how: Evidence)
    ensures var b := Resolve(t, d, port, how).b;
      && b.ctrlJobs == t.b.ctrlJobs && b.chamberPorts == t.b.chamberPorts
      && (d.lots != [] ==> Find(b.lotPorts, d.lots[|d.lots| - 1]) == Some(port))
      && (d.wafers != [] ==> Find(b.waferPorts, d.wafers[|d.wafers| - 1]) == Some(port))
  {
    hide BoundedPut, Find;
    var w := BindEach(t, Wafer, d.wafers, port, how);
    OthersUntouched(t, Wafer, d.wafers, port, how);
    OthersUntouched(w, Lot, d.lots, port, how);
    if d.lots != [] {
      PutIsFound(BindEach(w, Lot, d.lots[..|d.lots| - 1], port, how).b.lotPorts, d.lots[|d.lots| - 1], port, MAX_LOT_IDS);
    }
    if d.wafers != [] {
      var n := |d.wafers| - 1;
      PutIsFound(BindEach(t, Wafer, d.wafers[..n], port, how).b.waferPorts, d.wafers[n], port, MAX_WAFER_IDS);
    }
  }

  lemma OneFound(m: seq<Pair>, id: string)
    ensures FirstFound(m, [id]) == Find(m, id) && FirstFound(m, []) == None
  {
    assert FirstFound(m, [id][1..]) == None;
  }

  /**
    And every such event is followed up: asked about the same thing next, for any named
    chamber that has no port of its own, the tracker answers with the guess.
   */
  lemma GuessAnswersNamedChambers(s: Sys, e: Event, chamber: string)
    requires Guesses(s, e) && NamesChamber(chamber)
    requires chamber !in MapEvent(s, e).b.chamberPorts
    ensures TheGuess(s, e).Some?
    ensures LookupLp(MapEvent(s, e).b, AboutTheSame(s, e), chamber) == TheGuess(s, e)
  {
    hide Find, FirstFound, BoundedPut, Known;
    var t, u := NoteEvent(s, Passed(e)), MapEvent(s, e);
    forall port, how { ResolvedIsFound(t, e.data, port, how); }
    forall m, id { OneFound(m, id); }
    UnknownIsGuessed(t.b, e.data, AskedChamber(e));
    if GuessesForJob(s, e) {
      PutIsFound(s.b.ctrlJobs, e.data.ctrlJob, ActiveLp(s.b).value, MAX_CTRL_JOBS);
    }
  }

  const ARRIVES_AT_1 := Event(Some(Activate("1")), Payload("", "", "", [], []), "1", "", false)
  const ARRIVES_AT_2 := Event(Some(Activate("2")), Payload("", "", "", [], []), "2", "", false)
  const WAFER_SEEN := Event(None, Payload("", "", "", ["W"], []), "", "", true)

  const A_GUESS := [ARRIVES_AT_1, WAFER_SEEN, ARRIVES_AT_2]

  const AFTER_THE_GUESS := Sys(
    Bindings(["1", "2"], [], [Pair("W", "1")], [], map[]),
    [Loaded("1"), Bound(Wafer, "W", "1", Guessed), Loaded("2")])

  /**
    A guess does become a binding, and then answers for a named chamber: a wafer seen
    without a chamber while port 1 alone is active is bound to port 1, and once port 2
    is active too an event of chamber PM1 about that wafer is still given port 1.
   */
  lemma GuessAnswersForAChamber()
    ensures var s := Run(A_GUESS);
      && s == AFTER_THE_GUESS
      && LookupLp(s.b, Payload("", "", "", ["W"], []), "PM1") == Some("1") && ActiveLp(s.b) == None
  {
    hide Run;
    GuessRuns();
    assert AFTER_THE_GUESS.b.lpHistory[1] != AFTER_THE_GUESS.b.lpHistory[0];
    assert ["W"][0] == "W" && Find([Pair("W", "1")], "W") == Some("1");
    assert FirstFound([Pair("W", "1")], ["W"]) == Some("1");
  }

  lemma GuessRuns()
    ensures Run(A_GUESS) == AFTER_THE_GUESS
  {
    hide Run, MapEvent;
    var one := Sys(Bindings(["1"], [], [], [], map[]), [Loaded("1")]);
    var two := Sys(Bindings(["1"], [], [Pair("W", "1")], [], map[]), [Loaded("1"), Bound(Wafer, "W", "1", Guessed)]);
    PortArrives(START, "1");
    assert Load(START, "1") == one;
    OneWaferGuessed(one);
    assert one.log + [Bound(Wafer, "W", "1", Guessed)] == two.log;
    PortArrives(two, "2");
    assert ["1"] + ["2"] == ["1", "2"] && Load(two, "2") == AFTER_THE_GUESS;
    RunSnoc([], ARRIVES_AT_1);
    RunSnoc([ARRIVES_AT_1], WAFER_SEEN);
    RunSnoc([ARRIVES_AT_1, WAFER_SEEN], ARRIVES_AT_2);
    RunNothing();
    assert [] + [ARRIVES_AT_1] == [ARRIVES_AT_1];
    assert [ARRIVES_AT_1] + [WAFER_SEEN] == [ARRIVES_AT_1, WAFER_SEEN];
    assert [ARRIVES_AT_1, WAFER_SEEN] + [ARRIVES_AT_2] == A_GUESS;
  }

  lemma RunNothing()
    ensures Run([]) == START
  {
  }

  lemma PortArrives(s: Sys, lp: string)
    requires lp != ""
    ensures MapEvent(s, Event(Some(Activate(lp)), Payload("", "", "", [], []), lp, "", false)) == Load(s, lp)
  {
    var e := Event(Some(Activate(lp)), Payload("", "", "", [], []), lp, "", false);
    hide Bind, Load;
    assert Passed(e).transition == Some(Activate(lp));
    assert Resolve(Load(s, lp), e.data, lp, Stated) == Load(s, lp);
  }

  lemma OneWaferGuessed(s: Sys)
    requires s.b == Bindings(["1"], [], [], [], map[])
    ensures MapEvent(s, WAFER_SEEN)
      == Sys(s.b.(waferPorts := [Pair("W", "1")]), s.log + [Bound(Wafer, "W", "1", Guessed)])
  {
    assert LookupLp(s.b, WAFER_SEEN.data, "NA") == Some("1") && !Known(s.b, WAFER_SEEN.data, "NA");
    assert ["W"][..0] == [];
    assert BindEach(s, Wafer, ["W"], "1", Guessed)
      == Bind(BindEach(s, Wafer, [], "1", Guessed), Wafer, "W", "1", Guessed);
    assert BoundedPut([], "W", "1", MAX_WAFER_IDS) == [Pair("W", "1")];
  }

  lemma RunSnoc(es: seq<Event>, e: Event)
    ensures Run(es + [e]) == MapEvent(Run(es), e)
  {
  }

  // ---------- the tracker as an object ----------

  lemma FrontDropped(m: seq<Pair>, cap: nat)
    requires |m| > cap
    ensures Newest(m[1..], cap) == Newest(m, cap)
  {
  }

  /** The bounded put as the source makes it: move to the end, write, pop from the front. */
  method PutBounded(m: seq<Pair>, key: string, port: string, cap: nat) returns (r: seq<Pair>)
    ensures r == BoundedPut(m, key, port, cap)
  {
    r := Remove(m, key) + [Pair(key, port)];
    ghost var whole := r;
    while |r| > cap
      invariant Newest(r, cap) == Newest(whole, cap)
    {
      FrontDropped(r, cap);
      r := r[1..];
    }
  }

  class MachineState {
    var lpHistory: seq<string>
    var ctrlJobs: seq<Pair>
    var waferPorts: seq<Pair>
    var lotPorts: seq<Pair>
    var chamberPorts: map<string, string>
    ghost var log: seq<Note>

    constructor ()
      ensures View() == START
    {
      lpHistory, ctrlJobs, waferPorts, lotPorts, chamberPorts := [], [], [], [], map[];
      log := [];
    }

    function Abs(): Bindings
      reads this
    {
      Bindings(lpHistory, ctrlJobs, waferPorts, lotPorts, chamberPorts)
    }

    ghost function View(): Sys
      reads this
    {
      Sys(Abs(), log)
    }

    method ActivatePort(lp: string)
      modifies this
      ensures View() == Load(old(View()), lp)
      ensures forall x :: x in lpHistory <==> x in old(lpHistory) || x == lp
      ensures HistoryIsActive(old(View())) ==> HistoryIsActive(View())
      ensures forall kind, id, port :: Holds(Abs(), kind, id, port) <==> Holds(old(Abs()), kind, id, port)
    {
      if HistoryIsActive(View()) {
        LoadIsActive(View(), lp);
      }
      if lp !in lpHistory {
        lpHistory := lpHistory + [lp];
      }
      log := log + [Loaded(lp)];
      hide HistoryIsActive;
    }

    method Deactivate(lp: string)
      modifies this
      ensures View() == Unload(old(View()), lp)
      ensures forall x :: x in lpHistory <==> x in old(lpHistory) && x != lp
      ensures HistoryIsActive(old(View())) ==> HistoryIsActive(View())
      ensures forall kind, id, port ::
        Holds(Abs(), kind, id, port) <==> Holds(old(Abs()), kind, id, port) && port != lp
    {
      hide HistoryIsActive, Holds, Absent, Without;
      ghost var before := View();
      if HistoryIsActive(before) {
        UnloadIsActive(before, lp);
      }
      forall kind, id, port
        ensures Holds(Cleared(before.b, lp), kind, id, port) <==> Holds(before.b, kind, id, port) && port != lp
      {
        ClearedHolds(before.b, lp, kind, id, port);
      }
      forall x ensures x in Absent(before.b.lpHistory, lp) <==> x in before.b.lpHistory && x != lp {
        AbsentExactly(before.b.lpHistory, lp, x);
      }
      lpHistory := Absent(lpHistory, lp);
      ctrlJobs := Without(ctrlJobs, lp);
      waferPorts := Without(waferPorts, lp);
      lotPorts := Without(lotPorts, lp);
      chamberPorts := map c | c in chamberPorts && chamberPorts[c] != lp :: chamberPorts[c];
      log := log + [Deactivated(lp)];
      assert View() == Unload(before, lp);
    }

    method Transit(t: Transition, d: Payload)
      modifies this
      ensures View() == ApplyTransition(old(View()), t, d)
    {
      match t
      case Activate(lp) => ActivatePort(lp);
      case Deactivate(lp) => Deactivate(lp);
      case ActivateFromPayload =>
        if d.port != "" {
          ActivatePort(d.port);
        }
      case DeactivateFromPayload =>
        if d.port != "" {
          Deactivate(d.port);
        }
      case JobStart =>
        var lp := if d.port != "" then Some(d.port) else ActiveLp(Abs());
        if d.ctrlJob != "" && lp.Some? {
          ctrlJobs := PutBounded(ctrlJobs, d.ctrlJob, lp.value, MAX_CTRL_JOBS);
          log := log + [Bound(Job, d.ctrlJob, lp.value, if d.port != "" then Stated else Guessed)];
        }
      case JobEnd =>
        if d.ctrlJob != "" {
          ctrlJobs := Remove(ctrlJobs, d.ctrlJob);
        }
    }

    method NoteWafers(wafers: seq<string>, port: string, ghost how: Evidence)
      modifies this`waferPorts, this`log
      ensures View() == BindEach(old(View()), Wafer, wafers, port, how)
    {
      hide BoundedPut;
      ghost var s := View();
      var i := 0;
      while i < |wafers|
        invariant i <= |wafers|
        invariant View() == BindEach(s, Wafer, wafers[..i], port, how)
      {
        assert wafers[..i + 1][..i] == wafers[..i];
        waferPorts := PutBounded(waferPorts, wafers[i], port, MAX_WAFER_IDS);
        log := log + [Bound(Wafer, wafers[i], port, how)];
        i := i + 1;
      }
      assert wafers[..i] == wafers;
    }

    method NoteLots(lots: seq<string>, port: string, ghost how: Evidence)
      modifies this`lotPorts, this`log
      ensures View() == BindEach(old(View()), Lot, lots, port, how)
    {
      hide BoundedPut;
      ghost var s := View();
      var i := 0;
      while i < |lots|
        invariant i <= |lots|
        invariant View() == BindEach(s, Lot, lots[..i], port, how)
      {
        assert lots[..i + 1][..i] == lots[..i];
        lotPorts := PutBounded(lotPorts, lots[i], port, MAX_LOT_IDS);
        log := log + [Bound(Lot, lots[i], port, how)];
        i := i + 1;
      }
      assert lots[..i] == lots;
    }

    method NoteResolution(d: Payload, port: string, ghost how: Evidence)
      modifies this
      ensures View() == Resolve(old(View()), d, port, how)
    {
      NoteWafers(d.wafers, port, how);
      NoteLots(d.lots, port, how);
    }

    method Note(e: Event)
      modifies this
      ensures View() == NoteEvent(old(View()), e)
    {
      hide ApplyTransition, Resolve;
      if e.transition.Some? {
        Transit(e.transition.value, e.data);
      }
      var port, chamber := PortOf(e), ChamberOf(e);
      if port == "" {
        return;
      }
      NoteResolution(e.data, port, Stated);
      if chamber != "" {
        chamberPorts := chamberPorts[chamber := port];
        log := log + [Bound(Chamber, chamber, port, Stated)];
      }
    }

    method Lookup(d: Payload, chamber: string) returns (lp: Option<string>)
      ensures lp == LookupLp(Abs(), d, chamber)
      ensures AnswersInOrder(Abs(), d, chamber, lp)
    {
      hide Find, AnswersInOrder;
      LookupInOrder(Abs(), d, chamber);
      if d.port != "" {
        return Some(d.port);
      }
      if d.ctrlJob != "" && Find(ctrlJobs, d.ctrlJob).Some? {
        return Find(ctrlJobs, d.ctrlJob);
      }
      if NamesChamber(chamber) && chamber in chamberPorts {
        return Some(chamberPorts[chamber]);
      }
      lp := FirstIn(waferPorts, d.wafers);
      if lp.Some? {
        return lp;
      }
      lp := FirstIn(lotPorts, d.lots);
      if lp.Some? {
        return lp;
      }
      return if NamesChamber(chamber) then None else ActiveLp(Abs());
    }

    static method FirstIn(m: seq<Pair>, ids: seq<string>) returns (lp: Option<string>)
      ensures lp == FirstFound(m, ids)
    {
      var i := 0;
      while i < |ids|
        invariant i <= |ids|
        invariant FirstFound(m, ids) == FirstFound(m, ids[i..])
      {
        assert ids[i..][1..] == ids[i + 1..];
        if Find(m, ids[i]).Some? {
          return Find(m, ids[i]);
        }
        i := i + 1;
      }
      return None;
    }
  }

  /** The mapper's use of the tracker for one event, and the load port the event is given. */
  method FromMergedEvent(state: MachineState, e: Event) returns (port: string)
    modifies state
    ensures state.View() == MapEvent(old(state.View()), e)
    ensures PortOf(e) != "" ==> port == PortOf(e)
    ensures PortOf(e) == "" && !e.asks ==> port == ""
    ensures PortOf(e) == "" && e.asks ==>
      exists r ::
        && AnswersInOrder(NoteEvent(old(state.View()), Passed(e)).b, e.data, AskedChamber(e), r)
        && port == if r.Some? then r.value else ""
    ensures PortOf(e) == "" && NamesChamber(AskedChamber(e)) && port != "" ==>
      Evidenced(NoteEvent(old(state.View()), Passed(e)).b, e.data, AskedChamber(e), port)
  {
    hide NoteEvent, Resolve, LookupLp, Known, Evidenced, AnswersInOrder;
    state.Note(Passed(e));
    port := PortOf(e);
    ghost var how := Stated;
    if port == "" && e.asks {
      how := if Known(state.Abs(), e.data, AskedChamber(e)) then Followed else Guessed;
      ghost var b := state.Abs();
      var lp := state.Lookup(e.data, AskedChamber(e));
      if NamesChamber(AskedChamber(e)) {
        NamedChamberIsNeverGuessed(b, e.data, AskedChamber(e), []);
      }
      if lp.Some? {
        port := lp.value;
      }
    }
    if port != "" {
      state.NoteResolution(e.data, port, how);
    }
  }
}
