/**
  The CSV writer and the ingress journal together, over whole runs: where every
  accepted entry is, and what a crash between any two durable calls leaves.
 */
module CsvLedger {
  import opened Wrappers
  import opened Counting
  import opened CsvStore
  import opened CsvAccounting
  import opened CsvOperations
  import J = Journal

  // ---------- the durable side ----------

  /** What survives a crash: the journal, the lot files, and the mirror queue with its finished copies. */
  datatype Durable = Durable(
    journal: J.Table, files: seq<LotFile>, queued: set<LotFile>, copied: set<LotFile>)

  function Apply(d: Durable, e: Effect): Durable {
    match e
    case FileWritten(f) => d.(files := d.files + [f])
    case MirrorQueued(f) => d.(queued := d.queued + {f})
    case CsvDone(entries) => d.(journal := J.MarkCsvDone(d.journal, entries))
    case CsvDropped(s, reason) => d.(journal := J.MarkCsvDropped(d.journal, s, reason))
    case CsvSkipped(s) => d.(journal := J.MarkCsvSkipped(d.journal, s))
  }

  function ApplyAll(d: Durable, es: seq<Effect>): Durable {
    if es == [] then d else Apply(ApplyAll(d, es[..|es| - 1]), es[|es| - 1])
  }

  // ---------- runs ----------

  datatype System = System(mem: Memory, disk: Durable)

  datatype Op =
    | Accept(identity: J.Identity, generation: int, now: real, skipCsv: bool)
    | AppendCsv(machine: Machine, event: Event, entry: Option<nat>, now: real, disk: Disk)
    | FlushEndpoint(endpoint: string, bufferKeys: seq<Key>, waitingKeys: seq<Key>, reason: string, disk: Disk)
    | FlushAll(keys: seq<Key>, reason: string, disk: Disk)
    | SinkFailed(id: nat, error: string)
    | Dispatched(id: nat, status: J.Status)
    | PurgeOld(now: real)
    | MirrorCopied(file: LotFile)

  datatype Settings = Settings(csv: Config, journal: J.Setup)

  /** What an operation does to the writer, and the durable calls it makes. */
  function Calls(m: Memory, cfg: Config, op: Op): Result {
    match op
    case AppendCsv(machine, event, entry, now, disk) => Append(m, cfg, machine, event, entry, now, disk)
    case FlushEndpoint(endpoint, bufferKeys, waitingKeys, reason, disk) =>
      FlushMachine(m, endpoint, bufferKeys, waitingKeys, reason, disk)
    case FlushAll(keys, reason, disk) => FlushKeys(m, keys, reason, disk)
    case _ => Result(m, [], false)
  }

  /** What an operation does to the durable state by itself. */
  function Direct(d: Durable, cfg: J.Setup, op: Op): Durable {
    match op
    case Accept(identity, generation, now, skipCsv) =>
      d.(journal := J.Append(
        d.journal, cfg.window, identity, generation, now, if skipCsv then J.Skipped else J.Pending).table)
    case SinkFailed(s, error) => d.(journal := J.MarkCsvFailed(d.journal, s, error))
    case Dispatched(s, status) => d.(journal := J.SetDispatch(d.journal, s, status))
    case PurgeOld(now) => d.(journal := J.PurgeOld(d.journal, now - cfg.retention))
    case MirrorCopied(f) =>
      if f in d.queued then d.(queued := d.queued - {f}, copied := d.copied + {f}) else d
    case _ => d
  }

  /** An operation runs to its end, or the process dies after its first `calls` durable calls. */
  datatype Happening = Completes(op: Op) | Crashes(op: Op, calls: nat)

  function Step(y: System, cfg: Settings, h: Happening): System {
    var r := Calls(y.mem, cfg.csv, h.op);
    match h
    case Completes(op) => System(r.mem, ApplyAll(Direct(y.disk, cfg.journal, op), r.effects))
    case Crashes(op, calls) =>
      System(EMPTY, ApplyAll(y.disk, if calls <= |r.effects| then r.effects[..calls] else r.effects))
  }

  function Run(y: System, cfg: Settings, hs: seq<Happening>): System {
    if hs == [] then y else Step(Run(y, cfg, hs[..|hs| - 1]), cfg, hs[|hs| - 1])
  }

  const START := System(EMPTY, Durable(J.EMPTY, [], {}, {}))

  // ---------- reference counts over every run ----------

  lemma EmptyCounted(s: nat)
    ensures Shape(EMPTY) && Counted(EMPTY, s) && Occurs(EMPTY, s) == 0
  {
  }

  lemma CallsKeep(m: Memory, cfg: Config, op: Op, s: nat)
    requires Shape(m) && Counted(m, s)
    ensures Keeps(m, if op.AppendCsv? && op.entry == Some(s) then 1 else 0, Calls(m, cfg, op), s)
  {
    hide Total, Contents, Count, Append, FlushMachine, FlushKeys, Occurs;
    match op
    case AppendCsv(machine, event, entry, now, disk) => AppendKeeps(m, cfg, machine, event, entry, now, disk, s);
    case FlushEndpoint(endpoint, bufferKeys, waitingKeys, reason, disk) =>
      FlushMachineKeeps(m, endpoint, bufferKeys, waitingKeys, reason, disk, s);
    case FlushAll(keys, reason, disk) => FlushKeysKeeps(m, keys, reason, disk, s);
    case _ => KeepsQuiet(m, 0, m, s);
  }

  /**
    After any run, crashes and failed writes included, the count of an entry is
    the number of its rows in memory, however many rows the entry expands to,
    and no key has both an open buffer and waiting rows.
   */
  lemma {:induction false} CountsOverRuns(cfg: Settings, hs: seq<Happening>, s: nat)
    ensures var m := Run(START, cfg, hs).mem;
      Shape(m) && Counted(m, s)
  {
    hide Calls, Occurs, ApplyAll, Direct;
    EmptyCounted(s);
    if hs != [] {
      var n := |hs| - 1;
      CountsOverRuns(cfg, hs[..n], s);
      CallsKeep(Run(START, cfg, hs[..n]).mem, cfg.csv, hs[n].op, s);
    }
  }

  // ---------- the ledger of one-row entries ----------

  function Written(files: seq<LotFile>, s: nat): nat {
    if files == [] then 0
    else Written(files[..|files| - 1], s) + Count(files[|files| - 1].rowSeqs, Some(s))
  }

  /** The five places an accepted entry can be, told apart by status and by `holds`. */
  ghost predicate InExactlyOnePlace(y: System, s: nat)
    requires s in y.disk.journal.rows
  {
    var row := y.disk.journal.rows[s];
    var written := Written(y.disk.files, s);
    match row.csv
    case Pending => written == 0 && (Holds(y.mem, s) ==> Occurs(y.mem, s) == 1)
    case Done => written == 1 && !Holds(y.mem, s)
    case Dropped => written == 0 && !Holds(y.mem, s) && row.csvReason.Some?
    case Skipped => written == 0 && !Holds(y.mem, s)
  }

  predicate Replayable(y: System, s: nat) {
    s in y.disk.journal.rows && y.disk.journal.rows[s].csv == J.Pending && !Holds(y.mem, s)
  }

  /** The row of the entry is offered to the writer only while it is pending and not held. */
  predicate Offered(y: System, h: Happening, s: nat) {
    h.op.AppendCsv? && h.op.entry == Some(s) ==> Replayable(y, s)
  }

  /** The entry gives one row: throughout the run it is offered only while pending and not held. */
  ghost predicate OneRowRun(cfg: Settings, hs: seq<Happening>, s: nat) {
    hs != [] ==>
      && OneRowRun(cfg, hs[..|hs| - 1], s)
      && Offered(Run(START, cfg, hs[..|hs| - 1]), hs[|hs| - 1], s)
  }

  /** Holding a row means the journal still has it pending. */
  ghost predicate HeldPending(y: System, s: nat) {
    && Shape(y.mem) && Counted(y.mem, s) && Occurs(y.mem, s) <= 1 && s !in y.mem.dropped
    && (Holds(y.mem, s) ==> s in y.disk.journal.rows && y.disk.journal.rows[s].csv == J.Pending)
  }

  ghost predicate Booked(d: Durable, s: nat) {
    && (s in d.journal.rows ==>
        && s < d.journal.next
        && Written(d.files, s) == (if d.journal.rows[s].csv == J.Done then 1 else 0)
        && (d.journal.rows[s].csv == J.Dropped ==> d.journal.rows[s].csvReason.Some?))
    && (s >= d.journal.next ==> Written(d.files, s) == 0)
  }

  /** `a` is `d` after calls that wrote, marked done, dropped and skipped entry `s` so often. */
  ghost predicate Moved(d: Durable, a: Durable, wrote: nat, done: nat, dropped: nat, skipped: nat, s: nat) {
    && a.journal.next == d.journal.next
    && Written(a.files, s) == Written(d.files, s) + wrote
    && (s in a.journal.rows <==> s in d.journal.rows)
    && (s in d.journal.rows ==>
        && (done + dropped + skipped == 0 ==> a.journal.rows[s] == d.journal.rows[s])
        && (done == 1 ==> a.journal.rows[s].csv == J.Done)
        && (dropped == 1 ==> a.journal.rows[s].csv == J.Dropped && a.journal.rows[s].csvReason.Some?)
        && (skipped == 1 ==> a.journal.rows[s].csv == J.Skipped))
  }

  lemma ApplyMovesOne(d: Durable, e: Effect, s: nat)
    ensures Moved(d, Apply(d, e), Amount(e, Wrote, s), Amount(e, Done, s), Amount(e, Dropped, s), Amount(e, Skipped, s), s)
  {
    if e.CsvDone? {
      MarkDoneMoves(d.journal, e.entries, s);
    }
  }

  /** How a list of durable calls moves one entry's status and its count of written rows. */
  lemma {:induction false} ApplyMoves(d: Durable, es: seq<Effect>, s: nat)
    requires Resolved(es, s) <= 1
    ensures Moved(d, ApplyAll(d, es), Sum(es, Wrote, s), Sum(es, Done, s), Sum(es, Dropped, s), Sum(es, Skipped, s), s)
  {
    hide Apply, Amount;
    if es != [] {
      var n := |es| - 1;
      ApplyMoves(d, es[..n], s);
      ApplyMovesOne(ApplyAll(d, es[..n]), es[n], s);
    }
  }

  lemma {:induction false} MarkDoneMoves(t: J.Table, entries: seq<nat>, s: nat)
    ensures var a := J.MarkCsvDone(t, entries);
      && a.next == t.next
      && (s in a.rows <==> s in t.rows)
      && (s in t.rows ==>
          if Count(entries, s) == 0 then a.rows[s] == t.rows[s] else a.rows[s].csv == J.Done)
  {
    if entries != [] {
      MarkDoneMoves(t, entries[..|entries| - 1], s);
    }
  }

  lemma DirectMoves(d: Durable, cfg: J.Setup, op: Op, s: nat)
    requires Booked(d, s)
    ensures var a := Direct(d, cfg, op);
      && Booked(a, s)
      && (s in d.journal.rows && d.journal.rows[s].csv == J.Pending ==>
          s in a.journal.rows && a.journal.rows[s].csv == J.Pending)
  {
  }

  lemma CompletesKeepsLedger(y: System, cfg: Settings, op: Op, s: nat)
    requires HeldPending(y, s) && Booked(y.disk, s) && Offered(y, Completes(op), s)
    ensures var z := Step(y, cfg, Completes(op));
      HeldPending(z, s) && Booked(z.disk, s)
  {
    hide Calls, Occurs, Direct, ApplyAll, Sum;
    var added := if op.AppendCsv? && op.entry == Some(s) then 1 else 0;
    var r := Calls(y.mem, cfg.csv, op);
    var d := Direct(y.disk, cfg.journal, op);
    CallsKeep(y.mem, cfg.csv, op, s);
    DirectMoves(y.disk, cfg.journal, op, s);
    ApplyMoves(d, r.effects, s);
  }

  ghost predicate NoCrash(hs: seq<Happening>) {
    forall i :: 0 <= i < |hs| ==> hs[i].Completes?
  }

  /** Event `n` of the run took the entry out of the journal, which had called it finished. */
  ghost predicate LeftAt(cfg: Settings, hs: seq<Happening>, n: nat, s: nat) {
    && n < |hs|
    && s in Run(START, cfg, hs[..n]).disk.journal.rows
    && Run(START, cfg, hs[..n]).disk.journal.rows[s].csv != J.Pending
    && s !in Run(START, cfg, hs[..n + 1]).disk.journal.rows
  }

  /** An entry that was accepted once and is in the journal no more. */
  predicate Gone(y: System, s: nat) {
    1 <= s < y.disk.journal.next && s !in y.disk.journal.rows
  }

  lemma {:induction false} AppliedKeys(d: Durable, es: seq<Effect>, s: nat)
    ensures var a := ApplyAll(d, es);
      a.journal.next == d.journal.next && (s in a.journal.rows <==> s in d.journal.rows)
  {
    if es != [] {
      var n := |es| - 1;
      AppliedKeys(d, es[..n], s);
      if es[n].CsvDone? {
        MarkDoneMoves(ApplyAll(d, es[..n]).journal, es[n].entries, s);
      }
    }
  }

  /** One step takes out of the journal only what it calls finished, and what it accepts it has. */
  lemma StepLeaves(y: System, cfg: Settings, h: Happening, s: nat)
    requires Gone(Step(y, cfg, h), s)
    ensures Gone(y, s) || (s in y.disk.journal.rows && y.disk.journal.rows[s].csv != J.Pending)
  {
    hide Calls, ApplyAll, Direct;
    var r := Calls(y.mem, cfg.csv, h.op);
    if h.Completes? {
      AppliedKeys(Direct(y.disk, cfg.journal, h.op), r.effects, s);
      DirectLeaves(y.disk, cfg.journal, h.op, s);
    } else {
      AppliedKeys(y.disk, if h.calls <= |r.effects| then r.effects[..h.calls] else r.effects, s);
    }
  }

  lemma DirectLeaves(d: Durable, cfg: J.Setup, op: Op, s: nat)
    requires var a := Direct(d, cfg, op); 1 <= s < a.journal.next && s !in a.journal.rows
    ensures s < d.journal.next || s in d.journal.rows
    ensures s in d.journal.rows ==> d.journal.rows[s].csv != J.Pending
  {
  }

  /**
    Nothing leaves the journal unfinished: over any run, crashes included, an entry that
    was accepted and is gone was, when it left, called done, dropped or skipped.
   */
  lemma {:induction false} LeavesFinished(cfg: Settings, hs: seq<Happening>, s: nat)
    requires Gone(Run(START, cfg, hs), s)
    ensures exists n: nat :: LeftAt(cfg, hs, n, s)
  {
    hide Step;
    if hs != [] {
      var m := |hs| - 1;
      var y := Run(START, cfg, hs[..m]);
      StepLeaves(y, cfg, hs[m], s);
      assert hs[..m + 1] == hs;
      if Gone(y, s) {
        LeavesFinished(cfg, hs[..m], s);
        var n: nat :| LeftAt(cfg, hs[..m], n, s);
        hide Run;
        assert hs[..m][..n] == hs[..n] && hs[..m][..n + 1] == hs[..n + 1];
        assert LeftAt(cfg, hs, n, s);
      } else {
        assert LeftAt(cfg, hs, m, s);
      }
    }
  }

  lemma {:induction false} OneRowBefore(cfg: Settings, hs: seq<Happening>, n: nat, s: nat)
    requires OneRowRun(cfg, hs, s) && n <= |hs|
    ensures OneRowRun(cfg, hs[..n], s)
  {
    hide Run, Offered;
    if n == |hs| {
      assert hs[..n] == hs;
    } else {
      OneRowBefore(cfg, hs[..|hs| - 1], n, s);
      assert hs[..|hs| - 1][..n] == hs[..n];
    }
  }

  ghost predicate Ledger(y: System, s: nat) {
    && HeldPending(y, s) && Booked(y.disk, s)
    && (s in y.disk.journal.rows ==> InExactlyOnePlace(y, s))
    && (s !in y.disk.journal.rows ==> !Holds(y.mem, s))
  }

  /**
    The ledger. Over any run of accepts, appends, flushes, evictions, failed
    writes, marks, purges and mirror copies, an entry that gives one row is in
    exactly one place: pending and held, pending and free to be replayed, in
    exactly one row of one written file and done, dropped with a reason, or
    skipped. Other entries may expand to any number of rows.
   */
  lemma {:induction false} LedgerOverRuns(cfg: Settings, hs: seq<Happening>, s: nat)
    requires NoCrash(hs) && OneRowRun(cfg, hs, s)
    ensures Ledger(Run(START, cfg, hs), s)
    ensures Gone(Run(START, cfg, hs), s) ==>
      exists n: nat :: LeftAt(cfg, hs, n, s) && Ledger(Run(START, cfg, hs[..n]), s)
    decreases |hs|
  {
    hide Occurs, Step;
    if hs == [] {
      EmptyCounted(s);
    } else {
      var n := |hs| - 1;
      LedgerOverRuns(cfg, hs[..n], s);
      CompletesKeepsLedger(Run(START, cfg, hs[..n]), cfg, hs[n].op, s);
    }
    if Gone(Run(START, cfg, hs), s) {
      LeavesFinished(cfg, hs, s);
      hide Run, Ledger;
      var n: nat :| LeftAt(cfg, hs, n, s);
      OneRowBefore(cfg, hs, n, s);
      LedgerOverRuns(cfg, hs[..n], s);
    }
  }

  // ---------- crashes ----------

  /** The row is in a file on disk whose network copy, if one is due, is queued or made. */
  ghost predicate OnDisk(d: Durable, s: nat) {
    exists f ::
      f in d.files && Some(s) in f.rowSeqs && (f.machine.network ==> f in d.queued || f in d.copied)
  }

  ghost predicate DoneIsOnDisk(d: Durable, s: nat) {
    s in d.journal.rows && d.journal.rows[s].csv == J.Done ==> OnDisk(d, s)
  }

  /** Among these calls a file with the row, and its mirror task if one is due, come before `i`. */
  ghost predicate BackedAt(es: seq<Effect>, i: nat, s: nat) {
    exists f ::
      && FileWritten(f) in es[..if i <= |es| then i else |es|]
      && Some(s) in f.rowSeqs
      && (f.machine.network ==> MirrorQueued(f) in es[..if i <= |es| then i else |es|])
  }

  ghost predicate Backed(es: seq<Effect>, s: nat) {
    forall i :: 0 <= i < |es| && es[i].CsvDone? && s in es[i].entries ==> BackedAt(es, i, s)
  }

  lemma BackedConcat(a: seq<Effect>, b: seq<Effect>, s: nat)
    requires Backed(a, s) && Backed(b, s)
    ensures Backed(a + b, s)
  {
    forall i | 0 <= i < |a + b| && (a + b)[i].CsvDone? && s in (a + b)[i].entries
      ensures BackedAt(a + b, i, s)
    {
      if i < |a| {
        assert (a + b)[..i] == a[..i];
      } else {
        assert (a + b)[..i] == a + b[..i - |a|];
        assert b[i - |a|] == (a + b)[i];
      }
    }
  }

  ghost predicate OnlyDrops(es: seq<Effect>) {
    forall i :: 0 <= i < |es| ==> es[i].CsvDropped?
  }

  lemma {:induction false} ReleaseMarks(
    refs: map<nat, nat>, dropped: map<nat, string>, entries: seq<Option<nat>>, reason: Option<string>)
    ensures var r := ReleaseAll(refs, dropped, entries, reason);
      && (reason.Some? ==> r.done == [])
      && (forall s :: s in r.done ==> Some(s) in entries)
      && OnlyDrops(r.drops)
  {
    if entries != [] {
      var n := |entries| - 1;
      ReleaseMarks(refs, dropped, entries[..n], reason);
      assert entries == entries[..n] + [entries[n]];
    }
  }

  lemma ReleaseBacked(m: Memory, entries: seq<Option<nat>>, reason: string, s: nat)
    ensures Backed(Release(m, entries, Some(reason)).effects, s)
  {
    ReleaseMarks(m.refs, m.dropped, entries, Some(reason));
    var r := ReleaseAll(m.refs, m.dropped, entries, Some(reason));
    assert ReleaseCalls(r) == r.drops;
  }

  lemma PruneBacked(m: Memory, cfg: Config, k: Key, now: real, s: nat)
    ensures Backed(Prune(m, cfg, k, now).effects, s)
  {
    if k in m.waiting && m.waiting[k] != [] {
      var bucket := m.waiting[k];
      var n := ExpiredCount(bucket, now - cfg.ttl);
      var rest := bucket[n..];
      var m1 := m.(waiting := if rest == [] then m.waiting - {k} else m.waiting[k := rest]);
      ReleaseBacked(m1, Entries(bucket[..n]), TTL_REASON, s);
    }
  }

  /** Calls that begin with the file, and its mirror task if due, back the marks of its rows. */
  lemma CallsAreBacked(head: seq<Effect>, r: Releasing, file: LotFile, s: nat)
    requires OnlyDrops(r.drops) && forall t :: t in r.done ==> Some(t) in file.rowSeqs
    requires FileWritten(file) in head && (file.machine.network ==> MirrorQueued(file) in head)
    requires forall i :: 0 <= i < |head| ==> !head[i].CsvDone?
    ensures Backed(head + ReleaseCalls(r), s)
  {
    var es := head + ReleaseCalls(r);
    assert forall i :: 0 <= i < |head| ==> es[i] == head[i];
    forall i | 0 <= i < |es| && es[i].CsvDone? && s in es[i].entries ensures BackedAt(es, i, s) {
      assert i >= |head| && es[i] == ReleaseCalls(r)[i - |head|];
      assert es[..i] == head + ReleaseCalls(r)[..i - |head|];
      assert FileWritten(file) in es[..i];
      assert Some(s) in file.rowSeqs;
    }
  }

  /** The order inside `_write_buffer` is what makes every done mark backed. */
  lemma WriteBacked(m: Memory, k: Key, b: LotBuffer, reason: string, disk: Disk, s: nat)
    ensures Backed(WriteBuffer(m, k, b, reason, disk).effects, s)
  {
    hide ReleaseAll, OnlyDrops, BackedAt;
    var file := FileOf(k, b, reason);
    if b.rows != [] && disk(file) {
      var n := m.(failures := m.failures - {k});
      var r := ReleaseAll(n.refs, n.dropped, b.rowSeqs, None);
      ReleaseMarks(n.refs, n.dropped, b.rowSeqs, None);
      var head := [FileWritten(file)] + (if b.machine.network then [MirrorQueued(file)] else []);
      CallsAreBacked(head, r, file, s);
      assert WriteBuffer(m, k, b, reason, disk).effects == head + ReleaseCalls(r);
    }
  }

  lemma WriteAndRemoveBacked(m: Memory, k: Key, reason: string, disk: Disk, s: nat)
    ensures Backed(WriteAndRemove(m, k, reason, disk).effects, s)
  {
    if k in m.buffers {
      WriteBacked(m, k, m.buffers[k], reason, disk, s);
    }
  }

  lemma OpenLotBacked(m: Memory, cfg: Config, machine: Machine, ev: Event, now: real, disk: Disk, s: nat)
    ensures Backed(OpenLot(m, cfg, machine, ev, now, disk).effects, s)
  {
    hide Prune, WriteBuffer, AddWaiting;
    var k := KeyOf(machine, ev);
    var got := GetBuffer(m, cfg, machine, k, ev, now);
    var b := got.mem.buffers[k];
    PruneBacked(m.(buffers := m.buffers[k := NewBuffer(machine, ev)]), cfg, k, now, s);
    if LotChanged(b, ev) {
      WriteBacked(got.mem, k, b, "lot_changed", disk, s);
      BackedConcat(got.effects, WriteBuffer(got.mem, k, b, "lot_changed", disk).effects, s);
    }
  }

  lemma AppendBacked(
    m: Memory, cfg: Config, machine: Machine, ev: Event, entry: Option<nat>, now: real, disk: Disk, s: nat)
    ensures Backed(Append(m, cfg, machine, ev, entry, now, disk).effects, s)
  {
    hide OpenLot, WriteAndRemove, Evict, AppendWaiting;
    var k := KeyOf(machine, ev);
    if !IsCsvEvent(ev) {
    } else if ev.lotId == "" && k !in m.buffers {
      AppendWaitingBacked(m, cfg, k, ev, entry, now, s);
    } else {
      var o := OpenLot(m, cfg, machine, ev, now, disk);
      OpenLotBacked(m, cfg, machine, ev, now, disk, s);
      OpenLotOpens(m, cfg, machine, ev, now, disk);
      WriteAndRemoveBacked(Joined(o.mem, k, ev, entry), k, "carrier_unloaded", disk, s);
      BackedConcat(o.effects, AppendRow(o.mem, cfg, k, ev, entry, disk).effects, s);
    }
  }

  lemma AppendWaitingBacked(m: Memory, cfg: Config, k: Key, ev: Event, entry: Option<nat>, now: real, s: nat)
    ensures Backed(AppendWaiting(m, cfg, k, ev, entry, now).effects, s)
  {
    hide Prune, Release;
    PruneBacked(m, cfg, k, now, s);
    var pruned := Prune(m, cfg, k, now);
    var bucket := Get(pruned.mem.waiting, k, []) + [Waiting(now, RowOf(ev), entry)];
    var m1 := Track(pruned.mem.(waiting := pruned.mem.waiting[k := bucket]), entry);
    if |bucket| > cfg.maxWaiting {
      var m2 := m1.(waiting := m1.waiting[k := bucket[1..]]);
      ReleaseBacked(m2, [bucket[0].entry], CAP_REASON, s);
      BackedConcat(pruned.effects, Release(m2, [bucket[0].entry], Some(CAP_REASON)).effects, s);
    }
  }

  lemma {:induction false} FlushKeysBacked(m: Memory, keys: seq<Key>, reason: string, disk: Disk, s: nat)
    ensures Backed(FlushKeys(m, keys, reason, disk).effects, s)
  {
    if keys != [] {
      var n := |keys| - 1;
      var before := FlushKeys(m, keys[..n], reason, disk);
      FlushKeysBacked(m, keys[..n], reason, disk, s);
      if !before.raised {
        WriteAndRemoveBacked(before.mem, keys[n], reason, disk, s);
        BackedConcat(before.effects, WriteAndRemove(before.mem, keys[n], reason, disk).effects, s);
      }
    }
  }

  lemma CallsBacked(m: Memory, cfg: Config, op: Op, s: nat)
    ensures Backed(Calls(m, cfg, op).effects, s)
  {
    match op
    case AppendCsv(machine, event, entry, now, disk) => AppendBacked(m, cfg, machine, event, entry, now, disk, s);
    case FlushEndpoint(endpoint, bufferKeys, _, reason, disk) =>
      FlushKeysBacked(
        m.(failures := map k | k in m.failures && k.endpoint != endpoint :: m.failures[k]),
        bufferKeys, reason, disk, s);
    case FlushAll(keys, reason, disk) => FlushKeysBacked(m, keys, reason, disk, s);
    case _ =>
  }

  lemma {:induction false} AppliedCalls(d: Durable, es: seq<Effect>)
    ensures var a := ApplyAll(d, es);
      && (forall f :: f in d.files || FileWritten(f) in es ==> f in a.files)
      && (forall f :: f in d.queued || MirrorQueued(f) in es ==> f in a.queued)
      && a.copied == d.copied
  {
    if es != [] {
      var n := |es| - 1;
      AppliedCalls(d, es[..n]);
      assert es == es[..n] + [es[n]];
    }
  }

  /** Cut the calls of an operation anywhere: a done entry still has its row on disk. */
  lemma {:induction false} AnyPrefixIsSafe(d: Durable, es: seq<Effect>, n: nat, s: nat)
    requires DoneIsOnDisk(d, s) && Backed(es, s) && n <= |es|
    ensures DoneIsOnDisk(ApplyAll(d, es[..n]), s)
  {
    if n > 0 {
      AnyPrefixIsSafe(d, es, n - 1, s);
      assert es[..n][..n - 1] == es[..n - 1] && es[..n][n - 1] == es[n - 1];
      var b := ApplyAll(d, es[..n - 1]);
      var e := es[n - 1];
      AppliedCalls(d, es[..n - 1]);
      if e.CsvDone? {
        MarkDoneMoves(b.journal, e.entries, s);
        CountMember(e.entries, s);
        if s in e.entries { assert BackedAt(es, n - 1, s); }
      }
      StaysOnDisk(b, e, s);
    }
  }

  lemma StaysOnDisk(b: Durable, e: Effect, s: nat)
    ensures OnDisk(b, s) ==> OnDisk(Apply(b, e), s)
  {
  }

  lemma StepIsSafe(y: System, cfg: Settings, h: Happening, s: nat)
    requires DoneIsOnDisk(y.disk, s)
    ensures DoneIsOnDisk(Step(y, cfg, h).disk, s)
  {
    hide Calls, Append, ApplyAll, Backed;
    var r := Calls(y.mem, cfg.csv, h.op);
    CallsBacked(y.mem, cfg.csv, h.op, s);
    if h.Completes? {
      DirectIsSafe(y.disk, cfg.journal, h.op, s);
      AnyPrefixIsSafe(Direct(y.disk, cfg.journal, h.op), r.effects, |r.effects|, s);
      assert r.effects[..|r.effects|] == r.effects;
    } else {
      var n := if h.calls <= |r.effects| then h.calls else |r.effects|;
      AnyPrefixIsSafe(y.disk, r.effects, n, s);
      assert r.effects[..|r.effects|] == r.effects;
    }
  }

  lemma DirectIsSafe(d: Durable, cfg: J.Setup, op: Op, s: nat)
    requires DoneIsOnDisk(d, s)
    ensures DoneIsOnDisk(Direct(d, cfg, op), s)
  {
  }

  /**
    Crash safety. Over any run in which the process may die between any two
    durable calls, an entry the journal calls csv-done has its row in a file on
    disk, and the network copy of that file, when one is due, is queued or made.
   */
  lemma {:induction false} CrashSafetyOverRuns(cfg: Settings, hs: seq<Happening>, s: nat)
    ensures DoneIsOnDisk(Run(START, cfg, hs).disk, s)
  {
    hide Step, OnDisk;
    if hs != [] {
      CrashSafetyOverRuns(cfg, hs[..|hs| - 1], s);
      StepIsSafe(Run(START, cfg, hs[..|hs| - 1]), cfg, hs[|hs| - 1], s);
    }
  }

  // ---------- no crash point loses a row ----------

  ghost predicate Reasoned(d: Durable, s: nat) {
    && (s in d.journal.rows ==>
        s < d.journal.next && (d.journal.rows[s].csv == J.Dropped ==> d.journal.rows[s].csvReason.Some?))
  }

  lemma {:induction false} ApplyReasons(d: Durable, es: seq<Effect>, s: nat)
    requires Reasoned(d, s)
    ensures var a := ApplyAll(d, es);
      && Reasoned(a, s)
      && a.journal.next == d.journal.next
      && (s in a.journal.rows <==> s in d.journal.rows)
      && (s in d.journal.rows && Resolved(es, s) == 0 ==> a.journal.rows[s] == d.journal.rows[s])
  {
    if es != [] {
      var n := |es| - 1;
      ApplyReasons(d, es[..n], s);
      if es[n].CsvDone? {
        MarkDoneMoves(ApplyAll(d, es[..n]).journal, es[n].entries, s);
      }
    }
  }

  lemma StepKeepsReplayable(y: System, cfg: Settings, h: Happening, s: nat)
    requires HeldPending(y, s) && Reasoned(y.disk, s) && Offered(y, h, s)
    ensures var z := Step(y, cfg, h);
      HeldPending(z, s) && Reasoned(z.disk, s)
  {
    hide Calls, Occurs, ApplyAll, Sum;
    var r := Calls(y.mem, cfg.csv, h.op);
    if h.Completes? {
      CallsKeep(y.mem, cfg.csv, h.op, s);
      ApplyReasons(Direct(y.disk, cfg.journal, h.op), r.effects, s);
    } else {
      EmptyCounted(s);
      ApplyReasons(y.disk, if h.calls <= |r.effects| then r.effects[..h.calls] else r.effects, s);
    }
  }

  ghost predicate NotLost(y: System, s: nat) {
    s in y.disk.journal.rows ==>
      var row := y.disk.journal.rows[s];
      match row.csv
      case Pending => if Holds(y.mem, s) then Occurs(y.mem, s) == 1 else Replayable(y, s)
      case Done => !Holds(y.mem, s) && OnDisk(y.disk, s)
      case Dropped => !Holds(y.mem, s) && row.csvReason.Some?
      case Skipped => !Holds(y.mem, s)
  }

  lemma {:induction false} ReplayableOverRuns(cfg: Settings, hs: seq<Happening>, s: nat)
    requires OneRowRun(cfg, hs, s)
    ensures var y := Run(START, cfg, hs); HeldPending(y, s) && Reasoned(y.disk, s)
  {
    hide Occurs, Step, OnDisk;
    if hs == [] {
      EmptyCounted(s);
    } else {
      var n := |hs| - 1;
      ReplayableOverRuns(cfg, hs[..n], s);
      StepKeepsReplayable(Run(START, cfg, hs[..n]), cfg, hs[n], s);
    }
  }

  /**
    No crash point loses a row: whatever dies when, an accepted one-row entry
    still in the journal is pending with its one row in memory, or pending and free
    to be replayed, or done with its row on disk, or dropped with a reason, or
    skipped because its event has no place in a lot file. One that is gone from the
    journal left it so, and not pending.
   */
  lemma {:induction false} NoCrashLosesARow(cfg: Settings, hs: seq<Happening>, s: nat)
    requires OneRowRun(cfg, hs, s)
    ensures NotLost(Run(START, cfg, hs), s)
    ensures Gone(Run(START, cfg, hs), s) ==>
      exists n: nat :: LeftAt(cfg, hs, n, s) && NotLost(Run(START, cfg, hs[..n]), s)
    decreases |hs|
  {
    hide Run, Occurs, OnDisk, OneRowRun;
    CrashSafetyOverRuns(cfg, hs, s);
    ReplayableOverRuns(cfg, hs, s);
    if Gone(Run(START, cfg, hs), s) {
      LeavesFinished(cfg, hs, s);
      var n: nat :| LeftAt(cfg, hs, n, s);
      OneRowBefore(cfg, hs, n, s);
      NoCrashLosesARow(cfg, hs[..n], s);
    }
  }

  /** Retention never removes an entry some row in memory still stands for, crashes or not. */
  lemma HeldIsNeverPurged(cfg: Settings, hs: seq<Happening>, s: nat, now: real)
    requires OneRowRun(cfg, hs, s)
    ensures var y := Run(START, cfg, hs);
      Holds(y.mem, s) ==>
        var z := Step(y, cfg, Completes(PurgeOld(now)));
        Holds(z.mem, s) && s in z.disk.journal.rows && z.disk.journal.rows[s] == y.disk.journal.rows[s]
  {
    hide Run, Occurs, Written;
    ReplayableOverRuns(cfg, hs, s);
  }
}
