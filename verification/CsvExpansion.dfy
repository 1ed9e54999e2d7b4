/**
  Entries that give several rows, over whole runs: where their rows are, when the
  journal calls such an entry done too early, and what a row let go leaves behind.
 */
module CsvExpansion {
  import opened Wrappers
  import opened Counting
  import opened CsvStore
  import opened CsvAccounting
  import opened CsvOperations
  import opened CsvBalance
  import opened CsvLedger

  // ---------- the tally of one entry ----------

  /**
    The rows of an entry the writer was given, discarded and let go, those that died
    with the process (`lost`), and those given since the entry was last marked
    (`late`), if it has been marked at all.
   */
  datatype Tally = Tally(added: nat, discarded: nat, letGo: nat, lost: nat, late: nat, marked: bool)

  const NOTHING := Tally(0, 0, 0, 0, 0, false)

  /** Part of an operation that adds no row: a mark it makes starts the late rows afresh. */
  function Past(t: Tally, es: seq<Effect>, discarded: nat, letGo: nat, s: nat): Tally {
    var u := t.(discarded := t.discarded + discarded, letGo := t.letGo + letGo);
    if Marks(es, s) > 0 then u.(late := 0, marked := true) else u
  }

  function Given(t: Tally, entry: Option<nat>, s: nat): Tally {
    if entry != Some(s) then t
    else t.(added := t.added + 1, late := if t.marked then t.late + 1 else t.late)
  }

  function AppendTally(
    t: Tally, m: Memory, cfg: Config, machine: Machine, ev: Event, entry: Option<nat>, now: real, disk: Disk,
    s: nat): Tally
  {
    if !IsCsvEvent(ev) then t
    else
      var k, before := KeyOf(machine, ev), UpToTheRow(m, cfg, machine, ev, now, disk);
      var u := Past(t, before.effects, if k in m.buffers then 0 else Expired(m, cfg, k, now, s), 0, s);
      if before.raised then u
      else
        var j := WithTheRow(before.mem, k, ev, entry, now);
        Past(Given(u, entry, s), PastTheRow(j, cfg, k, ev, disk).effects,
          Capped(j, cfg, k, s), Evicted(j, cfg, k, ev, s), s)
  }

  function OpTally(t: Tally, m: Memory, cfg: Config, op: Op, s: nat): Tally {
    match op
    case AppendCsv(machine, event, entry, now, disk) => AppendTally(t, m, cfg, machine, event, entry, now, disk, s)
    case FlushEndpoint(endpoint, bufferKeys, waitingKeys, reason, disk) =>
      Past(t, Calls(m, cfg, op).effects, 0, FlushLetsGo(m, endpoint, bufferKeys, waitingKeys, reason, disk, s), s)
    case FlushAll(_, _, _) => Past(t, Calls(m, cfg, op).effects, 0, 0, s)
    case _ => t
  }

  /** The rows of the entry an operation brings to the writer. */
  function Offers(op: Op, s: nat): nat {
    if op.AppendCsv? && op.entry == Some(s) && IsCsvEvent(op.event) then 1 else 0
  }

  /** The calls an operation has made when the process dies. */
  function CallsMade(r: Result, calls: nat): seq<Effect> {
    if calls <= |r.effects| then r.effects[..calls] else r.effects
  }

  /** A crash loses the rows in memory, and the one being given, but those already in a file. */
  ghost function CrashTally(t: Tally, m: Memory, op: Op, made: seq<Effect>, s: nat): Tally {
    var reached, wrote := Occurs(m, s) + Offers(op, s), Sum(made, Wrote, s);
    Tally(t.added + Offers(op, s), t.discarded, t.letGo, t.lost + (if wrote <= reached then reached - wrote else 0),
      0, t.marked || Marks(made, s) > 0)
  }

  ghost function StepTally(t: Tally, m: Memory, cfg: Config, h: Happening, s: nat): Tally {
    match h
    case Completes(op) => OpTally(t, m, cfg, op, s)
    case Crashes(op, calls) => CrashTally(t, m, op, CallsMade(Calls(m, cfg, op), calls), s)
  }

  ghost function TallyOf(cfg: Settings, hs: seq<Happening>, s: nat): Tally {
    if hs == [] then NOTHING
    else
      var n := |hs| - 1;
      StepTally(TallyOf(cfg, hs[..n], s), Run(START, cfg, hs[..n]).mem, cfg.csv, hs[n], s)
  }

  // ---------- what the tally says of memory ----------

  /** `written` rows of the entry are in files: the rows balance, and late rows are the only ones held after a mark. */
  ghost predicate Balanced(t: Tally, m: Memory, written: nat, s: nat) {
    && t.added == written + Occurs(m, s) + t.discarded + t.letGo + t.lost
    && (t.marked ==> Occurs(m, s) <= t.late)
    && (t.late > 0 ==> t.marked && (Occurs(m, s) > 0 || t.letGo > 0))
  }

  lemma PastBalances(t: Tally, m: Memory, r: Result, d: nat, g: nat, written: nat, s: nat)
    requires Balanced(t, m, written, s) && Settles(m, r, d, g, s)
    ensures Balanced(Past(t, r.effects, d, g, s), r.mem, written + Sum(r.effects, Wrote, s), s)
  {
    hide Occurs, Sum;
  }

  lemma GivenBalances(t: Tally, m: Memory, n: Memory, entry: Option<nat>, written: nat, s: nat)
    requires Balanced(t, m, written, s) && Occurs(n, s) == Occurs(m, s) + (if entry == Some(s) then 1 else 0)
    ensures Balanced(Given(t, entry, s), n, written, s)
  {
    hide Occurs;
  }

  lemma AppendBalances(
    t: Tally, m: Memory, cfg: Config, machine: Machine, ev: Event, entry: Option<nat>, now: real, disk: Disk,
    written: nat, s: nat)
    requires Shape(m) && Counted(m, s) && Balanced(t, m, written, s)
    ensures var r := Append(m, cfg, machine, ev, entry, now, disk);
      Balanced(AppendTally(t, m, cfg, machine, ev, entry, now, disk, s), r.mem, written + Sum(r.effects, Wrote, s), s)
  {
    hide Occurs, Sum, Balanced, Settles, Shape, Counted, Append, UpToTheRow, WithTheRow, PastTheRow, Expired, Capped,
      Evicted, Past, Given;
    if !IsCsvEvent(ev) {
      SkipBalances(t, m, cfg, machine, ev, entry, now, disk, written, s);
    } else {
      AppendParts(m, cfg, machine, ev, entry, now, disk);
      var k, before := KeyOf(machine, ev), UpToTheRow(m, cfg, machine, ev, now, disk);
      var expired := if k in m.buffers then 0 else Expired(m, cfg, k, now, s);
      UpToTheRowKeeps(m, cfg, machine, ev, now, disk, s);
      PastBalances(t, m, before, expired, 0, written, s);
      if !before.raised {
        var u := Past(t, before.effects, expired, 0, s);
        var w := written + Sum(before.effects, Wrote, s);
        var j := WithTheRow(before.mem, k, ev, entry, now);
        var rest := PastTheRow(j, cfg, k, ev, disk);
        WithTheRowKeeps(before.mem, k, ev, entry, now, s);
        GivenBalances(u, before.mem, j, entry, w, s);
        PastTheRowSettles(j, cfg, k, ev, disk, s);
        PastBalances(Given(u, entry, s), j, rest, Capped(j, cfg, k, s), Evicted(j, cfg, k, ev, s), w, s);
        SumConcat(before.effects, rest.effects, Wrote, s);
      }
    }
  }

  lemma SkipBalances(
    t: Tally, m: Memory, cfg: Config, machine: Machine, ev: Event, entry: Option<nat>, now: real, disk: Disk,
    written: nat, s: nat)
    requires !IsCsvEvent(ev) && Balanced(t, m, written, s)
    ensures var r := Append(m, cfg, machine, ev, entry, now, disk);
      Balanced(AppendTally(t, m, cfg, machine, ev, entry, now, disk, s), r.mem, written + Sum(r.effects, Wrote, s), s)
  {
    if entry.Some? {
      SumOne(CsvSkipped(entry.value), Wrote, s);
    }
  }

  lemma OpBalances(t: Tally, m: Memory, cfg: Config, op: Op, written: nat, s: nat)
    requires Shape(m) && Counted(m, s) && Balanced(t, m, written, s)
    ensures var r := Calls(m, cfg, op);
      Balanced(OpTally(t, m, cfg, op, s), r.mem, written + Sum(r.effects, Wrote, s), s)
  {
    hide Occurs, Sum, Balanced, Settles, Shape, Counted, Append, AppendTally, FlushMachine, FlushKeys, FlushLetsGo,
      Past;
    match op
    case AppendCsv(machine, event, entry, now, disk) =>
      AppendBalances(t, m, cfg, machine, event, entry, now, disk, written, s);
    case FlushEndpoint(endpoint, bufferKeys, waitingKeys, reason, disk) =>
      FlushMachineSettles(m, endpoint, bufferKeys, waitingKeys, reason, disk, s);
      PastBalances(t, m, FlushMachine(m, endpoint, bufferKeys, waitingKeys, reason, disk), 0,
        FlushLetsGo(m, endpoint, bufferKeys, waitingKeys, reason, disk, s), written, s);
    case FlushAll(keys, reason, disk) =>
      FlushKeysSettles(m, keys, reason, disk, s);
      PastBalances(t, m, FlushKeys(m, keys, reason, disk), 0, 0, written, s);
    case _ => NoCalls(s);
  }

  lemma NoCalls(s: nat)
    ensures Sum([], Wrote, s) == 0
  {
  }

  /** An operation gives the writer no more than it brings. */
  lemma AddedIsOffered(t: Tally, m: Memory, cfg: Config, op: Op, s: nat)
    ensures OpTally(t, m, cfg, op, s).added <= t.added + Offers(op, s)
    ensures OpTally(t, m, cfg, op, s).lost == t.lost
  {
    hide Sum, Calls, FlushLetsGo, UpToTheRow, WithTheRow, PastTheRow, Expired, Capped, Evicted, Marks;
  }

  lemma {:induction false} PrefixWrites(es: seq<Effect>, n: nat, s: nat)
    requires n <= |es|
    ensures Sum(es[..n], Wrote, s) <= Sum(es, Wrote, s)
  {
    SumConcat(es[..n], es[n..], Wrote, s);
    assert es[..n] + es[n..] == es;
  }

  /** No operation writes a row of the entry that was neither in memory nor brought by it. */
  lemma WritesWhatIsThere(m: Memory, cfg: Config, op: Op, calls: nat, s: nat)
    requires Shape(m) && Counted(m, s)
    ensures Sum(CallsMade(Calls(m, cfg, op), calls), Wrote, s) <= Occurs(m, s) + Offers(op, s)
  {
    hide Occurs, Sum, Calls, OpTally, Shape, Counted, Offers;
    var t := Tally(Occurs(m, s), 0, 0, 0, 0, false);
    OpBalances(t, m, cfg, op, 0, s);
    AddedIsOffered(t, m, cfg, op, s);
    var es := Calls(m, cfg, op).effects;
    PrefixWrites(es, if calls <= |es| then calls else |es|, s);
    assert es[..|es|] == es;
  }

  // ---------- what the tally says of the journal ----------

  lemma {:induction false} AppliedFiles(d: Durable, es: seq<Effect>, s: nat)
    ensures Written(ApplyAll(d, es).files, s) == Written(d.files, s) + Sum(es, Wrote, s)
  {
    hide Count;
    if es != [] {
      var n := |es| - 1;
      AppliedFiles(d, es[..n], s);
    }
  }

  /** The journal has the entry and calls it done. */
  ghost predicate IsDone(d: Durable, s: nat) {
    s in d.journal.rows && d.journal.rows[s].csv == J.Done
  }

  lemma {:induction false} DoneNeedsAMark(d: Durable, es: seq<Effect>, s: nat)
    requires IsDone(ApplyAll(d, es), s) && !IsDone(d, s)
    ensures Sum(es, Done, s) > 0
  {
    if es != [] {
      var n := |es| - 1;
      if es[n].CsvDone? {
        MarkDoneMoves(ApplyAll(d, es[..n]).journal, es[n].entries, s);
      }
      if IsDone(ApplyAll(d, es[..n]), s) {
        DoneNeedsAMark(d, es[..n], s);
      }
    }
  }

  lemma DirectMakesNothingDone(d: Durable, cfg: J.Setup, op: Op, s: nat)
    ensures IsDone(Direct(d, cfg, op), s) ==> IsDone(d, s)
    ensures Direct(d, cfg, op).files == d.files
  {
  }

  lemma PastMarks(t: Tally, es: seq<Effect>, d: nat, g: nat, s: nat)
    ensures Past(t, es, d, g, s).marked <==> t.marked || Marks(es, s) > 0
  {
  }

  /** A mark among the calls of an operation is a mark in the tally. */
  lemma MarkIsTallied(t: Tally, m: Memory, cfg: Config, op: Op, s: nat)
    ensures t.marked || Sum(Calls(m, cfg, op).effects, Done, s) > 0 ==> OpTally(t, m, cfg, op, s).marked
  {
    hide Sum, Append, FlushMachine, FlushKeys, FlushLetsGo, Past, Marks;
    forall u, es, d, g ensures Past(u, es, d, g, s).marked <==> u.marked || Marks(es, s) > 0 {
      PastMarks(u, es, d, g, s);
    }
    SomeMark(Calls(m, cfg, op).effects, s);
    match op
    case AppendCsv(machine, event, entry, now, disk) => AppendIsTallied(t, m, cfg, machine, event, entry, now, disk, s);
    case FlushEndpoint(_, _, _, _, _) =>
    case FlushAll(_, _, _) =>
    case _ => NoMarks(s);
  }

  lemma SomeMark(es: seq<Effect>, s: nat)
    ensures Sum(es, Done, s) > 0 ==> Marks(es, s) > 0
  {
  }

  lemma NoMarks(s: nat)
    ensures Sum([], Done, s) == 0
  {
  }

  lemma AppendIsTallied(
    t: Tally, m: Memory, cfg: Config, machine: Machine, ev: Event, entry: Option<nat>, now: real, disk: Disk, s: nat)
    ensures t.marked || Sum(Append(m, cfg, machine, ev, entry, now, disk).effects, Done, s) > 0 ==>
      AppendTally(t, m, cfg, machine, ev, entry, now, disk, s).marked
  {
    hide Sum, UpToTheRow, WithTheRow, PastTheRow, Expired, Capped, Evicted;
    if !IsCsvEvent(ev) {
      if entry.Some? {
        SumOne(CsvSkipped(entry.value), Done, s);
      } else {
        NoMarks(s);
      }
    } else {
      AppendParts(m, cfg, machine, ev, entry, now, disk);
      hide Append;
      var k, before := KeyOf(machine, ev), UpToTheRow(m, cfg, machine, ev, now, disk);
      var j := WithTheRow(before.mem, k, ev, entry, now);
      SumConcat(before.effects, PastTheRow(j, cfg, k, ev, disk).effects, Done, s);
    }
  }

  // ---------- over runs ----------

  ghost predicate Accounted(y: System, t: Tally, s: nat) {
    && Shape(y.mem) && Counted(y.mem, s)
    && Balanced(t, y.mem, Written(y.disk.files, s), s)
    && (IsDone(y.disk, s) ==> t.marked)
  }

  lemma CompletesKeepsAccounts(y: System, cfg: Settings, op: Op, t: Tally, s: nat)
    requires Accounted(y, t, s)
    ensures Accounted(Step(y, cfg, Completes(op)), OpTally(t, y.mem, cfg.csv, op, s), s)
  {
    hide Occurs, Sum, Balanced, Shape, Counted, Calls, OpTally, Direct, ApplyAll, IsDone, Written, Conserves;
    var r := Calls(y.mem, cfg.csv, op);
    var d := Direct(y.disk, cfg.journal, op);
    CallsKeep(y.mem, cfg.csv, op, s);
    OpBalances(t, y.mem, cfg.csv, op, Written(y.disk.files, s), s);
    AppliedFiles(d, r.effects, s);
    DirectMakesNothingDone(y.disk, cfg.journal, op, s);
    MarkIsTallied(t, y.mem, cfg.csv, op, s);
    if IsDone(ApplyAll(d, r.effects), s) && !IsDone(d, s) {
      DoneNeedsAMark(d, r.effects, s);
    }
  }

  lemma CrashKeepsAccounts(y: System, cfg: Settings, op: Op, calls: nat, t: Tally, s: nat)
    requires Accounted(y, t, s)
    ensures Accounted(Step(y, cfg, Crashes(op, calls)),
      CrashTally(t, y.mem, op, CallsMade(Calls(y.mem, cfg.csv, op), calls), s), s)
  {
    hide Occurs, Sum, Calls, ApplyAll, IsDone, Written, Offers;
    var made := CallsMade(Calls(y.mem, cfg.csv, op), calls);
    EmptyCounted(s);
    WritesWhatIsThere(y.mem, cfg.csv, op, calls, s);
    AppliedFiles(y.disk, made, s);
    if IsDone(ApplyAll(y.disk, made), s) && !IsDone(y.disk, s) {
      DoneNeedsAMark(y.disk, made, s);
    }
  }

  lemma {:induction false} AccountsOverRuns(cfg: Settings, hs: seq<Happening>, s: nat)
    ensures Accounted(Run(START, cfg, hs), TallyOf(cfg, hs, s), s)
    ensures NoCrash(hs) ==> TallyOf(cfg, hs, s).lost == 0
  {
    hide Occurs, Step, OpTally, CrashTally, Accounted;
    if hs == [] {
      NothingAtFirst(s);
    } else {
      var n := |hs| - 1;
      var y, t := Run(START, cfg, hs[..n]), TallyOf(cfg, hs[..n], s);
      AccountsOverRuns(cfg, hs[..n], s);
      match hs[n]
      case Completes(op) =>
        CompletesKeepsAccounts(y, cfg, op, t, s);
        AddedIsOffered(t, y.mem, cfg.csv, op, s);
      case Crashes(op, calls) => CrashKeepsAccounts(y, cfg, op, calls, t, s);
    }
  }

  lemma NothingAtFirst(s: nat)
    ensures Accounted(START, NOTHING, s)
  {
    EmptyCounted(s);
    hide Occurs;
  }

  /**
    The balance of rows. In every run, whatever number of rows an entry gives, each row
    the writer was given is in a written file, held in memory, discarded, let go, or
    lost in a crash before it was written.
   */
  lemma RowsBalanceOverRuns(cfg: Settings, hs: seq<Happening>, s: nat)
    ensures var y, t := Run(START, cfg, hs), TallyOf(cfg, hs, s);
      && t.added == Written(y.disk.files, s) + Occurs(y.mem, s) + t.discarded + t.letGo + t.lost
      && (NoCrash(hs) ==> t.lost == 0)
  {
    hide Run, TallyOf, Occurs, Written;
    AccountsOverRuns(cfg, hs, s);
  }

  /**
    Done means all rows on disk exactly when no row of the entry was given to the
    writer after the entry was last marked, none was discarded, none was let go and
    none was lost in a crash.
   */
  lemma DoneHasAllRowsExactly(cfg: Settings, hs: seq<Happening>, s: nat)
    requires IsDone(Run(START, cfg, hs).disk, s)
    ensures var y, t := Run(START, cfg, hs), TallyOf(cfg, hs, s);
      Written(y.disk.files, s) == t.added <==> t.late == 0 && t.discarded == 0 && t.letGo == 0 && t.lost == 0
  {
    hide Run, TallyOf, Occurs, Written, IsDone;
    AccountsOverRuns(cfg, hs, s);
  }

  /** And a done entry is still held exactly while rows that came after its last mark are. */
  lemma DoneIsHeldOnlyLate(cfg: Settings, hs: seq<Happening>, s: nat)
    requires IsDone(Run(START, cfg, hs).disk, s)
    ensures var y, t := Run(START, cfg, hs), TallyOf(cfg, hs, s);
      && (Holds(y.mem, s) ==> t.late > 0)
      && (t.late > 0 ==> Holds(y.mem, s) || t.letGo > 0)
  {
    hide Run, TallyOf, Occurs, Written, IsDone;
    AccountsOverRuns(cfg, hs, s);
  }

  // ---------- rows let go ----------

  /** Rows of the entry that an operation discards. */
  function Discarded(m: Memory, cfg: Config, op: Op, s: nat): nat {
    OpTally(NOTHING, m, cfg, op, s).discarded
  }

  ghost predicate IsPending(d: Durable, s: nat) {
    s in d.journal.rows && d.journal.rows[s].csv == J.Pending
  }

  lemma {:induction false} UnmarkedStaysPending(d: Durable, es: seq<Effect>, s: nat)
    requires IsPending(d, s) && Marks(es, s) == 0 && Sum(es, Skipped, s) == 0
    ensures IsPending(ApplyAll(d, es), s)
  {
    if es != [] {
      var n := |es| - 1;
      UnmarkedStaysPending(d, es[..n], s);
      if es[n].CsvDone? {
        MarkDoneMoves(ApplyAll(d, es[..n]).journal, es[n].entries, s);
      }
    }
  }

  lemma DirectKeepsPending(d: Durable, cfg: J.Setup, op: Op, s: nat)
    requires IsPending(d, s) && s < d.journal.next
    ensures IsPending(Direct(d, cfg, op), s)
  {
  }

  /** An append that neither writes nor discards a row of the entry makes no mark for it. */
  lemma AppendMarksWhatLeaves(
    m: Memory, cfg: Config, machine: Machine, ev: Event, entry: Option<nat>, now: real, disk: Disk, s: nat)
    requires Shape(m) && Counted(m, s) && IsCsvEvent(ev)
    requires Sum(Append(m, cfg, machine, ev, entry, now, disk).effects, Wrote, s) == 0
    requires AppendTally(NOTHING, m, cfg, machine, ev, entry, now, disk, s).discarded == 0
    ensures var r := Append(m, cfg, machine, ev, entry, now, disk);
      Marks(r.effects, s) == 0 && Sum(r.effects, Skipped, s) == 0
  {
    hide Occurs, Sum, Shape, Counted, Append, UpToTheRow, WithTheRow, PastTheRow, Expired, Capped, Evicted;
    AppendParts(m, cfg, machine, ev, entry, now, disk);
    var k, before := KeyOf(machine, ev), UpToTheRow(m, cfg, machine, ev, now, disk);
    UpToTheRowKeeps(m, cfg, machine, ev, now, disk, s);
    if !before.raised {
      var j := WithTheRow(before.mem, k, ev, entry, now);
      var rest := PastTheRow(j, cfg, k, ev, disk);
      WithTheRowKeeps(before.mem, k, ev, entry, now, s);
      PastTheRowSettles(j, cfg, k, ev, disk, s);
      forall kind: Kind {
        SumConcat(before.effects, rest.effects, kind, s);
      }
    }
  }

  /** The operation is an append of the entry under an event type that has no place in a lot file. */
  predicate Skips(op: Op, s: nat) {
    op.AppendCsv? && op.entry == Some(s) && !IsCsvEvent(op.event)
  }

  lemma OpMarksWhatLeaves(m: Memory, cfg: Config, op: Op, s: nat)
    requires Shape(m) && Counted(m, s) && !Skips(op, s)
    requires Sum(Calls(m, cfg, op).effects, Wrote, s) == 0 && Discarded(m, cfg, op, s) == 0
    ensures var r := Calls(m, cfg, op); Marks(r.effects, s) == 0 && Sum(r.effects, Skipped, s) == 0
  {
    hide Occurs, Sum, Shape, Counted, Append, AppendTally, FlushMachine, FlushKeys, FlushLetsGo;
    match op
    case AppendCsv(machine, event, entry, now, disk) =>
      if IsCsvEvent(event) {
        AppendMarksWhatLeaves(m, cfg, machine, event, entry, now, disk, s);
      } else {
        SkipsOthersOnly(m, cfg, machine, event, entry, now, disk, s);
      }
    case FlushEndpoint(endpoint, bufferKeys, waitingKeys, reason, disk) =>
      FlushMachineSettles(m, endpoint, bufferKeys, waitingKeys, reason, disk, s);
    case FlushAll(keys, reason, disk) => FlushKeysSettles(m, keys, reason, disk, s);
    case _ => NothingMarked(s);
  }

  lemma NothingMarked(s: nat)
    ensures Marks([], s) == 0 && Sum([], Skipped, s) == 0
  {
  }

  lemma SkipsOthersOnly(
    m: Memory, cfg: Config, machine: Machine, ev: Event, entry: Option<nat>, now: real, disk: Disk, s: nat)
    requires !IsCsvEvent(ev) && entry != Some(s)
    ensures var r := Append(m, cfg, machine, ev, entry, now, disk);
      Marks(r.effects, s) == 0 && Sum(r.effects, Skipped, s) == 0
  {
    if entry.Some? {
      forall kind: Kind { SumOne(CsvSkipped(entry.value), kind, s); }
    }
  }

  /**
    Rows let go leave their entry pending. After any run, crashes included, an
    operation that neither writes nor discards a row of a pending entry leaves the entry
    pending; so if it evicts the last rows held, or lets them go with their machine, the
    entry is free to be replayed.
   */
  lemma LettingGoLeavesReplayable(cfg: Settings, hs: seq<Happening>, op: Op, s: nat)
    requires var y := Run(START, cfg, hs);
      && IsPending(y.disk, s) && !Skips(op, s)
      && Sum(Calls(y.mem, cfg.csv, op).effects, Wrote, s) == 0 && Discarded(y.mem, cfg.csv, op, s) == 0
    ensures var z := Step(Run(START, cfg, hs), cfg, Completes(op));
      IsPending(z.disk, s) && (Replayable(z, s) <==> Occurs(z.mem, s) == 0)
  {
    hide Run, Occurs, Sum, Calls, ApplyAll, Direct, Discarded, Conserves;
    var y := Run(START, cfg, hs);
    CountsOverRuns(cfg, hs, s);
    EntriesAreNumbered(cfg, hs, s);
    assert Numbered(y.disk, s);
    OpMarksWhatLeaves(y.mem, cfg.csv, op, s);
    DirectKeepsPending(y.disk, cfg.journal, op, s);
    UnmarkedStaysPending(Direct(y.disk, cfg.journal, op), Calls(y.mem, cfg.csv, op).effects, s);
    CallsKeep(y.mem, cfg.csv, op, s);
    PendingIsReplayable(Step(y, cfg, Completes(op)), s);
  }

  lemma PendingIsReplayable(z: System, s: nat)
    requires Counted(z.mem, s) && IsPending(z.disk, s)
    ensures Replayable(z, s) <==> Occurs(z.mem, s) == 0
  {
    hide Occurs;
  }

  ghost predicate Numbered(d: Durable, s: nat) {
    s in d.journal.rows ==> s < d.journal.next
  }

  lemma {:induction false} EntriesAreNumbered(cfg: Settings, hs: seq<Happening>, s: nat)
    ensures Numbered(Run(START, cfg, hs).disk, s)
  {
    if hs != [] {
      var n := |hs| - 1;
      var y := Run(START, cfg, hs[..n]);
      EntriesAreNumbered(cfg, hs[..n], s);
      StepKeepsNumbers(y, cfg, hs[n], s);
    }
  }

  lemma StepKeepsNumbers(y: System, cfg: Settings, h: Happening, s: nat)
    requires Numbered(y.disk, s)
    ensures Numbered(Step(y, cfg, h).disk, s)
  {
    hide Calls, ApplyAll, Direct;
    var r := Calls(y.mem, cfg.csv, h.op);
    DirectKeepsNumbers(y.disk, cfg.journal, h.op, s);
    AppliedKeys(Direct(y.disk, cfg.journal, h.op), r.effects, s);
    AppliedKeys(y.disk, if h.Crashes? && h.calls <= |r.effects| then r.effects[..h.calls] else r.effects, s);
  }

  lemma DirectKeepsNumbers(d: Durable, cfg: J.Setup, op: Op, s: nat)
    requires Numbered(d, s)
    ensures Numbered(Direct(d, cfg, op), s)
  {
  }

  // ---------- resolved early ----------

  /** An append that changes the lot over the entry's last rows leaves the entry done and held. */
  lemma EarlyAppendLeavesDone(
    y: System, cfg: Settings, machine: Machine, ev: Event, now: real, disk: Disk, s: nat)
    requires Shape(y.mem) && Counted(y.mem, s) && s in y.disk.journal.rows
    requires IsCsvEvent(ev) && ChangesLot(y.mem, machine, ev, disk, s) && !ClosesAgain(machine, ev, disk, s)
    ensures var z := Step(y, cfg, Completes(AppendCsv(machine, ev, Some(s), now, disk)));
      IsDone(z.disk, s) && Holds(z.mem, s)
  {
    hide Append, ApplyAll, ChangesLot, ClosesAgain, Sum, Counted, Shape, Occurs;
    ResolvedEarlyExactly(y.mem, cfg.csv, machine, ev, now, disk, s);
    var es := Append(y.mem, cfg.csv, machine, ev, Some(s), now, disk).effects;
    ApplyMoves(y.disk, es, s);
  }

  const WORKING: Disk := (_: LotFile) => true

  function OneCall(y: System, cfg: Settings, machine: Machine, ev: Event, s: nat): System {
    Step(y, cfg, Completes(AppendCsv(machine, ev, Some(s), 0.0, WORKING)))
  }

  /** The first row of a new entry on an idle port: it joins the buffer just opened for it. */
  lemma FirstRow(cfg: Config, machine: Machine, ev: Event, s: nat)
    requires IsCsvEvent(ev) && ev.lotId != "" && !ev.closesLotFile
    ensures var k := KeyOf(machine, ev);
      var r := Append(EMPTY, cfg, machine, ev, Some(s), 0.0, WORKING);
      && r.effects == [] && !r.raised
      && r.mem.buffers.Keys == {k} && r.mem.buffers[k].rowSeqs == [Some(s)] && r.mem.buffers[k].lotId == ev.lotId
      && r.mem.waiting == map[] && r.mem.dropped == map[]
  {
    var none: seq<Effect> := [];
    assert none + none == none;
  }

  /**
    So the ledger is for one-row entries only. Two rows of one message that name
    different lots of one port: the second changes the lot, the journal then calls the
    entry done, and its second row is nowhere but in memory.
   */
  lemma ExpandedEntryIsResolvedEarly(cfg: Settings, machine: Machine, identity: J.Identity, a: string, b: string)
    requires a != "" && b != "" && a != b
    ensures var y := Step(START, cfg, Completes(Accept(identity, 0, 0.0, false)));
      var first := OneCall(y, cfg, machine, Event("wafer_start", "1", a, false, 0), 1);
      var second := OneCall(first, cfg, machine, Event("wafer_start", "1", b, false, 1), 1);
      IsDone(second.disk, 1) && Holds(second.mem, 1)
  {
    var y := Step(START, cfg, Completes(Accept(identity, 0, 0.0, false)));
    assert y.mem == EMPTY && 1 in y.disk.journal.rows;
    var one, two := Event("wafer_start", "1", a, false, 0), Event("wafer_start", "1", b, false, 1);
    var first := OneCall(y, cfg, machine, one, 1);
    FirstRow(cfg.csv, machine, one, 1);
    EmptyCounted(1);
    CallsKeep(EMPTY, cfg.csv, AppendCsv(machine, one, Some(1), 0.0, WORKING), 1);
    LastRowsThere(first.mem, KeyOf(machine, two), 1);
    EarlyAppendLeavesDone(first, cfg, machine, two, 0.0, WORKING, 1);
  }

  /** One open lot with one row, and nothing else in memory. */
  lemma LastRowsThere(m: Memory, k: Key, s: nat)
    requires Shape(m) && m.buffers.Keys == {k} && m.buffers[k].rowSeqs == [Some(s)] && m.waiting == map[]
    ensures At(m, k, s) == 1 && Elsewhere(m, k, s) == 0
  {
    BufferOnly(m, k, s);
    CountOne(Some(s), Some(s));
    assert Contents(m) - {k} == map[];
  }
}
