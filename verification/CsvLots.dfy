/** One lot per file, rows in arrival order, and the two memory ceilings. */
module CsvLots {
  import opened Wrappers
  import opened CsvStore
  import opened CsvOperations
  import opened CsvLedger

  // ---------- what a buffer and a file look like ----------

  /** Rows of one port, of no lot or of `lot`, in strictly increasing arrival order below `bound`. */
  ghost predicate LotRows(rows: seq<Row>, port: string, lot: string, bound: nat) {
    && (forall i :: 0 <= i < |rows| ==>
        && (if rows[i].loadPort == "" then "NA" else rows[i].loadPort) == port
        && (rows[i].lotId == "" || rows[i].lotId == lot)
        && rows[i].ordinal < bound)
    && (forall i, j :: 0 <= i < j < |rows| ==> rows[i].ordinal < rows[j].ordinal)
  }

  ghost predicate OneLot(f: LotFile) {
    f.rows != [] && |f.rows| == |f.rowSeqs| && f.lotId != ""
    && f.machine.endpoint == f.key.endpoint
    && exists bound :: LotRows(f.rows, f.key.port, f.lotId, bound)
  }

  ghost predicate GoodBuffer(k: Key, b: LotBuffer, bound: nat) {
    && |b.rows| == |b.rowSeqs|
    && b.lotId != ""
    && b.loadPort == k.port
    && b.machine.endpoint == k.endpoint
    && LotRows(b.rows, k.port, b.lotId, bound)
  }

  function WaitingCap(cfg: Config): nat {
    if cfg.maxWaiting < 0 then 0 else cfg.maxWaiting
  }

  /** Waiting rows carry no lot at all, and their list is within its cap. */
  ghost predicate GoodWaiting(k: Key, w: seq<Waiting>, cfg: Config, bound: nat) {
    LotRows(WaitingRows(w), k.port, "", bound) && |w| <= WaitingCap(cfg)
  }

  ghost predicate Sorted(m: Memory, cfg: Config, bound: nat) {
    && (forall k :: k in m.buffers ==> GoodBuffer(k, m.buffers[k], bound))
    && (forall k :: k in m.waiting ==> GoodWaiting(k, m.waiting[k], cfg, bound))
  }

  ghost predicate FilesGood(es: seq<Effect>) {
    forall i :: 0 <= i < |es| && es[i].FileWritten? ==> OneLot(es[i].file)
  }

  ghost predicate Orders(r: Result, cfg: Config, bound: nat) {
    Sorted(r.mem, cfg, bound) && FilesGood(r.effects)
  }

  lemma Weaken(m: Memory, cfg: Config, a: nat, b: nat)
    requires a <= b && Sorted(m, cfg, a)
    ensures Sorted(m, cfg, b)
  {
  }

  lemma RowsExtend(rows: seq<Row>, row: Row, port: string, lot: string, bound: nat)
    requires LotRows(rows, port, lot, bound)
    requires (if row.loadPort == "" then "NA" else row.loadPort) == port
    requires row.lotId == "" || row.lotId == lot
    requires row.ordinal >= bound
    ensures LotRows(rows + [row], port, lot, row.ordinal + 1)
  {
  }

  lemma RowsSuffix(rows: seq<Row>, port: string, lot: string, bound: nat, i: nat)
    requires i <= |rows| && LotRows(rows, port, lot, bound)
    ensures LotRows(rows[i..], port, lot, bound)
  {
  }

  // ---------- the operations ----------

  /** A release or a forget changes counters only. */
  lemma ReleaseContainers(m: Memory, entries: seq<Option<nat>>, reason: Option<string>)
    ensures var r := Release(m, entries, reason);
      r.mem == m.(refs := r.mem.refs, dropped := r.mem.dropped) && FilesGood(r.effects)
  {
    ReleaseMarks(m.refs, m.dropped, entries, reason);
    var r := ReleaseAll(m.refs, m.dropped, entries, reason);
    var es := ReleaseCalls(r);
    forall i | 0 <= i < |es| ensures !es[i].FileWritten? {
      if i < |r.drops| {
        assert es[i] == r.drops[i] && r.drops[i].CsvDropped?;
      } else {
        assert es[i] == CsvDone(r.done);
      }
    }
  }

  lemma SameSorted(m: Memory, n: Memory, cfg: Config, bound: nat)
    requires Sorted(m, cfg, bound) && n.buffers == m.buffers && n.waiting == m.waiting
    ensures Sorted(n, cfg, bound)
  {
  }

  /** The waiting rows left after the oldest go are still in order and within the cap. */
  lemma ExpiryOrders(m: Memory, n: Memory, cfg: Config, k: Key, gone: nat, bound: nat)
    requires Sorted(m, cfg, bound) && k in m.waiting && gone <= |m.waiting[k]|
    requires n.buffers == m.buffers
    requires n.waiting == (if gone == |m.waiting[k]| then m.waiting - {k} else m.waiting[k := m.waiting[k][gone..]])
    ensures Sorted(n, cfg, bound)
  {
    var bucket := m.waiting[k];
    assert WaitingRows(bucket[gone..]) == WaitingRows(bucket)[gone..];
    RowsSuffix(WaitingRows(bucket), k.port, "", bound, gone);
    hide LotRows, WaitingRows;
  }

  lemma PruneOrders(m: Memory, cfg: Config, k: Key, now: real, bound: nat)
    requires Sorted(m, cfg, bound)
    ensures var r := Prune(m, cfg, k, now);
      && Orders(r, cfg, bound)
      && r.mem.buffers == m.buffers && r.mem.failures == m.failures
      && (k in r.mem.waiting ==> k in m.waiting && |r.mem.waiting[k]| <= |m.waiting[k]|)
  {
    hide Sorted, Release, Entries;
    if k in m.waiting && m.waiting[k] != [] {
      var bucket := m.waiting[k];
      var n := ExpiredCount(bucket, now - cfg.ttl);
      var rest := bucket[n..];
      var m1 := m.(waiting := if rest == [] then m.waiting - {k} else m.waiting[k := rest]);
      ExpiryOrders(m, m1, cfg, k, n, bound);
      var r := Release(m1, Entries(bucket[..n]), Some(TTL_REASON));
      ReleaseContainers(m1, Entries(bucket[..n]), Some(TTL_REASON));
      SameSorted(m1, r.mem, cfg, bound);
    }
  }

  lemma WriteOrders(m: Memory, cfg: Config, k: Key, b: LotBuffer, reason: string, disk: Disk, bound: nat)
    requires Sorted(m, cfg, bound) && k in m.buffers && m.buffers[k] == b
    ensures var w := WriteBuffer(m, k, b, reason, disk);
      && Orders(w, cfg, bound)
      && w.mem.buffers == m.buffers && w.mem.waiting == m.waiting
      && (w.raised ==> w.effects == [])
      && (!w.raised && b.rows != [] ==> k !in w.mem.failures)
  {
    hide ReleaseAll, ReleaseCalls;
    ReleaseContainers(m.(failures := m.failures - {k}), b.rowSeqs, None);
    if b.rows != [] && disk(FileOf(k, b, reason)) {
      assert OneLot(FileOf(k, b, reason));
    }
  }

  lemma WriteAndRemoveOrders(m: Memory, cfg: Config, k: Key, reason: string, disk: Disk, bound: nat)
    requires Sorted(m, cfg, bound)
    ensures Orders(WriteAndRemove(m, k, reason, disk), cfg, bound)
    ensures !WriteAndRemove(m, k, reason, disk).raised ==> k !in WriteAndRemove(m, k, reason, disk).mem.buffers
  {
    hide WriteBuffer;
    if k in m.buffers {
      WriteOrders(m, cfg, k, m.buffers[k], reason, disk, bound);
    }
  }

  lemma GetBufferOrders(m: Memory, cfg: Config, machine: Machine, ev: Event, now: real, bound: nat)
    requires Sorted(m, cfg, bound)
    requires KeyOf(machine, ev) in m.buffers || ev.lotId != ""
    ensures Orders(GetBuffer(m, cfg, machine, KeyOf(machine, ev), ev, now), cfg, bound)
  {
    hide Prune, AddWaiting;
    var k := KeyOf(machine, ev);
    if k !in m.buffers {
      PruneOrders(m, cfg, k, now, bound);
      Promotion(m, cfg, machine, k, ev, now);
      var p := Prune(m, cfg, k, now);
      var w := Get(p.mem.waiting, k, []);
      assert GoodBuffer(k, NewBuffer(machine, ev).(rows := WaitingRows(w), rowSeqs := Entries(w)), bound);
    }
  }

  lemma AppendWaitingOrders(
    m: Memory, cfg: Config, machine: Machine, ev: Event, entry: Option<nat>, now: real, bound: nat)
    requires Sorted(m, cfg, bound) && ev.lotId == "" && ev.ordinal >= bound
    ensures Orders(AppendWaiting(m, cfg, KeyOf(machine, ev), ev, entry, now), cfg, ev.ordinal + 1)
  {
    hide Prune, Release, FilesGood, Sorted;
    var k := KeyOf(machine, ev);
    var p := Prune(m, cfg, k, now);
    PruneOrders(m, cfg, k, now, bound);
    var before := Get(p.mem.waiting, k, []);
    var bucket := before + [Waiting(now, RowOf(ev), entry)];
    BucketOrders(p.mem, cfg, machine, ev, bucket, bound);
    Weaken(p.mem, cfg, bound, ev.ordinal + 1);
    var m1 := Track(p.mem.(waiting := p.mem.waiting[k := bucket]), entry);
    if |bucket| > cfg.maxWaiting {
      var m2 := m1.(waiting := m1.waiting[k := bucket[1..]]);
      var r := Release(m2, [bucket[0].entry], Some(CAP_REASON));
      ReleaseContainers(m2, [bucket[0].entry], Some(CAP_REASON));
      PutWaiting(p.mem, r.mem, cfg, k, bucket[1..], ev.ordinal + 1);
      FilesConcat(p.effects, r.effects);
    } else {
      PutWaiting(p.mem, m1, cfg, k, bucket, ev.ordinal + 1);
    }
  }

  /** The waiting list with the new row at its end, and with its oldest row gone. */
  lemma BucketOrders(m: Memory, cfg: Config, machine: Machine, ev: Event, bucket: seq<Waiting>, bound: nat)
    requires Sorted(m, cfg, bound) && ev.lotId == "" && ev.ordinal >= bound
    requires bucket != [] && bucket[..|bucket| - 1] == Get(m.waiting, KeyOf(machine, ev), [])
    requires bucket[|bucket| - 1].row == RowOf(ev)
    ensures var k := KeyOf(machine, ev);
      && (|bucket| <= cfg.maxWaiting ==> GoodWaiting(k, bucket, cfg, ev.ordinal + 1))
      && GoodWaiting(k, bucket[1..], cfg, ev.ordinal + 1)
  {
    var k := KeyOf(machine, ev);
    var before := bucket[..|bucket| - 1];
    assert WaitingRows(bucket) == WaitingRows(before) + [RowOf(ev)];
    RowsExtend(WaitingRows(before), RowOf(ev), k.port, "", bound);
    assert WaitingRows(bucket[1..]) == WaitingRows(bucket)[1..];
    RowsSuffix(WaitingRows(bucket), k.port, "", ev.ordinal + 1, 1);
  }

  lemma PutWaiting(m: Memory, n: Memory, cfg: Config, k: Key, w: seq<Waiting>, bound: nat)
    requires Sorted(m, cfg, bound) && GoodWaiting(k, w, cfg, bound)
    requires n.buffers == m.buffers && n.waiting == m.waiting[k := w]
    ensures Sorted(n, cfg, bound)
  {
  }

  lemma FilesConcat(a: seq<Effect>, b: seq<Effect>)
    requires FilesGood(a) && FilesGood(b)
    ensures FilesGood(a + b)
  {
  }

  /** What an append owes its own port when it returns normally. */
  ghost predicate BelowRowLimit(m: Memory, cfg: Config, k: Key) {
    k in m.buffers && Get(m.failures, k, 0) != 0 ==> |m.buffers[k].rows| <= cfg.maxLotRows
  }

  lemma JoinedOrders(m: Memory, cfg: Config, machine: Machine, ev: Event, entry: Option<nat>, bound: nat)
    requires Sorted(m, cfg, bound) && KeyOf(machine, ev) in m.buffers
    requires !LotChanged(m.buffers[KeyOf(machine, ev)], ev) && ev.ordinal >= bound
    ensures Sorted(Joined(m, KeyOf(machine, ev), ev, entry), cfg, ev.ordinal + 1)
  {
    hide LotRows;
    var k := KeyOf(machine, ev);
    var b := m.buffers[k];
    AddExact(b, RowOf(ev), entry);
    RowsExtend(b.rows, RowOf(ev), k.port, b.lotId, bound);
    Weaken(m, cfg, bound, ev.ordinal + 1);
  }

  lemma EvictOrders(m: Memory, cfg: Config, k: Key, bound: nat)
    requires Sorted(m, cfg, bound) && k in m.buffers
    ensures Sorted(Evict(m, k), cfg, bound) && k !in Evict(m, k).buffers
  {
    ForgetShape(m.(buffers := m.buffers - {k}), m.buffers[k].rowSeqs);
  }

  lemma AppendRowOrders(
    m: Memory, cfg: Config, machine: Machine, ev: Event, entry: Option<nat>, disk: Disk, bound: nat)
    requires Sorted(m, cfg, bound) && KeyOf(machine, ev) in m.buffers
    requires !LotChanged(m.buffers[KeyOf(machine, ev)], ev) && ev.ordinal >= bound
    ensures var r := AppendRow(m, cfg, KeyOf(machine, ev), ev, entry, disk);
      Orders(r, cfg, ev.ordinal + 1) && (!r.raised ==> BelowRowLimit(r.mem, cfg, KeyOf(machine, ev)))
  {
    hide WriteAndRemove, Joined, Evict, Sorted;
    var k := KeyOf(machine, ev);
    var m1 := Joined(m, k, ev, entry);
    JoinedOrders(m, cfg, machine, ev, entry, bound);
    WriteAndRemoveOrders(m1, cfg, k, "carrier_unloaded", disk, ev.ordinal + 1);
    if k in m1.buffers {
      EvictOrders(m1, cfg, k, ev.ordinal + 1);
    }
  }

  lemma OrdersAfter(r: Result, q: Result, cfg: Config, bound: nat)
    requires FilesGood(r.effects) && Orders(q, cfg, bound)
    ensures Orders(After(r, q), cfg, bound)
  {
  }

  lemma OpenLotOrders(m: Memory, cfg: Config, machine: Machine, ev: Event, now: real, disk: Disk, bound: nat)
    requires Sorted(m, cfg, bound) && (KeyOf(machine, ev) in m.buffers || ev.lotId != "")
    ensures var o := OpenLot(m, cfg, machine, ev, now, disk);
      && Orders(o, cfg, bound)
      && KeyOf(machine, ev) in o.mem.buffers
      && (!o.raised ==> !LotChanged(o.mem.buffers[KeyOf(machine, ev)], ev))
  {
    hide Prune, WriteBuffer, AddWaiting, FilesGood, Sorted;
    var k := KeyOf(machine, ev);
    var got := GetBuffer(m, cfg, machine, k, ev, now);
    var b := got.mem.buffers[k];
    GetBufferOrders(m, cfg, machine, ev, now, bound);
    if LotChanged(b, ev) {
      var w := WriteBuffer(got.mem, k, b, "lot_changed", disk);
      WriteOrders(got.mem, cfg, k, b, "lot_changed", disk, bound);
      FilesConcat(got.effects, w.effects);
      ReopenOrders(w.mem, w.mem.(buffers := w.mem.buffers[k := NewBuffer(machine, ev)]), cfg, machine, ev, bound);
    }
  }

  /** One append keeps every buffer a single lot in arrival order, and its own port within its limits. */
  lemma AppendOrders(
    m: Memory, cfg: Config, machine: Machine, ev: Event, entry: Option<nat>, now: real, disk: Disk, bound: nat)
    requires Sorted(m, cfg, bound) && ev.ordinal >= bound
    ensures var r := Append(m, cfg, machine, ev, entry, now, disk);
      && Orders(r, cfg, ev.ordinal + 1)
      && (!r.raised && IsCsvEvent(ev) ==> BelowRowLimit(r.mem, cfg, KeyOf(machine, ev)))
  {
    hide OpenLot, AppendRow, FilesGood, Sorted, AppendWaiting, PortOf;
    var k := KeyOf(machine, ev);
    if !IsCsvEvent(ev) {
      Weaken(m, cfg, bound, ev.ordinal + 1);
      SkipWritesNothing(entry);
    } else if ev.lotId == "" && k !in m.buffers {
      AppendWaitingOrders(m, cfg, machine, ev, entry, now, bound);
      AppendWaitingBuffers(m, cfg, k, ev, entry, now);
    } else {
      var o := OpenLot(m, cfg, machine, ev, now, disk);
      OpenLotOrders(m, cfg, machine, ev, now, disk, bound);
      Weaken(o.mem, cfg, bound, ev.ordinal + 1);
      if !o.raised {
        AppendRowOrders(o.mem, cfg, machine, ev, entry, disk, bound);
        OrdersAfter(o, AppendRow(o.mem, cfg, k, ev, entry, disk), cfg, ev.ordinal + 1);
      }
    }
  }

  lemma SkipWritesNothing(entry: Option<nat>)
    ensures FilesGood(if entry.Some? then [CsvSkipped(entry.value)] else [])
  {
  }

  lemma AppendWaitingBuffers(m: Memory, cfg: Config, k: Key, ev: Event, entry: Option<nat>, now: real)
    ensures AppendWaiting(m, cfg, k, ev, entry, now).mem.buffers == m.buffers
  {
    hide ReleaseAll;
  }

  lemma ReopenOrders(m: Memory, n: Memory, cfg: Config, machine: Machine, ev: Event, bound: nat)
    requires Sorted(m, cfg, bound) && ev.lotId != ""
    requires n == m.(buffers := m.buffers[KeyOf(machine, ev) := NewBuffer(machine, ev)])
    ensures Sorted(n, cfg, bound)
  {
  }

  lemma {:induction false} FlushKeysOrders(m: Memory, cfg: Config, keys: seq<Key>, reason: string, disk: Disk, bound: nat)
    requires Sorted(m, cfg, bound)
    ensures Orders(FlushKeys(m, keys, reason, disk), cfg, bound)
  {
    hide WriteAndRemove, FilesGood, Sorted;
    if keys == [] {
      FilesNone();
    } else {
      var n := |keys| - 1;
      var before := FlushKeys(m, keys[..n], reason, disk);
      FlushKeysOrders(m, cfg, keys[..n], reason, disk, bound);
      if !before.raised {
        WriteAndRemoveOrders(before.mem, cfg, keys[n], reason, disk, bound);
        OrdersAfter(before, WriteAndRemove(before.mem, keys[n], reason, disk), cfg, bound);
      }
    }
  }

  lemma FilesNone()
    ensures FilesGood([])
  {
  }

  lemma {:induction false} ForgetWaitingOrders(m: Memory, cfg: Config, keys: seq<Key>, bound: nat)
    requires Sorted(m, cfg, bound)
    ensures Sorted(ForgetWaiting(m, keys), cfg, bound)
  {
    if keys != [] {
      var n := |keys| - 1;
      ForgetWaitingOrders(m, cfg, keys[..n], bound);
      var before := ForgetWaiting(m, keys[..n]);
      ForgetShape(before.(waiting := before.waiting - {keys[n]}), Entries(Get(before.waiting, keys[n], [])));
    }
  }

  // ---------- whole runs ----------

  function Bound(hs: seq<Happening>): nat {
    if hs == [] then 0
    else
      var h := hs[|hs| - 1];
      if h.op.AppendCsv? then h.op.event.ordinal + 1 else Bound(hs[..|hs| - 1])
  }

  /** Events are numbered in the order the writer receives them. */
  ghost predicate Numbered(hs: seq<Happening>) {
    forall i :: 0 <= i < |hs| && hs[i].op.AppendCsv? ==> hs[i].op.event.ordinal >= Bound(hs[..i])
  }

  lemma CallsOrder(m: Memory, cfg: Config, op: Op, bound: nat)
    requires Sorted(m, cfg, bound) && (op.AppendCsv? ==> op.event.ordinal >= bound)
    ensures Orders(Calls(m, cfg, op), cfg, if op.AppendCsv? then op.event.ordinal + 1 else bound)
  {
    hide Append, FlushKeys, ForgetWaiting, Sorted;
    match op
    case AppendCsv(machine, event, entry, now, disk) =>
      AppendOrders(m, cfg, machine, event, entry, now, disk, bound);
    case FlushEndpoint(endpoint, bufferKeys, waitingKeys, reason, disk) =>
      var m0 := m.(failures := map k | k in m.failures && k.endpoint != endpoint :: m.failures[k]);
      SameSorted(m, m0, cfg, bound);
      FlushKeysOrders(m0, cfg, bufferKeys, reason, disk, bound);
      var flushed := FlushKeys(m0, bufferKeys, reason, disk);
      if !flushed.raised {
        ForgetWaitingOrders(flushed.mem, cfg, waitingKeys, bound);
      }
    case FlushAll(keys, reason, disk) => FlushKeysOrders(m, cfg, keys, reason, disk, bound);
    case _ =>
  }

  ghost predicate AllOneLot(files: seq<LotFile>) {
    forall i :: 0 <= i < |files| ==> OneLot(files[i])
  }

  lemma {:induction false} AppliedFiles(d: Durable, es: seq<Effect>)
    requires AllOneLot(d.files) && FilesGood(es)
    ensures AllOneLot(ApplyAll(d, es).files)
  {
    if es != [] {
      AppliedFiles(d, es[..|es| - 1]);
    }
  }

  lemma EmptySorted(cfg: Config, bound: nat)
    ensures Sorted(EMPTY, cfg, bound)
  {
  }

  /**
    Over any run, crashes and failed writes included, every file ever written
    holds rows of one load port and of one lot, in arrival order, and every
    waiting list is within its cap.
   */
  lemma {:induction false} OneLotPerFile(cfg: Settings, hs: seq<Happening>)
    requires Numbered(hs)
    ensures var y := Run(START, cfg, hs);
      AllOneLot(y.disk.files) && Sorted(y.mem, cfg.csv, Bound(hs))
  {
    hide Calls, ApplyAll, Sorted, AllOneLot, FilesGood;
    EmptySorted(cfg.csv, Bound(hs));
    if hs == [] {
      NoFiles();
    } else {
      var n := |hs| - 1;
      var h := hs[n];
      var y := Run(START, cfg, hs[..n]);
      assert forall i :: 0 <= i < n ==> hs[..n][..i] == hs[..i];
      OneLotPerFile(cfg, hs[..n]);
      CallsOrder(y.mem, cfg.csv, h.op, Bound(hs[..n]));
      var es := Calls(y.mem, cfg.csv, h.op).effects;
      if h.Completes? {
        AppliedFiles(Direct(y.disk, cfg.journal, h.op), es);
      } else {
        var k := if h.calls <= |es| then h.calls else |es|;
        FilesPrefix(es, k);
        assert es[..|es|] == es;
        AppliedFiles(y.disk, es[..k]);
      }
    }
  }

  lemma NoFiles()
    ensures AllOneLot([])
  {
  }

  lemma FilesPrefix(es: seq<Effect>, n: nat)
    requires n <= |es| && FilesGood(es)
    ensures FilesGood(es[..n])
  {
  }

  /** A port whose write has failed is back within its row limit whenever an append to it returns. */
  lemma RowLimitAfterAppend(
    cfg: Settings, hs: seq<Happening>, machine: Machine, ev: Event, entry: Option<nat>, now: real, disk: Disk)
    requires Numbered(hs) && ev.ordinal >= Bound(hs) && IsCsvEvent(ev)
    ensures var r := Append(Run(START, cfg, hs).mem, cfg.csv, machine, ev, entry, now, disk);
      !r.raised ==> BelowRowLimit(r.mem, cfg.csv, KeyOf(machine, ev))
  {
    OneLotPerFile(cfg, hs);
    AppendOrders(Run(START, cfg, hs).mem, cfg.csv, machine, ev, entry, now, disk, Bound(hs));
  }
}
