/**
  The balance of rows in the CSV writer, for entries of any number of rows: every
  row that leaves memory was written to a file, discarded (expired or past the
  waiting cap) or let go (evicted, or dropped from memory by a machine flush), and
  an entry is marked exactly when its last held row is written or discarded.
 */
module CsvBalance {
  import opened Wrappers
  import opened Counting
  import opened CsvStore
  import opened CsvAccounting
  import opened CsvOperations

  /** The completion marks an entry is given: done, or dropped with a reason. */
  function Marks(es: seq<Effect>, s: nat): nat {
    Sum(es, Done, s) + Sum(es, Dropped, s)
  }

  /**
    An operation that adds no row of `s`, discards so many of them and lets so many go.
    What else leaves memory was written. A mark means that the last held row has been
    written or discarded; and when no row is let go, the last one to leave brings a mark.
   */
  ghost predicate Settles(m: Memory, r: Result, discarded: nat, letGo: nat, s: nat) {
    && Occurs(m, s) == Occurs(r.mem, s) + Sum(r.effects, Wrote, s) + discarded + letGo
    && Sum(r.effects, Skipped, s) == 0
    && Marks(r.effects, s) <= 1
    && (Marks(r.effects, s) > 0 ==> Occurs(r.mem, s) == 0 && Sum(r.effects, Wrote, s) + discarded > 0)
    && (Occurs(m, s) > 0 && Occurs(r.mem, s) == 0 && letGo == 0 ==> Marks(r.effects, s) > 0)
  }

  lemma SettlesAfter(m: Memory, r: Result, d: nat, g: nat, q: Result, e: nat, h: nat, s: nat)
    requires Settles(m, r, d, g, s) && Settles(r.mem, q, e, h, s)
    ensures Settles(m, After(r, q), d + e, g + h, s)
  {
    hide Sum, Occurs;
    forall kind: Kind
      ensures Sum(r.effects + q.effects, kind, s) == Sum(r.effects, kind, s) + Sum(q.effects, kind, s)
    {
      SumConcat(r.effects, q.effects, kind, s);
    }
  }

  /** An operation that makes no durable call and neither adds nor removes a row. */
  lemma SettlesQuiet(m: Memory, n: Memory, raised: bool, s: nat)
    requires Occurs(n, s) == Occurs(m, s)
    ensures Settles(m, Result(n, [], raised), 0, 0, s)
  {
  }

  // ---------- what leaves one key ----------

  lemma ReleaseSettles(m: Memory, n: Memory, k: Key, gone: seq<Option<nat>>, reason: string, s: nat)
    requires Counted(m, s) && OnlyKey(m, n, k) && n.refs == m.refs && n.dropped == m.dropped
    requires At(m, k, s) == Count(gone, Some(s)) + At(n, k, s)
    ensures Settles(m, Release(n, gone, Some(reason)), Count(gone, Some(s)), 0, s)
  {
    hide Release, Sum, At, Count, Occurs, OnlyKey;
    ReleaseKey(m, n, k, gone, Some(reason), s);
    ReleaseSums(n, gone, Some(reason), s);
  }

  /** A successful write, followed by whatever empties the buffer under that key. */
  lemma WriteSettles(m: Memory, k: Key, reason: string, disk: Disk, after: map<Key, LotBuffer>, s: nat)
    requires Shape(m) && Counted(m, s) && k in m.buffers
    requires after - {k} == m.buffers - {k}
    requires k in after ==> after[k].rows == [] && after[k].rowSeqs == []
    requires m.buffers[k].rows == [] || disk(FileOf(k, m.buffers[k], reason))
    ensures var w := WriteBuffer(m, k, m.buffers[k], reason, disk);
      Settles(m, w.(mem := w.mem.(buffers := after)), 0, 0, s)
  {
    hide Total, Contents, Count, Occurs, Sum, ReleaseAll, ReleaseCalls, At, EntriesAt;
    var b := m.buffers[k];
    var w := WriteBuffer(m, k, b, reason, disk);
    if b.rows == [] {
      var n := m.(buffers := after);
      Emptied(m, k, n, s);
      CountNone(Some(s));
      MoveKey(m, n, k, s);
      SettlesQuiet(m, n, false, s);
    } else {
      var n := m.(failures := m.failures - {k}, buffers := after);
      Emptied(m, k, n, s);
      ReleaseKey(m, n, k, b.rowSeqs, None, s);
      WriteSums(m, k, b, reason, disk, s);
      assert w.mem.(buffers := after) == Release(n, b.rowSeqs, None).mem;
      ReleaseSums(m, b.rowSeqs, None, s);
    }
  }

  lemma WriteAndRemoveSettles(m: Memory, k: Key, reason: string, disk: Disk, s: nat)
    requires Shape(m) && Counted(m, s)
    ensures Settles(m, WriteAndRemove(m, k, reason, disk), 0, 0, s)
  {
    hide Occurs;
    if k !in m.buffers {
      SettlesQuiet(m, m, false, s);
    } else {
      var w := WriteBuffer(m, k, m.buffers[k], reason, disk);
      if w.raised {
        SameContainers(m, w.mem, s);
        SettlesQuiet(m, w.mem, true, s);
      } else {
        WriteSettles(m, k, reason, disk, m.buffers - {k}, s);
        assert w.mem.buffers == m.buffers;
      }
    }
  }

  lemma EvictSettles(m: Memory, k: Key, s: nat)
    requires Shape(m) && Counted(m, s) && k in m.buffers
    ensures Settles(m, Result(Evict(m, k), [], false), 0, Count(m.buffers[k].rowSeqs, Some(s)), s)
  {
    hide Total, Contents, Count;
    var n := m.(buffers := m.buffers - {k});
    BufferOnly(m, k, s);
    assert EntriesAt(n, k) == [];
    CountNone(Some(s));
    ForgetKey(m, n, k, m.buffers[k].rowSeqs, s);
  }

  // ---------- rows discarded by age ----------

  /** Rows of `s` that have waited under a key past the time limit. */
  function Expired(m: Memory, cfg: Config, k: Key, now: real, s: nat): nat {
    var bucket := Get(m.waiting, k, []);
    Count(Entries(bucket[..ExpiredCount(bucket, now - cfg.ttl)]), Some(s))
  }

  lemma PruneSettles(m: Memory, cfg: Config, k: Key, now: real, s: nat)
    requires Shape(m) && Counted(m, s)
    ensures Settles(m, Prune(m, cfg, k, now), Expired(m, cfg, k, now, s), 0, s)
  {
    hide At, Count, Entries, Occurs, Counted, OnlyKey, ReleaseAll, ReleaseCalls, Sum;
    var bucket := Get(m.waiting, k, []);
    var n := ExpiredCount(bucket, now - cfg.ttl);
    NoEntries(bucket[..0], s);
    if bucket == [] {
      SettlesQuiet(m, m, false, s);
    } else {
      var rest := bucket[n..];
      var m1 := m.(waiting := if rest == [] then m.waiting - {k} else m.waiting[k := rest]);
      SetWaiting(m, m1, k, rest, s);
      SplitCount(bucket, n, s);
      if n == 0 {
        MoveKey(m, m1, k, s);
        SettlesQuiet(m, m1, false, s);
      } else {
        ReleaseSettles(m, m1, k, Entries(bucket[..n]), TTL_REASON, s);
      }
    }
  }

  lemma GetBufferSettles(m: Memory, cfg: Config, machine: Machine, k: Key, ev: Event, now: real, s: nat)
    requires Shape(m) && Counted(m, s)
    ensures Settles(m, GetBuffer(m, cfg, machine, k, ev, now),
      if k in m.buffers then 0 else Expired(m, cfg, k, now, s), 0, s)
  {
    hide Prune, Occurs, Counted, Entries, WaitingRows, Expired, Settles;
    if k in m.buffers {
      SettlesQuiet(m, m, false, s);
    } else {
      var p, r := Prune(m, cfg, k, now), GetBuffer(m, cfg, machine, k, ev, now);
      PruneKeeps(m, cfg, k, now, s);
      PruneSettles(m, cfg, k, now, s);
      Promotion(m, cfg, machine, k, ev, now);
      PromotionSettles(p.mem, r.mem, k, machine, ev, s);
      SettlesAfter(m, p, Expired(m, cfg, k, now, s), 0, Result(r.mem, [], false), 0, 0, s);
      assert p.effects + [] == p.effects;
      assert After(p, Result(r.mem, [], false)) == r;
    }
  }

  lemma PromotionSettles(m: Memory, n: Memory, k: Key, machine: Machine, ev: Event, s: nat)
    requires Shape(m) && Counted(m, s) && k !in m.buffers
    requires var w := Get(m.waiting, k, []);
      n == m.(
        buffers := m.buffers[k := NewBuffer(machine, ev).(rows := WaitingRows(w), rowSeqs := Entries(w))],
        waiting := m.waiting - {k})
    ensures Settles(m, Result(n, [], false), 0, 0, s)
  {
    hide Total, Contents, Count, Occurs;
    WaitingOnly(m, k, s);
    BufferOnly(n, k, s);
    MoveKey(m, n, k, s);
    SettlesQuiet(m, n, false, s);
  }

  lemma OpenLotSettles(m: Memory, cfg: Config, machine: Machine, ev: Event, now: real, disk: Disk, s: nat)
    requires Shape(m) && Counted(m, s)
    ensures Settles(m, OpenLot(m, cfg, machine, ev, now, disk),
      if KeyOf(machine, ev) in m.buffers then 0 else Expired(m, cfg, KeyOf(machine, ev), now, s), 0, s)
  {
    hide Total, Contents, Count, Prune, AddWaiting, Occurs, Conserves, Expired, Settles, Sum;
    var k := KeyOf(machine, ev);
    var expired := if k in m.buffers then 0 else Expired(m, cfg, k, now, s);
    var got := GetBuffer(m, cfg, machine, k, ev, now);
    var b := got.mem.buffers[k];
    GetBufferKeeps(m, cfg, machine, k, ev, now, s);
    GetBufferSettles(m, cfg, machine, k, ev, now, s);
    if LotChanged(b, ev) {
      var w := WriteBuffer(got.mem, k, b, "lot_changed", disk);
      if w.raised {
        SameContainers(got.mem, w.mem, s);
        SettlesQuiet(got.mem, w.mem, true, s);
        SettlesAfter(m, got, expired, 0, w, 0, 0, s);
      } else {
        var after := got.mem.buffers[k := NewBuffer(machine, ev)];
        assert w.mem.buffers == got.mem.buffers;
        WriteSettles(got.mem, k, "lot_changed", disk, after, s);
        SettlesAfter(m, got, expired, 0, w.(mem := w.mem.(buffers := after)), 0, 0, s);
      }
    }
  }

  // ---------- an append, around its row ----------

  /** What an append does before its row joins: waiting rows expire, or the lot is opened or changed. */
  function UpToTheRow(m: Memory, cfg: Config, machine: Machine, ev: Event, now: real, disk: Disk): Result {
    if ev.lotId == "" && KeyOf(machine, ev) !in m.buffers then Prune(m, cfg, KeyOf(machine, ev), now)
    else OpenLot(m, cfg, machine, ev, now, disk)
  }

  /** The row joins the open buffer, or the waiting rows when there is none. */
  function WithTheRow(m: Memory, k: Key, ev: Event, entry: Option<nat>, now: real): Memory {
    if k in m.buffers then Joined(m, k, ev, entry)
    else
      var bucket := Get(m.waiting, k, []) + [Waiting(now, RowOf(ev), entry)];
      Track(m.(waiting := m.waiting[k := bucket]), entry)
  }

  predicate OverLong(m: Memory, cfg: Config, k: Key) {
    k in m.buffers && Get(m.failures, k, 0) != 0 && |m.buffers[k].rows| > cfg.maxLotRows
  }

  predicate OverFull(m: Memory, cfg: Config, k: Key) {
    k !in m.buffers && k in m.waiting && m.waiting[k] != [] && |m.waiting[k]| > cfg.maxWaiting
  }

  /** What follows: the lot is closed, or evicted as over-long, or the oldest waiting row goes. */
  function PastTheRow(m: Memory, cfg: Config, k: Key, ev: Event, disk: Disk): Result {
    if k in m.buffers && ev.closesLotFile then WriteAndRemove(m, k, "carrier_unloaded", disk)
    else if OverLong(m, cfg, k) then Result(Evict(m, k), [], false)
    else if OverFull(m, cfg, k) then
      Release(m.(waiting := m.waiting[k := m.waiting[k][1..]]), [m.waiting[k][0].entry], Some(CAP_REASON))
    else Result(m, [], false)
  }

  lemma WaitingParts(m: Memory, cfg: Config, k: Key, ev: Event, entry: Option<nat>, now: real, disk: Disk)
    requires k !in m.buffers
    ensures var before := Prune(m, cfg, k, now);
      AppendWaiting(m, cfg, k, ev, entry, now)
        == After(before, PastTheRow(WithTheRow(before.mem, k, ev, entry, now), cfg, k, ev, disk))
  {
    hide Prune, ReleaseAll, ReleaseCalls;
    PruneBuffers(m, cfg, k, now);
    var before := Prune(m, cfg, k, now);
    assert before.effects + [] == before.effects;
  }

  lemma LotParts(m: Memory, cfg: Config, k: Key, ev: Event, entry: Option<nat>, now: real, disk: Disk)
    requires k in m.buffers
    ensures AppendRow(m, cfg, k, ev, entry, disk) == PastTheRow(WithTheRow(m, k, ev, entry, now), cfg, k, ev, disk)
  {
    hide WriteAndRemove, Evict, JoinedBuffer;
  }

  /** An append is what comes before its row, the row, and what follows; a failed write ends it before the row. */
  lemma AppendParts(m: Memory, cfg: Config, machine: Machine, ev: Event, entry: Option<nat>, now: real, disk: Disk)
    requires IsCsvEvent(ev)
    ensures var k, before := KeyOf(machine, ev), UpToTheRow(m, cfg, machine, ev, now, disk);
      Append(m, cfg, machine, ev, entry, now, disk) ==
        if before.raised then before
        else After(before, PastTheRow(WithTheRow(before.mem, k, ev, entry, now), cfg, k, ev, disk))
  {
    hide Prune, OpenLot, PortOf, AppendRow, AppendWaiting, PastTheRow, WithTheRow;
    var k, before := KeyOf(machine, ev), UpToTheRow(m, cfg, machine, ev, now, disk);
    if ev.lotId == "" && k !in m.buffers {
      PruneBuffers(m, cfg, k, now);
      WaitingParts(m, cfg, k, ev, entry, now, disk);
    } else {
      OpenLotOpens(m, cfg, machine, ev, now, disk);
      LotParts(before.mem, cfg, k, ev, entry, now, disk);
    }
  }

  lemma PruneBuffers(m: Memory, cfg: Config, k: Key, now: real)
    ensures var r := Prune(m, cfg, k, now); r.mem.buffers == m.buffers && !r.raised
  {
  }

  lemma UpToTheRowKeeps(m: Memory, cfg: Config, machine: Machine, ev: Event, now: real, disk: Disk, s: nat)
    requires Shape(m) && Counted(m, s)
    ensures var r := UpToTheRow(m, cfg, machine, ev, now, disk);
      && Shape(r.mem) && Counted(r.mem, s)
      && Settles(m, r, if KeyOf(machine, ev) in m.buffers then 0 else Expired(m, cfg, KeyOf(machine, ev), now, s), 0, s)
  {
    hide Shape, Counted, Settles, Occurs, Prune, OpenLot, Expired, Conserves;
    PruneKeeps(m, cfg, KeyOf(machine, ev), now, s);
    PruneSettles(m, cfg, KeyOf(machine, ev), now, s);
    OpenLotKeeps(m, cfg, machine, ev, now, disk, s);
    OpenLotSettles(m, cfg, machine, ev, now, disk, s);
  }

  lemma WithTheRowKeeps(m: Memory, k: Key, ev: Event, entry: Option<nat>, now: real, s: nat)
    requires Shape(m) && Counted(m, s)
    ensures var j := WithTheRow(m, k, ev, entry, now);
      Shape(j) && Counted(j, s) && Occurs(j, s) == Occurs(m, s) + (if entry == Some(s) then 1 else 0)
  {
    hide Total, Contents, Count, Entries, EntriesAt, OnlyKey;
    if k in m.buffers {
      JoinedKeeps(m, k, ev, entry, s);
    } else {
      WaitKeeps(m, k, Waiting(now, RowOf(ev), entry), s);
    }
  }

  /** Rows of `s` that go because one more was waiting than may wait. */
  function Capped(m: Memory, cfg: Config, k: Key, s: nat): nat {
    if OverFull(m, cfg, k) && m.waiting[k][0].entry == Some(s) then 1 else 0
  }

  /** Rows of `s` in a lot that is given up as over-long. */
  function Evicted(m: Memory, cfg: Config, k: Key, ev: Event, s: nat): nat {
    if OverLong(m, cfg, k) && !ev.closesLotFile then Count(m.buffers[k].rowSeqs, Some(s)) else 0
  }

  lemma CapSettles(m: Memory, cfg: Config, k: Key, s: nat)
    requires Shape(m) && Counted(m, s) && OverFull(m, cfg, k)
    ensures Settles(m,
      Release(m.(waiting := m.waiting[k := m.waiting[k][1..]]), [m.waiting[k][0].entry], Some(CAP_REASON)),
      Capped(m, cfg, k, s), 0, s)
  {
    hide Total, Contents, Count, Occurs, ReleaseAll, ReleaseCalls, Counted, Settles;
    var bucket := m.waiting[k];
    var n := m.(waiting := m.waiting[k := bucket[1..]]);
    SplitCount(bucket, 1, s);
    assert bucket[..1] == [bucket[0]];
    OneEntry(bucket[0], s);
    WaitingOnly(m, k, s);
    WaitingOnly(n, k, s);
    CountOne(bucket[0].entry, Some(s));
    ReleaseSettles(m, n, k, [bucket[0].entry], CAP_REASON, s);
  }

  lemma PastTheRowSettles(m: Memory, cfg: Config, k: Key, ev: Event, disk: Disk, s: nat)
    requires Shape(m) && Counted(m, s)
    ensures Settles(m, PastTheRow(m, cfg, k, ev, disk), Capped(m, cfg, k, s), Evicted(m, cfg, k, ev, s), s)
  {
    hide Occurs, Counted, Settles, WriteAndRemove, Evict, Release, Count;
    if k in m.buffers && ev.closesLotFile {
      WriteAndRemoveSettles(m, k, "carrier_unloaded", disk, s);
    } else if OverLong(m, cfg, k) {
      EvictSettles(m, k, s);
    } else if OverFull(m, cfg, k) {
      CapSettles(m, cfg, k, s);
    } else {
      SettlesQuiet(m, m, false, s);
    }
  }

  // ---------- flushing ----------

  lemma {:induction false} FlushKeysSettles(m: Memory, keys: seq<Key>, reason: string, disk: Disk, s: nat)
    requires Shape(m) && Counted(m, s)
    ensures Settles(m, FlushKeys(m, keys, reason, disk), 0, 0, s)
  {
    hide Settles, Occurs, Counted, WriteAndRemove, Conserves;
    if keys == [] {
      SettlesQuiet(m, m, false, s);
    } else {
      var n := |keys| - 1;
      var before := FlushKeys(m, keys[..n], reason, disk);
      FlushKeysSettles(m, keys[..n], reason, disk, s);
      FlushKeysKeeps(m, keys[..n], reason, disk, s);
      if !before.raised {
        WriteAndRemoveSettles(before.mem, keys[n], reason, disk, s);
        SettlesAfter(m, before, 0, 0, WriteAndRemove(before.mem, keys[n], reason, disk), 0, 0, s);
      }
    }
  }

  /** Rows of `s` waiting under these keys, which a machine flush lets go. */
  function LetGo(m: Memory, keys: seq<Key>, s: nat): nat {
    if keys == [] then 0
    else
      var n := |keys| - 1;
      LetGo(m, keys[..n], s)
        + Count(Entries(Get(ForgetWaiting(m, keys[..n]).waiting, keys[n], [])), Some(s))
  }

  lemma {:induction false} ForgetWaitingSettles(m: Memory, keys: seq<Key>, s: nat)
    requires Shape(m) && Counted(m, s)
    ensures Settles(m, Result(ForgetWaiting(m, keys), [], false), 0, LetGo(m, keys, s), s)
  {
    hide Total, Contents, Count, Settles;
    if keys == [] {
      SettlesQuiet(m, m, false, s);
    } else {
      var n := |keys| - 1;
      var k := keys[n];
      var before := ForgetWaiting(m, keys[..n]);
      ForgetWaitingSettles(m, keys[..n], s);
      ForgetWaitingKeeps(m, keys[..n], s);
      var next := before.(waiting := before.waiting - {k});
      var gone := Entries(Get(before.waiting, k, []));
      assert EntriesAt(before, k) == EntriesAt(next, k) + gone;
      CountConcat(EntriesAt(next, k), gone, Some(s));
      LettingGoSettles(before, next, k, gone, s);
      SettlesAfter(m, Result(before, [], false), 0, LetGo(m, keys[..n], s),
        Result(Forget(next, gone), [], false), 0, Count(gone, Some(s)), s);
      var none: seq<Effect> := [];
      assert none + none == none;
    }
  }

  lemma LettingGoSettles(m: Memory, n: Memory, k: Key, gone: seq<Option<nat>>, s: nat)
    requires Counted(m, s) && OnlyKey(m, n, k) && n.refs == m.refs && n.dropped == m.dropped
    requires At(m, k, s) == Count(gone, Some(s)) + At(n, k, s)
    ensures Settles(m, Result(Forget(n, gone), [], false), 0, Count(gone, Some(s)), s)
  {
    hide At, Count, Occurs, OnlyKey, Forget;
    ForgetKey(m, n, k, gone, s);
  }

  /** What a machine flush lets go: the waiting rows, unless a write failed before it came to them. */
  function FlushLetsGo(
    m: Memory, endpoint: string, bufferKeys: seq<Key>, waitingKeys: seq<Key>, reason: string, disk: Disk, s: nat): nat
  {
    var m0 := m.(failures := map k | k in m.failures && k.endpoint != endpoint :: m.failures[k]);
    var flushed := FlushKeys(m0, bufferKeys, reason, disk);
    if flushed.raised then 0 else LetGo(flushed.mem, waitingKeys, s)
  }

  /**
    A machine flush marks an entry only for rows it has written, as the last ones held:
    the rows it lets go are marked neither done nor dropped.
   */
  lemma FlushMachineSettles(
    m: Memory, endpoint: string, bufferKeys: seq<Key>, waitingKeys: seq<Key>, reason: string, disk: Disk, s: nat)
    requires Shape(m) && Counted(m, s)
    ensures Settles(m, FlushMachine(m, endpoint, bufferKeys, waitingKeys, reason, disk), 0,
      FlushLetsGo(m, endpoint, bufferKeys, waitingKeys, reason, disk, s), s)
  {
    hide Occurs, FlushKeys, ForgetWaiting, LetGo;
    var m0 := m.(failures := map k | k in m.failures && k.endpoint != endpoint :: m.failures[k]);
    SameContainers(m, m0, s);
    var flushed := FlushKeys(m0, bufferKeys, reason, disk);
    FlushKeysKeeps(m0, bufferKeys, reason, disk, s);
    FlushKeysSettles(m0, bufferKeys, reason, disk, s);
    if !flushed.raised {
      ForgetWaitingSettles(flushed.mem, waitingKeys, s);
      var last := Result(ForgetWaiting(flushed.mem, waitingKeys), [], false);
      SettlesAfter(m0, flushed, 0, 0, last, 0, LetGo(flushed.mem, waitingKeys, s), s);
      assert flushed.effects + [] == flushed.effects;
    }
  }

  // ---------- resolving an entry before its last row ----------

  /**
    Writing a lot marks an entry done exactly when that buffer has all the rows
    of the entry that memory holds and none was discarded. Rows of the entry
    that have not been appended yet do not count.
   */
  lemma WriteResolvesExactly(m: Memory, k: Key, reason: string, disk: Disk, s: nat)
    requires Shape(m) && Counted(m, s) && k in m.buffers
    requires m.buffers[k].rows != [] && disk(FileOf(k, m.buffers[k], reason))
    ensures Sum(WriteBuffer(m, k, m.buffers[k], reason, disk).effects, Done, s) > 0
      <==> At(m, k, s) > 0 && Elsewhere(m, k, s) == 0 && s !in m.dropped
  {
    hide Total, Contents, Count, Sum, Release, WriteBuffer;
    BufferOnly(m, k, s);
    OccursAt(m, k, s);
    WriteSums(m, k, m.buffers[k], reason, disk, s);
    ReleaseSums(m, m.buffers[k].rowSeqs, None, s);
  }

  /** The event changes the lot of its port, the old lot can be written, and it has the last rows of the entry. */
  ghost predicate ChangesLot(m: Memory, machine: Machine, ev: Event, disk: Disk, s: nat) {
    var k := KeyOf(machine, ev);
    && k in m.buffers && LotChanged(m.buffers[k], ev) && disk(FileOf(k, m.buffers[k], "lot_changed"))
    && At(m, k, s) > 0 && Elsewhere(m, k, s) == 0 && s !in m.dropped
  }

  /** The event also closes the new lot, which has its row alone, and that file can be written too. */
  predicate ClosesAgain(machine: Machine, ev: Event, disk: Disk, s: nat) {
    && ev.closesLotFile
    && disk(FileOf(KeyOf(machine, ev), JoinedBuffer(NewBuffer(machine, ev), ev, Some(s)), "carrier_unloaded"))
  }

  lemma ExpiryIsNeverDone(m: Memory, cfg: Config, k: Key, now: real, s: nat)
    requires Shape(m) && Counted(m, s)
    ensures Sum(Prune(m, cfg, k, now).effects, Done, s) == 0
  {
    hide Count, Entries, ReleaseAll, ReleaseCalls, Occurs;
    var bucket := Get(m.waiting, k, []);
    var n := ExpiredCount(bucket, now - cfg.ttl);
    if bucket != [] && n > 0 {
      var rest := bucket[n..];
      var m1 := m.(waiting := if rest == [] then m.waiting - {k} else m.waiting[k := rest]);
      SplitCount(bucket, n, s);
      EnoughCounted(m, k, bucket, s);
      ReleaseSums(m1, Entries(bucket[..n]), Some(TTL_REASON), s);
    }
  }

  lemma EnoughCounted(m: Memory, k: Key, bucket: seq<Waiting>, s: nat)
    requires Counted(m, s) && k in m.waiting && m.waiting[k] == bucket
    ensures Get(m.refs, s, 0) >= Count(Entries(bucket), Some(s))
  {
    OccursAt(m, k, s);
    CountConcat(if k in m.buffers then m.buffers[k].rowSeqs else [], Entries(bucket), Some(s));
    hide Count, Occurs, Elsewhere;
  }

  lemma HeadDoneExactly(m: Memory, cfg: Config, machine: Machine, ev: Event, now: real, disk: Disk, s: nat)
    requires Shape(m) && Counted(m, s)
    ensures Sum(UpToTheRow(m, cfg, machine, ev, now, disk).effects, Done, s) > 0
      <==> ChangesLot(m, machine, ev, disk, s)
  {
    hide Count, Occurs, Elsewhere, Prune, WriteBuffer, Counted;
    var k := KeyOf(machine, ev);
    if k in m.buffers {
      var b := m.buffers[k];
      BufferOnly(m, k, s);
      if LotChanged(b, ev) {
        WritesOrNot(m, k, "lot_changed", disk, s);
        var w := WriteBuffer(m, k, b, "lot_changed", disk);
        assert [] + w.effects == w.effects;
      }
    } else {
      ExpiryIsNeverDone(m, cfg, k, now, s);
      if !(ev.lotId == "") {
        Promotion(m, cfg, machine, k, ev, now);
        SameLot(m, cfg, machine, ev, now);
      }
    }
  }

  /** A buffer just opened for the event is of the event's own lot. */
  lemma SameLot(m: Memory, cfg: Config, machine: Machine, ev: Event, now: real)
    requires KeyOf(machine, ev) !in m.buffers
    ensures !LotChanged(GetBuffer(m, cfg, machine, KeyOf(machine, ev), ev, now).mem.buffers[KeyOf(machine, ev)], ev)
  {
    hide Prune;
    Promotion(m, cfg, machine, KeyOf(machine, ev), ev, now);
  }

  lemma WritesOrNot(m: Memory, k: Key, reason: string, disk: Disk, s: nat)
    requires Shape(m) && Counted(m, s) && k in m.buffers
    ensures Sum(WriteBuffer(m, k, m.buffers[k], reason, disk).effects, Done, s) > 0
      <==> disk(FileOf(k, m.buffers[k], reason)) && At(m, k, s) > 0 && Elsewhere(m, k, s) == 0 && s !in m.dropped
  {
    BufferOnly(m, k, s);
    if m.buffers[k].rows != [] && disk(FileOf(k, m.buffers[k], reason)) {
      WriteResolvesExactly(m, k, reason, disk, s);
    }
  }

  /** After such a lot change the row alone is in the new lot, and stays there unless that lot closes too. */
  lemma HeldAfterTheChange(m: Memory, cfg: Config, machine: Machine, ev: Event, now: real, disk: Disk, s: nat)
    requires Shape(m) && Counted(m, s) && ChangesLot(m, machine, ev, disk, s)
    ensures var k, before := KeyOf(machine, ev), UpToTheRow(m, cfg, machine, ev, now, disk);
      && !before.raised
      && (Holds(PastTheRow(WithTheRow(before.mem, k, ev, Some(s), now), cfg, k, ev, disk).mem, s)
          <==> !ClosesAgain(machine, ev, disk, s))
  {
    var k, before := KeyOf(machine, ev), UpToTheRow(m, cfg, machine, ev, now, disk);
    var b, j := m.buffers[k], WithTheRow(before.mem, k, ev, Some(s), now);
    ChangedLot(m, cfg, machine, ev, now, disk, s);
    UpToTheRowKeeps(m, cfg, machine, ev, now, disk, s);
    HeadDoneExactly(m, cfg, machine, ev, now, disk, s);
    WithTheRowKeeps(before.mem, k, ev, Some(s), now, s);
    assert Occurs(j, s) == 1;
    if ev.closesLotFile {
      ClosingOne(j, k, disk, s);
    }
    hide Occurs, Sum;
  }

  lemma ChangedLot(m: Memory, cfg: Config, machine: Machine, ev: Event, now: real, disk: Disk, s: nat)
    requires Shape(m) && Counted(m, s) && ChangesLot(m, machine, ev, disk, s)
    ensures var k, before := KeyOf(machine, ev), UpToTheRow(m, cfg, machine, ev, now, disk);
      && !before.raised && k in before.mem.buffers && before.mem.buffers[k] == NewBuffer(machine, ev)
      && k !in before.mem.failures
  {
    hide ReleaseAll, ReleaseCalls, Occurs, Elsewhere, Count;
    BufferOnly(m, KeyOf(machine, ev), s);
    CountNone(Some(s));
  }

  lemma HeldIsCounted(m: Memory, s: nat)
    requires Counted(m, s)
    ensures Holds(m, s) <==> Occurs(m, s) > 0
  {
    hide Occurs;
  }

  /** Closing the lot that has the one held row of the entry leaves none, if the file can be written. */
  lemma ClosingOne(j: Memory, k: Key, disk: Disk, s: nat)
    requires Shape(j) && Counted(j, s) && Occurs(j, s) == 1
    requires k in j.buffers && j.buffers[k].rows != [] && j.buffers[k].rowSeqs == [Some(s)]
    ensures Holds(WriteAndRemove(j, k, "carrier_unloaded", disk).mem, s)
      <==> !disk(FileOf(k, j.buffers[k], "carrier_unloaded"))
  {
    hide Occurs, Sum, Release, Holds, Counted, Shape, Conserves, Count;
    var w := WriteAndRemove(j, k, "carrier_unloaded", disk);
    WriteAndRemoveKeeps(j, k, "carrier_unloaded", disk, s);
    WriteAndRemoveSettles(j, k, "carrier_unloaded", disk, s);
    HeldIsCounted(w.mem, s);
    CountOne(Some(s), Some(s));
    if disk(FileOf(k, j.buffers[k], "carrier_unloaded")) {
      WriteSums(j, k, j.buffers[k], "carrier_unloaded", disk, s);
      assert Sum(w.effects, Wrote, s) >= 1;
    } else {
      SameContainers(j, w.mem, s);
    }
  }

  /**
    Exactly which appends mark their own entry done while its new row is in memory:
    those that change the lot of their port, over an old lot that has the last rows of
    the entry, none of them discarded, and can be written; unless they also close the
    new lot and that is written too.
   */
  lemma ResolvedEarlyExactly(m: Memory, cfg: Config, machine: Machine, ev: Event, now: real, disk: Disk, s: nat)
    requires Shape(m) && Counted(m, s)
    ensures var r := Append(m, cfg, machine, ev, Some(s), now, disk);
      && (Sum(r.effects, Done, s) > 0 && Holds(r.mem, s) <==>
            IsCsvEvent(ev) && ChangesLot(m, machine, ev, disk, s) && !ClosesAgain(machine, ev, disk, s))
      && (Sum(r.effects, Done, s) > 0 && Holds(r.mem, s) ==> Resolved(r.effects, s) == 1)
  {
    hide Occurs, Elsewhere, At, Prune, OpenLot, ChangesLot, ClosesAgain, UpToTheRow, WithTheRow, PastTheRow;
    var k, before := KeyOf(machine, ev), UpToTheRow(m, cfg, machine, ev, now, disk);
    if !IsCsvEvent(ev) {
      SumOne(CsvSkipped(s), Done, s);
    } else {
      AppendParts(m, cfg, machine, ev, Some(s), now, disk);
      UpToTheRowKeeps(m, cfg, machine, ev, now, disk, s);
      HeadDoneExactly(m, cfg, machine, ev, now, disk, s);
      if ChangesLot(m, machine, ev, disk, s) {
        HeldAfterTheChange(m, cfg, machine, ev, now, disk, s);
      }
      if !before.raised {
        var j := WithTheRow(before.mem, k, ev, Some(s), now);
        var rest := PastTheRow(j, cfg, k, ev, disk);
        WithTheRowKeeps(before.mem, k, ev, Some(s), now, s);
        PastTheRowSettles(j, cfg, k, ev, disk, s);
        forall kind: Kind {
          SumConcat(before.effects, rest.effects, kind, s);
        }
        AppendKeeps(m, cfg, machine, ev, Some(s), now, disk, s);
      }
    }
  }
}
