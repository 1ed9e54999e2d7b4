/** Every operation of the CSV writer keeps the books of `CsvAccounting` balanced. */
module CsvOperations {
  import opened Wrappers
  import opened Counting
  import opened CsvStore
  import opened CsvAccounting

  /** What each operation owes an entry `s` that gains `added` rows in it. */
  ghost predicate Keeps(m: Memory, added: nat, r: Result, s: nat) {
    && Shape(r.mem)
    && Counted(r.mem, s)
    && Occurs(r.mem, s) <= Occurs(m, s) + added
    && Conserves(m, added, r, s)
  }

  lemma KeepsAfter(m: Memory, a: nat, r: Result, b: nat, q: Result, s: nat)
    requires Keeps(m, a, r, s) && Keeps(r.mem, b, q, s)
    ensures Keeps(m, a + b, After(r, q), s)
  {
    ConservesAfter(m, a, r, b, q, s);
  }

  /** The same, for a memory that differs from `m` only in its write-failure counters. */
  lemma KeepsSame(m: Memory, s: nat)
    requires Shape(m) && Counted(m, s)
    ensures forall f, raised :: Keeps(m, 0, Result(m.(failures := f), [], raised), s)
  {
    forall f, raised ensures Keeps(m, 0, Result(m.(failures := f), [], raised), s) {
      SameContainers(m, m.(failures := f), s);
    }
  }

  /** An operation that makes no durable call. */
  lemma KeepsQuiet(m: Memory, added: nat, n: Memory, s: nat)
    requires Shape(n) && Counted(n, s) && Occurs(n, s) <= Occurs(m, s) + added
    requires s in n.dropped ==> s in m.dropped
    ensures Keeps(m, added, Result(n, [], false), s)
  {
  }

  lemma ReleaseKeeps(m: Memory, n: Memory, k: Key, gone: seq<Option<nat>>, reason: Option<string>, s: nat)
    requires Shape(n) && Counted(m, s) && OnlyKey(m, n, k) && n.refs == m.refs && n.dropped == m.dropped
    requires At(m, k, s) == Count(gone, Some(s)) + At(n, k, s)
    requires reason.Some?
    ensures Keeps(m, 0, Release(n, gone, reason), s)
  {
    ReleaseKey(m, n, k, gone, reason, s);
    if Occurs(m, s) <= 1 && s !in m.dropped {
      ReleaseSums(n, gone, reason, s);
    }
  }

  lemma SplitCount(w: seq<Waiting>, i: nat, s: nat)
    requires i <= |w|
    ensures Count(Entries(w), Some(s)) == Count(Entries(w[..i]), Some(s)) + Count(Entries(w[i..]), Some(s))
  {
    assert Entries(w) == Entries(w[..i]) + Entries(w[i..]);
    CountConcat(Entries(w[..i]), Entries(w[i..]), Some(s));
  }

  lemma WaitingOnly(m: Memory, k: Key, s: nat)
    requires k !in m.buffers
    ensures At(m, k, s) == Count(Entries(Get(m.waiting, k, [])), Some(s))
  {
    assert EntriesAt(m, k) == Entries(Get(m.waiting, k, []));
  }

  lemma BufferOnly(m: Memory, k: Key, s: nat)
    requires k in m.buffers && k !in m.waiting
    ensures At(m, k, s) == Count(m.buffers[k].rowSeqs, Some(s))
  {
    assert EntriesAt(m, k) == m.buffers[k].rowSeqs;
  }

  /** Replacing one key's waiting list touches nothing else. */
  lemma SetWaiting(m: Memory, n: Memory, k: Key, w: seq<Waiting>, s: nat)
    requires Shape(m) && k !in m.buffers
    requires n == m.(waiting := if w == [] then m.waiting - {k} else m.waiting[k := w])
    ensures Shape(n) && OnlyKey(m, n, k)
    ensures At(m, k, s) == Count(Entries(Get(m.waiting, k, [])), Some(s))
    ensures At(n, k, s) == Count(Entries(w), Some(s))
  {
    hide Count;
    WaitingOnly(m, k, s);
    WaitingOnly(n, k, s);
    assert Get(n.waiting, k, []) == w;
  }

  /** The oldest waiting rows of a key leave and are released as dropped. */
  lemma ExpiryKeeps(m: Memory, n: Memory, k: Key, gone: nat, reason: string, s: nat)
    requires Shape(m) && Counted(m, s) && k in m.waiting && k !in m.buffers && gone <= |m.waiting[k]|
    requires var rest := m.waiting[k][gone..];
      n == m.(waiting := if rest == [] then m.waiting - {k} else m.waiting[k := rest])
    ensures Keeps(m, 0, Release(n, Entries(m.waiting[k][..gone]), Some(reason)), s)
    ensures gone == 0 ==> Keeps(m, 0, Result(n, [], false), s)
  {
    hide At, Count, Entries, Occurs, Conserves, Counted, Shape, OnlyKey, Release;
    var bucket := m.waiting[k];
    SetWaiting(m, n, k, bucket[gone..], s);
    SplitCount(bucket, gone, s);
    ReleaseKeeps(m, n, k, Entries(bucket[..gone]), Some(reason), s);
    if gone == 0 {
      NoEntries(bucket[..0], s);
      QuietMove(m, n, k, s);
    }
  }

  lemma NoEntries(w: seq<Waiting>, s: nat)
    requires w == []
    ensures Count(Entries(w), Some(s)) == 0
  {
  }

  lemma QuietMove(m: Memory, n: Memory, k: Key, s: nat)
    requires Counted(m, s) && Shape(n) && OnlyKey(m, n, k) && n.refs == m.refs && n.dropped == m.dropped
    requires At(n, k, s) == At(m, k, s)
    ensures Keeps(m, 0, Result(n, [], false), s)
  {
    hide At, Occurs, Shape, OnlyKey;
    MoveKey(m, n, k, s);
  }

  lemma PruneKeeps(m: Memory, cfg: Config, k: Key, now: real, s: nat)
    requires Shape(m) && Counted(m, s)
    ensures var r := Prune(m, cfg, k, now);
      Keeps(m, 0, r, s) && r.mem.buffers == m.buffers && !r.raised
  {
    hide Total, Contents, Count, Counted, Conserves, Occurs, ReleaseAll, ReleaseCalls;
    KeepsSame(m, s);
    if k in m.waiting && m.waiting[k] != [] {
      var n := ExpiredCount(m.waiting[k], now - cfg.ttl);
      var rest := m.waiting[k][n..];
      ExpiryKeeps(m, m.(waiting := if rest == [] then m.waiting - {k} else m.waiting[k := rest]), k, n, TTL_REASON, s);
    }
  }

  /** Pruning reads and writes the waiting rows only. */
  lemma PruneIgnoresBuffers(m: Memory, b: map<Key, LotBuffer>, cfg: Config, k: Key, now: real)
    ensures var r := Prune(m, cfg, k, now);
      Prune(m.(buffers := b), cfg, k, now) == r.(mem := r.mem.(buffers := b))
  {
  }

  lemma PromotedBuffer(machine: Machine, ev: Event, w: seq<Waiting>)
    ensures AddWaiting(NewBuffer(machine, ev), w) == NewBuffer(machine, ev).(rows := WaitingRows(w), rowSeqs := Entries(w))
  {
  }

  /** Promotion in one step: the waiting rows that survive pruning become the new buffer. */
  lemma Promotion(m: Memory, cfg: Config, machine: Machine, k: Key, ev: Event, now: real)
    requires k !in m.buffers
    ensures var r := GetBuffer(m, cfg, machine, k, ev, now);
      var p := Prune(m, cfg, k, now);
      var w := Get(p.mem.waiting, k, []);
      && r.mem == p.mem.(
          buffers := m.buffers[k := NewBuffer(machine, ev).(rows := WaitingRows(w), rowSeqs := Entries(w))],
          waiting := p.mem.waiting - {k})
      && r.effects == p.effects && !r.raised
  {
    hide Prune, AddWaiting, NewBuffer, WaitingRows, Entries;
    PruneIgnoresBuffers(m, m.buffers[k := NewBuffer(machine, ev)], cfg, k, now);
    PromotedBuffer(machine, ev, Get(Prune(m, cfg, k, now).mem.waiting, k, []));
  }

  lemma GetBufferKeeps(m: Memory, cfg: Config, machine: Machine, k: Key, ev: Event, now: real, s: nat)
    requires Shape(m) && Counted(m, s)
    ensures var r := GetBuffer(m, cfg, machine, k, ev, now);
      Keeps(m, 0, r, s) && k in r.mem.buffers && k !in r.mem.waiting && !r.raised
  {
    if k in m.buffers {
      OpenAlready(m, cfg, machine, k, ev, now, s);
    } else {
      hide GetBuffer, Prune, Conserves, Occurs, Counted, Entries, WaitingRows;
      var p, r := Prune(m, cfg, k, now), GetBuffer(m, cfg, machine, k, ev, now);
      PruneKeeps(m, cfg, k, now, s);
      Promotion(m, cfg, machine, k, ev, now);
      PromotionMoves(p.mem, r.mem, k, machine, ev, s);
      KeepsAfter(m, 0, p, 0, Result(r.mem, [], false), s);
      assert p.effects + [] == p.effects;
    }
  }

  lemma OpenAlready(m: Memory, cfg: Config, machine: Machine, k: Key, ev: Event, now: real, s: nat)
    requires Shape(m) && Counted(m, s) && k in m.buffers
    ensures var r := GetBuffer(m, cfg, machine, k, ev, now);
      Keeps(m, 0, r, s) && k in r.mem.buffers && k !in r.mem.waiting && !r.raised
  {
  }

  /** The waiting rows of a key become the rows of its buffer. */
  lemma PromotionMoves(m: Memory, n: Memory, k: Key, machine: Machine, ev: Event, s: nat)
    requires Shape(m) && Counted(m, s) && k !in m.buffers
    requires var w := Get(m.waiting, k, []);
      n == m.(
        buffers := m.buffers[k := NewBuffer(machine, ev).(rows := WaitingRows(w), rowSeqs := Entries(w))],
        waiting := m.waiting - {k})
    ensures Keeps(m, 0, Result(n, [], false), s)
  {
    hide Total, Contents, Count, Occurs;
    WaitingOnly(m, k, s);
    BufferOnly(n, k, s);
    QuietMove(m, n, k, s);
  }

  /** The calls of a successful write: the file, perhaps the mirror task, then the marks. */
  lemma WriteSums(m: Memory, k: Key, b: LotBuffer, reason: string, disk: Disk, s: nat)
    requires b.rows != [] && disk(FileOf(k, b, reason))
    ensures var w := WriteBuffer(m, k, b, reason, disk);
      var released := Release(m, b.rowSeqs, None);
      && w.mem == released.mem.(failures := m.failures - {k})
      && Sum(w.effects, Wrote, s) == Count(b.rowSeqs, Some(s)) + Sum(released.effects, Wrote, s)
      && Sum(w.effects, Done, s) == Sum(released.effects, Done, s)
      && Sum(w.effects, Dropped, s) == Sum(released.effects, Dropped, s)
      && Sum(w.effects, Skipped, s) == Sum(released.effects, Skipped, s)
  {
    var file := FileOf(k, b, reason);
    var mirror := if b.machine.network then [MirrorQueued(file)] else [];
    var released := Release(m, b.rowSeqs, None);
    forall kind: Kind
      ensures Sum(WriteBuffer(m, k, b, reason, disk).effects, kind, s)
        == Amount(FileWritten(file), kind, s) + Sum(released.effects, kind, s)
    {
      SumConcat([FileWritten(file)] + mirror, released.effects, kind, s);
      SumConcat([FileWritten(file)], mirror, kind, s);
      SumOne(FileWritten(file), kind, s);
      SumOne(MirrorQueued(file), kind, s);
    }
  }

  /** Replacing the buffer under `k` by nothing, or by an empty one, empties that key. */
  lemma Emptied(m: Memory, k: Key, n: Memory, s: nat)
    requires Shape(m) && k in m.buffers
    requires n.waiting == m.waiting && n.buffers - {k} == m.buffers - {k}
    requires k in n.buffers ==> n.buffers[k].rows == [] && n.buffers[k].rowSeqs == []
    ensures Shape(n) && OnlyKey(m, n, k)
    ensures At(m, k, s) == Count(m.buffers[k].rowSeqs, Some(s)) && At(n, k, s) == 0
  {
    BufferOnly(m, k, s);
    assert EntriesAt(n, k) == [];
    CountNone(Some(s));
    forall j | j in n.buffers && j != k ensures j in m.buffers && n.buffers[j] == m.buffers[j] {
      assert j in n.buffers - {k};
    }
  }

  /** A successful write, followed by whatever empties the buffer under that key. */
  lemma WriteKeeps(m: Memory, k: Key, reason: string, disk: Disk, after: map<Key, LotBuffer>, s: nat)
    requires Shape(m) && Counted(m, s) && k in m.buffers
    requires after - {k} == m.buffers - {k}
    requires k in after ==> after[k].rows == [] && after[k].rowSeqs == []
    requires m.buffers[k].rows == [] || disk(FileOf(k, m.buffers[k], reason))
    ensures var w := WriteBuffer(m, k, m.buffers[k], reason, disk);
      Keeps(m, 0, w.(mem := w.mem.(buffers := after)), s)
  {
    hide Total, Contents, Count, Occurs, Sum, ReleaseAll, ReleaseCalls, At, EntriesAt;
    var b := m.buffers[k];
    var w := WriteBuffer(m, k, b, reason, disk);
    if b.rows == [] {
      var n := m.(buffers := after);
      Emptied(m, k, n, s);
      CountNone(Some(s));
      MoveKey(m, n, k, s);
      KeepsQuiet(m, 0, n, s);
    } else {
      var n := m.(failures := m.failures - {k}, buffers := after);
      Emptied(m, k, n, s);
      ReleaseKey(m, n, k, b.rowSeqs, None, s);
      WriteSums(m, k, b, reason, disk, s);
      assert w.mem.(buffers := after) == Release(n, b.rowSeqs, None).mem;
      if Occurs(m, s) <= 1 && s !in m.dropped {
        ReleaseSums(m, b.rowSeqs, None, s);
      }
    }
  }

  lemma WriteAndRemoveKeeps(m: Memory, k: Key, reason: string, disk: Disk, s: nat)
    requires Shape(m) && Counted(m, s)
    ensures Keeps(m, 0, WriteAndRemove(m, k, reason, disk), s)
  {
    KeepsSame(m, s);
    if k !in m.buffers {
      assert m == m.(failures := m.failures);
    } else if !WriteBuffer(m, k, m.buffers[k], reason, disk).raised {
      var w := WriteBuffer(m, k, m.buffers[k], reason, disk);
      WriteKeeps(m, k, reason, disk, m.buffers - {k}, s);
      assert w.mem.buffers == m.buffers;
    }
  }

  /** A new row at the end of a key's waiting list, counted. */
  lemma WaitKeeps(m: Memory, k: Key, row: Waiting, s: nat)
    requires Shape(m) && Counted(m, s) && k !in m.buffers
    ensures var bucket := Get(m.waiting, k, []) + [row];
      var n := Track(m.(waiting := m.waiting[k := bucket]), row.entry);
      var added := if row.entry == Some(s) then 1 else 0;
      Keeps(m, added, Result(n, [], false), s) && Occurs(n, s) == Occurs(m, s) + added
  {
    hide At, Count, Entries, Occurs, OnlyKey, Shape;
    var before := Get(m.waiting, k, []);
    var bucket := before + [row];
    var n := m.(waiting := m.waiting[k := bucket]);
    SetWaiting(m, n, k, bucket, s);
    SplitCount(bucket, |before|, s);
    assert bucket[..|before|] == before && bucket[|before|..] == [row];
    OneEntry(row, s);
    TrackKey(m, n, k, row.entry, s);
    SameShape(n, Track(n, row.entry));
  }

  lemma OneEntry(row: Waiting, s: nat)
    ensures Entries([row]) == [row.entry] && Count(Entries([row]), Some(s)) == if row.entry == Some(s) then 1 else 0
  {
    CountOne(row.entry, Some(s));
    assert Entries([row]) == [row.entry];
  }

  lemma SameShape(m: Memory, n: Memory)
    requires Shape(m) && n.buffers == m.buffers && n.waiting == m.waiting
    ensures Shape(n)
  {
  }

  lemma AppendWaitingKeeps(m: Memory, cfg: Config, k: Key, ev: Event, entry: Option<nat>, now: real, s: nat)
    requires Shape(m) && Counted(m, s) && k !in m.buffers
    ensures Keeps(m, if entry == Some(s) then 1 else 0, AppendWaiting(m, cfg, k, ev, entry, now), s)
  {
    hide Prune, ReleaseAll, ReleaseCalls, Conserves, Occurs, Counted, Entries;
    var added := if entry == Some(s) then 1 else 0;
    var p := Prune(m, cfg, k, now);
    PruneKeeps(m, cfg, k, now, s);
    var row := Waiting(now, RowOf(ev), entry);
    WaitKeeps(p.mem, k, row, s);
    var bucket := Get(p.mem.waiting, k, []) + [row];
    var m1 := Track(p.mem.(waiting := p.mem.waiting[k := bucket]), entry);
    KeepsAfter(m, 0, p, added, Result(m1, [], false), s);
    assert p.effects + [] == p.effects;
    if |bucket| > cfg.maxWaiting {
      ExpiryKeepsOne(m1, k, bucket, s);
      var released := Release(m1.(waiting := m1.waiting[k := bucket[1..]]), [bucket[0].entry], Some(CAP_REASON));
      KeepsAfter(m, added, Result(m1, p.effects, false), 0, released, s);
    }
  }

  /** The oldest of a key's waiting rows goes, even when the list it leaves is empty. */
  lemma ExpiryKeepsOne(m: Memory, k: Key, bucket: seq<Waiting>, s: nat)
    requires Shape(m) && Counted(m, s) && k !in m.buffers && bucket != [] && k in m.waiting && m.waiting[k] == bucket
    ensures Keeps(m, 0, Release(m.(waiting := m.waiting[k := bucket[1..]]), [bucket[0].entry], Some(CAP_REASON)), s)
  {
    hide Total, Contents, Count, Conserves, Occurs, ReleaseAll, ReleaseCalls, Counted;
    var n := m.(waiting := m.waiting[k := bucket[1..]]);
    SplitCount(bucket, 1, s);
    assert bucket[..1] == [bucket[0]];
    OneEntry(bucket[0], s);
    WaitingOnly(m, k, s);
    WaitingOnly(n, k, s);
    CountOne(bucket[0].entry, Some(s));
    ReleaseKeeps(m, n, k, [bucket[0].entry], Some(CAP_REASON), s);
  }

  /** How many of a key's waiting rows, the new one last, go: the expired head, and one past the cap. */
  function Overdue(waiting: seq<Waiting>, cfg: Config, now: real): (n: nat)
    ensures n <= |waiting| + 1
  {
    var expired := ExpiredCount(waiting, now - cfg.ttl);
    expired + (if |waiting| - expired + 1 > cfg.maxWaiting then 1 else 0)
  }

  /** The rows that stay are the newest: what goes, by age or past the cap, goes from the head. */
  lemma WaitingKeepsTheNewest(m: Memory, cfg: Config, k: Key, ev: Event, entry: Option<nat>, now: real)
    ensures var waiting := Get(m.waiting, k, []);
      Get(AppendWaiting(m, cfg, k, ev, entry, now).mem.waiting, k, [])
        == (waiting + [Waiting(now, RowOf(ev), entry)])[Overdue(waiting, cfg, now)..]
  {
    hide ReleaseAll, ReleaseCalls, Track;
    var waiting, row := Get(m.waiting, k, []), Waiting(now, RowOf(ev), entry);
    var expired := ExpiredCount(waiting, now - cfg.ttl);
    var p := Prune(m, cfg, k, now);
    assert Get(p.mem.waiting, k, []) == waiting[expired..];
    var bucket := waiting[expired..] + [row];
    assert bucket == (waiting + [row])[expired..];
    assert bucket[1..] == (waiting + [row])[expired + 1..];
    TrackKeepsWaiting(p.mem.(waiting := p.mem.waiting[k := bucket]), entry);
  }

  lemma TrackKeepsWaiting(m: Memory, entry: Option<nat>)
    ensures Track(m, entry).waiting == m.waiting
  {
  }

  lemma EvictKeeps(m: Memory, k: Key, s: nat)
    requires Shape(m) && Counted(m, s) && k in m.buffers
    ensures Keeps(m, 0, Result(Evict(m, k), [], false), s)
  {
    var n := m.(buffers := m.buffers - {k});
    BufferOnly(m, k, s);
    assert EntriesAt(n, k) == [];
    ForgetKey(m, n, k, m.buffers[k].rowSeqs, s);
    ForgetShape(n, m.buffers[k].rowSeqs);
  }

  lemma {:induction false} ForgetShape(m: Memory, entries: seq<Option<nat>>)
    ensures Forget(m, entries) == m.(refs := Forget(m, entries).refs, dropped := Forget(m, entries).dropped)
  {
    if entries != [] { ForgetShape(m, entries[..|entries| - 1]); }
  }

  lemma AddExact(b: LotBuffer, row: Row, entry: Option<nat>)
    requires |b.rows| == |b.rowSeqs|
    ensures b.Add(row, entry) == b.(rows := b.rows + [row], rowSeqs := b.rowSeqs + [entry])
  {
  }

  lemma JoinedKeeps(m: Memory, k: Key, ev: Event, entry: Option<nat>, s: nat)
    requires Shape(m) && Counted(m, s) && k in m.buffers
    ensures var added := if entry == Some(s) then 1 else 0;
      && Keeps(m, added, Result(Joined(m, k, ev, entry), [], false), s)
      && Occurs(Joined(m, k, ev, entry), s) == Occurs(m, s) + added
  {
    hide Total, Contents, Count;
    var b := m.buffers[k];
    AddExact(b, RowOf(ev), entry);
    var n := m.(buffers := m.buffers[k := JoinedBuffer(b, ev, entry)]);
    BufferOnly(m, k, s);
    BufferOnly(n, k, s);
    CountConcat(b.rowSeqs, [entry], Some(s));
    CountOne(entry, Some(s));
    TrackKey(m, n, k, entry, s);
  }

  lemma AppendRowKeeps(m: Memory, cfg: Config, k: Key, ev: Event, entry: Option<nat>, disk: Disk, s: nat)
    requires Shape(m) && Counted(m, s) && k in m.buffers
    ensures Keeps(m, if entry == Some(s) then 1 else 0, AppendRow(m, cfg, k, ev, entry, disk), s)
  {
    hide Total, Contents, Count, WriteAndRemove, Evict, Conserves, Occurs;
    var added := if entry == Some(s) then 1 else 0;
    var m1 := Joined(m, k, ev, entry);
    JoinedKeeps(m, k, ev, entry, s);
    if ev.closesLotFile {
      WriteAndRemoveKeeps(m1, k, "carrier_unloaded", disk, s);
      var w := WriteAndRemove(m1, k, "carrier_unloaded", disk);
      KeepsAfter(m, added, Result(m1, [], false), 0, w, s);
      assert [] + w.effects == w.effects;
    } else if Get(m1.failures, k, 0) != 0 && |m1.buffers[k].rows| > cfg.maxLotRows {
      EvictKeeps(m1, k, s);
      KeepsAfter(m, added, Result(m1, [], false), 0, Result(Evict(m1, k), [], false), s);
      var none: seq<Effect> := [];
      assert none + none == none;
    }
  }

  lemma OpenLotKeeps(m: Memory, cfg: Config, machine: Machine, ev: Event, now: real, disk: Disk, s: nat)
    requires Shape(m) && Counted(m, s)
    ensures Keeps(m, 0, OpenLot(m, cfg, machine, ev, now, disk), s)
  {
    hide Total, Contents, Count, Prune, AddWaiting, Occurs, Conserves;
    var k := KeyOf(machine, ev);
    var got := GetBuffer(m, cfg, machine, k, ev, now);
    var b := got.mem.buffers[k];
    GetBufferKeeps(m, cfg, machine, k, ev, now, s);
    if LotChanged(b, ev) {
      var w := WriteBuffer(got.mem, k, b, "lot_changed", disk);
      if w.raised {
        KeepsSame(got.mem, s);
        KeepsAfter(m, 0, got, 0, w, s);
      } else {
        var after := got.mem.buffers[k := NewBuffer(machine, ev)];
        assert w.mem.buffers == got.mem.buffers;
        WriteKeeps(got.mem, k, "lot_changed", disk, after, s);
        KeepsAfter(m, 0, got, 0, w.(mem := w.mem.(buffers := after)), s);
      }
    }
  }

  /** One append, whatever it does: wait, promote, write, change lot, close or evict. */
  lemma AppendKeeps(
    m: Memory, cfg: Config, machine: Machine, ev: Event, entry: Option<nat>, now: real, disk: Disk, s: nat)
    requires Shape(m) && Counted(m, s)
    ensures Keeps(m, if entry == Some(s) then 1 else 0, Append(m, cfg, machine, ev, entry, now, disk), s)
  {
    hide Total, Contents, Count, OpenLot, AppendRow, AppendWaiting, Occurs, PortOf;
    var added := if entry == Some(s) then 1 else 0;
    var k := KeyOf(machine, ev);
    if !IsCsvEvent(ev) {
      if entry.Some? {
        forall kind: Kind { SumOne(CsvSkipped(entry.value), kind, s); }
      }
    } else if ev.lotId == "" && k !in m.buffers {
      AppendWaitingKeeps(m, cfg, k, ev, entry, now, s);
    } else {
      var o := OpenLot(m, cfg, machine, ev, now, disk);
      OpenLotKeeps(m, cfg, machine, ev, now, disk, s);
      OpenLotOpens(m, cfg, machine, ev, now, disk);
      if o.raised {
        KeepsNothingAdded(m, added, o, s);
      } else {
        AppendRowKeeps(o.mem, cfg, k, ev, entry, disk, s);
        KeepsAfter(m, 0, o, added, AppendRow(o.mem, cfg, k, ev, entry, disk), s);
      }
    }
  }

  /** A failed append adds nothing, which is within any allowance. */
  lemma KeepsNothingAdded(m: Memory, added: nat, r: Result, s: nat)
    requires Keeps(m, 0, r, s)
    ensures Keeps(m, added, r, s)
  {
  }

  lemma {:induction false} FlushKeysKeeps(m: Memory, keys: seq<Key>, reason: string, disk: Disk, s: nat)
    requires Shape(m) && Counted(m, s)
    ensures Keeps(m, 0, FlushKeys(m, keys, reason, disk), s)
  {
    if keys == [] {
      KeepsSame(m, s);
      assert m == m.(failures := m.failures);
    } else {
      var n := |keys| - 1;
      var before := FlushKeys(m, keys[..n], reason, disk);
      FlushKeysKeeps(m, keys[..n], reason, disk, s);
      if !before.raised {
        WriteAndRemoveKeeps(before.mem, keys[n], reason, disk, s);
        KeepsAfter(m, 0, before, 0, WriteAndRemove(before.mem, keys[n], reason, disk), s);
      }
    }
  }

  lemma {:induction false} ForgetWaitingKeeps(m: Memory, keys: seq<Key>, s: nat)
    requires Shape(m) && Counted(m, s)
    ensures Keeps(m, 0, Result(ForgetWaiting(m, keys), [], false), s)
  {
    hide Total, Contents, Count;
    if keys != [] {
      var n := |keys| - 1;
      var k := keys[n];
      var before := ForgetWaiting(m, keys[..n]);
      ForgetWaitingKeeps(m, keys[..n], s);
      var next := before.(waiting := before.waiting - {k});
      var gone := Entries(Get(before.waiting, k, []));
      assert EntriesAt(before, k) == EntriesAt(next, k) + gone;
      CountConcat(EntriesAt(next, k), gone, Some(s));
      ForgetKey(before, next, k, gone, s);
      ForgetShape(next, gone);
      KeepsAfter(m, 0, Result(before, [], false), 0, Result(Forget(next, gone), [], false), s);
    }
  }

  lemma FlushMachineKeeps(
    m: Memory, endpoint: string, bufferKeys: seq<Key>, waitingKeys: seq<Key>, reason: string, disk: Disk, s: nat)
    requires Shape(m) && Counted(m, s)
    ensures Keeps(m, 0, FlushMachine(m, endpoint, bufferKeys, waitingKeys, reason, disk), s)
  {
    var m0 := m.(failures := map k | k in m.failures && k.endpoint != endpoint :: m.failures[k]);
    SameContainers(m, m0, s);
    var flushed := FlushKeys(m0, bufferKeys, reason, disk);
    FlushKeysKeeps(m0, bufferKeys, reason, disk, s);
    if !flushed.raised {
      ForgetWaitingKeeps(flushed.mem, waitingKeys, s);
      var last := Result(ForgetWaiting(flushed.mem, waitingKeys), [], false);
      KeepsAfter(m, 0, flushed, 0, last, s);
      assert flushed.effects + [] == flushed.effects;
    }
  }
}
