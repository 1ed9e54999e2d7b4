/**
  `PerLotCsvWriter` in its own form: five dictionaries updated in place, lists
  popped and appended in loops. Each method is proved to compute the operation
  of the same name in `CsvStore`. The durable calls it makes on the disk and on
  the journal are recorded, in order, in `calls`.
 */
module CsvWriter {
  import opened Wrappers
  import opened CsvStore
  import opened CsvAccounting
  import opened CsvFiles

  class PerLotCsvWriter {
    var buffers: map<Key, LotBuffer>
    var pendingPreLot: map<Key, seq<Waiting>>
    var seqRefs: map<nat, nat>
    var seqDropped: map<nat, string>
    var writeFailures: map<Key, nat>
    var calls: seq<Effect>
    const cfg: Config

    constructor (cfg: Config)
      ensures this.cfg == cfg && Abs() == EMPTY && calls == []
    {
      this.cfg := cfg;
      buffers, pendingPreLot, seqRefs, seqDropped, writeFailures := map[], map[], map[], map[], map[];
      calls := [];
    }

    function Abs(): Memory
      reads this
    {
      Memory(buffers, pendingPreLot, seqRefs, seqDropped, writeFailures)
    }

    /** The state is that of result `r`, reached from a state that had made `before` calls. */
    ghost predicate Became(r: Result, before: seq<Effect>)
      reads this
    {
      Abs() == r.mem && calls == before + r.effects
    }

    predicate HoldsEntry(entry: nat)
      reads this
      ensures HoldsEntry(entry) == Holds(Abs(), entry)
    {
      entry in seqRefs
    }

    method Track(entry: Option<nat>)
      modifies this`seqRefs
      ensures Abs() == CsvStore.Track(old(Abs()), entry)
      ensures entry.Some? ==> HoldsEntry(entry.value)
      ensures forall m, k, s :: Counted(m, s) && RowJoined(m, old(Abs()), k, entry, s) ==> Counted(Abs(), s)
    {
      ghost var before := Abs();
      forall m, k, s | Counted(m, s) && RowJoined(m, before, k, entry, s)
        ensures Counted(CsvStore.Track(before, entry), s)
      {
        TrackKey(m, before, k, entry, s);
      }
      hide Counted, RowJoined;
      if entry.Some? {
        seqRefs := seqRefs[entry.value := Get(seqRefs, entry.value, 0) + 1];
      }
    }

    method Release(entries: seq<Option<nat>>, reason: Option<string>)
      modifies this`seqRefs, this`seqDropped, this`calls
      ensures Became(CsvStore.Release(old(Abs()), entries, reason), old(calls))
    {
      var done: seq<nat> := [];
      ghost var drops: seq<Effect> := [];
      var i := 0;
      while i < |entries|
        invariant i <= |entries|
        invariant calls == old(calls) + drops
        invariant Releasing(seqRefs, seqDropped, drops, done)
          == ReleaseAll(old(seqRefs), old(seqDropped), entries[..i], reason)
      {
        assert entries[..i + 1][..i] == entries[..i];
        if entries[i].Some? {
          var s := entries[i].value;
          if reason.Some? {
            seqDropped := seqDropped[s := reason.value];
          }
          var remaining := Get(seqRefs, s, 0) as int - 1;
          if remaining > 0 {
            seqRefs := seqRefs[s := remaining];
          } else {
            seqRefs := seqRefs - {s};
            if s in seqDropped {
              calls := calls + [CsvDropped(s, seqDropped[s])];
              drops := drops + [CsvDropped(s, seqDropped[s])];
            } else {
              done := done + [s];
            }
            seqDropped := seqDropped - {s};
          }
        }
        i := i + 1;
      }
      assert entries[..|entries|] == entries;
      if done != [] {
        calls := calls + [CsvDone(done)];
      }
    }

    /** Drop references without resolving the entries: they stay pending in the journal. */
    method Forget(entries: seq<Option<nat>>)
      modifies this`seqRefs, this`seqDropped
      ensures Abs() == CsvStore.Forget(old(Abs()), entries)
    {
      var i := 0;
      while i < |entries|
        invariant i <= |entries|
        invariant Abs() == CsvStore.Forget(old(Abs()), entries[..i])
      {
        assert entries[..i + 1][..i] == entries[..i];
        if entries[i].Some? {
          var s := entries[i].value;
          var remaining := Get(seqRefs, s, 0) as int - 1;
          if remaining > 0 {
            seqRefs := seqRefs[s := remaining];
          } else {
            seqRefs := seqRefs - {s};
            seqDropped := seqDropped - {s};
          }
        }
        i := i + 1;
      }
      assert entries[..|entries|] == entries;
    }

    method PrunePreLot(key: Key, now: real)
      modifies this`pendingPreLot, this`seqRefs, this`seqDropped, this`calls
      ensures Became(Prune(old(Abs()), cfg, key, now), old(calls))
    {
      hide ReleaseAll, ReleaseCalls;
      if key !in pendingPreLot || pendingPreLot[key] == [] {
        return;
      }
      var bucket := pendingPreLot[key];
      var cutoff := now - cfg.ttl;
      var dropped: seq<Waiting> := [];
      while bucket != [] && bucket[0].since < cutoff
        invariant dropped + bucket == old(pendingPreLot)[key]
        invariant |dropped| + ExpiredCount(bucket, cutoff) == ExpiredCount(old(pendingPreLot)[key], cutoff)
      {
        dropped := dropped + [bucket[0]];
        bucket := bucket[1..];
      }
      ghost var n := ExpiredCount(old(pendingPreLot)[key], cutoff);
      assert dropped == old(pendingPreLot)[key][..n] && bucket == old(pendingPreLot)[key][n..];
      pendingPreLot := if bucket == [] then pendingPreLot - {key} else pendingPreLot[key := bucket];
      if dropped != [] {
        Release(Entries(dropped), Some(TTL_REASON));
      }
    }

    method GetBuffer(machine: Machine, key: Key, ev: Event, now: real) returns (b: LotBuffer)
      modifies this
      ensures Became(CsvStore.GetBuffer(old(Abs()), cfg, machine, key, ev, now), old(calls))
      ensures key in buffers && b == buffers[key]
    {
      hide ReleaseAll, ReleaseCalls, Prune, NewBuffer;
      if key !in buffers {
        buffers := buffers[key := NewBuffer(machine, ev)];
        PrunePreLot(key, now);
        var entries := Get(pendingPreLot, key, []);
        pendingPreLot := pendingPreLot - {key};
        ghost var opening := buffers;
        var i := 0;
        while i < |entries|
          invariant i <= |entries|
          modifies this`buffers
          invariant key in buffers && buffers == opening[key := AddWaiting(opening[key], entries[..i])]
        {
          assert entries[..i + 1][..i] == entries[..i];
          buffers := buffers[key := buffers[key].Add(entries[i].row, entries[i].entry)];
          i := i + 1;
        }
        assert entries[..|entries|] == entries;
        PruneKeepsBuffers(old(Abs()).(buffers := opening), cfg, key, now);
      }
      b := buffers[key];
    }

    method WriteBuffer(key: Key, b: LotBuffer, reason: string, disk: Disk) returns (raised: bool)
      modifies this`writeFailures, this`seqRefs, this`seqDropped, this`calls
      ensures var w := CsvStore.WriteBuffer(old(Abs()), key, b, reason, disk);
        Became(w, old(calls)) && raised == w.raised
    {
      if b.rows == [] {
        return false;
      }
      var file := FileOf(key, b, reason);
      if !disk(file) {
        writeFailures := writeFailures[key := Get(writeFailures, key, 0) + 1];
        return true;
      }
      writeFailures := writeFailures - {key};
      calls := calls + [FileWritten(file)];
      if b.machine.network {
        calls := calls + [MirrorQueued(file)];
      }
      ghost var released := CsvStore.Release(Abs(), b.rowSeqs, None);
      Release(b.rowSeqs, None);
      assert calls == old(calls)
        + ([FileWritten(file)] + (if b.machine.network then [MirrorQueued(file)] else []) + released.effects);
      return false;
    }

    method WriteAndRemove(key: Key, reason: string, disk: Disk) returns (raised: bool)
      modifies this
      ensures var w := CsvStore.WriteAndRemove(old(Abs()), key, reason, disk);
        Became(w, old(calls)) && raised == w.raised
    {
      if key !in buffers {
        return false;
      }
      raised := WriteBuffer(key, buffers[key], reason, disk);
      if !raised {
        buffers := buffers - {key};
      }
    }

    method EvictBuffer(key: Key)
      requires key in buffers
      modifies this`buffers, this`seqRefs, this`seqDropped
      ensures Abs() == Evict(old(Abs()), key)
    {
      var b := buffers[key];
      buffers := buffers - {key};
      Forget(b.rowSeqs);
    }

    method AppendToWaiting(key: Key, ev: Event, entry: Option<nat>, now: real)
      modifies this
      ensures Became(AppendWaiting(old(Abs()), cfg, key, ev, entry, now), old(calls))
    {
      hide ReleaseAll, ReleaseCalls, Prune;
      PrunePreLot(key, now);
      var pending := Get(pendingPreLot, key, []) + [Waiting(now, RowOf(ev), entry)];
      pendingPreLot := pendingPreLot[key := pending];
      Track(entry);
      if |pending| > cfg.maxWaiting {
        pendingPreLot := pendingPreLot[key := pending[1..]];
        Release([pending[0].entry], Some(CAP_REASON));
      }
    }

    method AppendToOpen(key: Key, ev: Event, entry: Option<nat>, disk: Disk) returns (raised: bool)
      requires key in buffers
      modifies this
      ensures var r := AppendRow(old(Abs()), cfg, key, ev, entry, disk);
        Became(r, old(calls)) && raised == r.raised
    {
      var b := buffers[key].Add(RowOf(ev), entry);
      if ev.lotId != "" && b.lotId == "" {
        b := b.(lotId := ev.lotId);
      }
      if ev.eventType == "lot_end" {
        b := b.(ended := true);
      }
      buffers := buffers[key := b];
      Track(entry);
      assert Abs() == Joined(old(Abs()), key, ev, entry);
      raised := false;
      if ev.closesLotFile {
        raised := WriteAndRemove(key, "carrier_unloaded", disk);
      } else if Get(writeFailures, key, 0) != 0 && |b.rows| > cfg.maxLotRows {
        EvictBuffer(key);
      }
    }

    method OpenLot(machine: Machine, key: Key, ev: Event, now: real, disk: Disk) returns (raised: bool)
      requires key == KeyOf(machine, ev)
      modifies this
      ensures var o := CsvStore.OpenLot(old(Abs()), cfg, machine, ev, now, disk);
        Became(o, old(calls)) && raised == o.raised
    {
      hide CsvStore.GetBuffer, CsvStore.WriteBuffer, PortOf;
      raised := false;
      var b := GetBuffer(machine, key, ev, now);
      if LotChanged(b, ev) {
        raised := WriteBuffer(key, b, "lot_changed", disk);
        if !raised {
          buffers := buffers[key := NewBuffer(machine, ev)];
        }
      }
    }

    /** What follows a lot change is the code's call to itself; see `CallingAgainAddsTheRow`. */
    method AppendToLot(machine: Machine, key: Key, ev: Event, entry: Option<nat>, now: real, disk: Disk)
      returns (raised: bool)
      requires key == KeyOf(machine, ev)
      modifies this
      ensures var r := CsvStore.AppendToLot(old(Abs()), cfg, machine, ev, entry, now, disk);
        Became(r, old(calls)) && raised == r.raised
    {
      OpenLotOpens(Abs(), cfg, machine, ev, now, disk);
      hide CsvStore.OpenLot, AppendRow, PortOf;
      raised := OpenLot(machine, key, ev, now, disk);
      if !raised {
        raised := AppendToOpen(key, ev, entry, disk);
      }
    }

    method Append(machine: Machine, ev: Event, entry: Option<nat>, now: real, disk: Disk) returns (raised: bool)
      modifies this
      ensures var r := CsvStore.Append(old(Abs()), cfg, machine, ev, entry, now, disk);
        Became(r, old(calls)) && raised == r.raised
    {
      hide CsvStore.AppendToLot, AppendWaiting, PortOf;
      raised := false;
      if !IsCsvEvent(ev) {
        if entry.Some? {
          calls := calls + [CsvSkipped(entry.value)];
        }
        return;
      }
      var key := KeyOf(machine, ev);
      if ev.lotId == "" && key !in buffers {
        AppendToWaiting(key, ev, entry, now);
      } else {
        raised := AppendToLot(machine, key, ev, entry, now, disk);
      }
    }

    /** One pass over a snapshot of buffer keys; a failed write ends it. */
    method FlushSnapshot(keys: seq<Key>, reason: string, disk: Disk) returns (raised: bool)
      modifies this
      ensures var r := FlushKeys(old(Abs()), keys, reason, disk);
        Became(r, old(calls)) && raised == r.raised
      ensures Distinct(keys) ==>
        && old(calls) <= calls
        && FlushedUpTo(old(Abs()), keys, FirstRefused(old(Abs()), keys, reason, disk), reason,
            Result(Abs(), calls[|old(calls)|..], raised))
    {
      hide CsvStore.WriteAndRemove, Distinct, FlushedUpTo, FirstRefused;
      if Distinct(keys) {
        FlushWritesExactly(Abs(), keys, reason, disk);
      }
      raised := false;
      var i := 0;
      while i < |keys|
        invariant i <= |keys|
        invariant !raised && !FlushKeys(old(Abs()), keys[..i], reason, disk).raised
        invariant Became(FlushKeys(old(Abs()), keys[..i], reason, disk), old(calls))
      {
        assert keys[..i + 1][..i] == keys[..i];
        raised := WriteAndRemove(keys[i], reason, disk);
        if raised {
          FlushStops(old(Abs()), keys, i + 1, reason, disk);
          assert FlushKeys(old(Abs()), keys, reason, disk) == Result(Abs(), calls[|old(calls)|..], raised);
          return;
        }
        i := i + 1;
      }
      assert keys[..|keys|] == keys;
      assert FlushKeys(old(Abs()), keys, reason, disk) == Result(Abs(), calls[|old(calls)|..], raised);
    }

    method FlushAll(keys: seq<Key>, reason: string, disk: Disk) returns (raised: bool)
      requires multiset(keys) == multiset(buffers.Keys)
      modifies this
      ensures var r := FlushKeys(old(Abs()), keys, reason, disk);
        Became(r, old(calls)) && raised == r.raised
      ensures old(calls) <= calls
      ensures FlushedUpTo(old(Abs()), keys, FirstRefused(old(Abs()), keys, reason, disk), reason,
        Result(Abs(), calls[|old(calls)|..], raised))
      ensures !raised ==>
        buffers == map[] && Writes(calls[|old(calls)|..], FilesFor(old(Abs()), keys, reason))
    {
      hide CsvStore.FlushKeys, FlushedUpTo, FirstRefused, Writes, FilesFor;
      EachOnce(keys, buffers.Keys);
      FlushAllClosesEverything(Abs(), keys, reason, disk);
      raised := FlushSnapshot(keys, reason, disk);
    }

    method FlushMachine(
      endpoint: string, bufferKeys: seq<Key>, waitingKeys: seq<Key>, reason: string, disk: Disk)
      returns (raised: bool)
      modifies this
      ensures var r := CsvStore.FlushMachine(old(Abs()), endpoint, bufferKeys, waitingKeys, reason, disk);
        Became(r, old(calls)) && raised == r.raised
      ensures Distinct(bufferKeys)
        && KeysOf(bufferKeys, old(buffers), endpoint) && KeysOf(waitingKeys, old(pendingPreLot), endpoint)
        ==> MachineFlushed(old(Abs()), endpoint, bufferKeys, FirstRefused(old(Abs()), bufferKeys, reason, disk),
              reason, Result(Abs(), calls[|old(calls)|..], raised))
    {
      hide FlushKeys, MachineFlushed, FlushedUpTo, FirstRefused, Distinct, KeysOf, CsvStore.Forget;
      if Distinct(bufferKeys) && KeysOf(bufferKeys, buffers, endpoint) && KeysOf(waitingKeys, pendingPreLot, endpoint) {
        FlushMachineExactly(Abs(), endpoint, bufferKeys, waitingKeys, reason, disk);
      }
      writeFailures := map k | k in writeFailures && k.endpoint != endpoint :: writeFailures[k];
      ghost var m0 := Abs();
      assert m0 == old(Abs()).(
        failures := map k | k in old(Abs()).failures && k.endpoint != endpoint :: old(Abs()).failures[k]);
      raised := FlushSnapshot(bufferKeys, reason, disk);
      if raised {
        return;
      }
      ghost var m := Abs();
      var i := 0;
      while i < |waitingKeys|
        invariant i <= |waitingKeys|
        modifies this`pendingPreLot, this`seqRefs, this`seqDropped
        invariant Abs() == ForgetWaiting(m, waitingKeys[..i])
      {
        assert waitingKeys[..i + 1][..i] == waitingKeys[..i];
        var entries := Entries(Get(pendingPreLot, waitingKeys[i], []));
        pendingPreLot := pendingPreLot - {waitingKeys[i]};
        Forget(entries);
        i := i + 1;
      }
      assert waitingKeys[..|waitingKeys|] == waitingKeys;
    }
  }

  /** The keys of a dictionary, in any order, are distinct and all there. */
  lemma EachOnce(keys: seq<Key>, all: set<Key>)
    requires multiset(keys) == multiset(all)
    ensures Distinct(keys) && Elements(keys) == all
  {
    forall i, j | 0 <= i < j < |keys| ensures keys[i] != keys[j] {
      var head, tail := multiset(keys[..j]), multiset(keys[j..]);
      assert keys == keys[..j] + keys[j..];
      assert multiset(keys)[keys[i]] == head[keys[i]] + tail[keys[i]];
      assert keys[i] in head && keys[j] in tail;
      assert multiset(all)[keys[i]] <= 1;
    }
    assert forall k :: k in keys <==> k in multiset(keys);
  }

  lemma PruneKeepsBuffers(m: Memory, cfg: Config, key: Key, now: real)
    ensures Prune(m, cfg, key, now).mem.buffers == m.buffers
  {
  }

  lemma {:induction false} FlushStops(m: Memory, keys: seq<Key>, n: nat, reason: string, disk: Disk)
    requires n <= |keys| && FlushKeys(m, keys[..n], reason, disk).raised
    ensures FlushKeys(m, keys, reason, disk) == FlushKeys(m, keys[..n], reason, disk)
  {
    if n < |keys| {
      var k := |keys| - 1;
      assert keys[..k][..n] == keys[..n];
      FlushStops(m, keys[..k], n, reason, disk);
    } else {
      assert keys[..n] == keys;
    }
  }
}
