/**
  The lot files, said from memory and the disk alone: which files an append or a
  flush writes, what each of them says, and which lots stay open.
 */
module CsvFiles {
  import opened Wrappers
  import opened CsvStore
  import opened CsvAccounting
  import opened CsvOperations

  // ---------- files among the durable calls ----------

  function Files(es: seq<Effect>): seq<LotFile> {
    if es == [] then []
    else
      var n := |es| - 1;
      Files(es[..n]) + (if es[n].FileWritten? then [es[n].file] else [])
  }

  /** The copies put in the mirror queue. */
  function Copies(es: seq<Effect>): seq<LotFile> {
    if es == [] then []
    else
      var n := |es| - 1;
      Copies(es[..n]) + (if es[n].MirrorQueued? then [es[n].file] else [])
  }

  /** These calls write these files, and queue a copy of each one whose machine has a network folder. */
  predicate Writes(es: seq<Effect>, files: seq<LotFile>) {
    Files(es) == files && Copies(es) == Networked(files)
  }

  function Networked(files: seq<LotFile>): seq<LotFile> {
    if files == [] then []
    else
      var n := |files| - 1;
      Networked(files[..n]) + (if files[n].machine.network then [files[n]] else [])
  }

  lemma {:induction false} NetworkedConcat(a: seq<LotFile>, b: seq<LotFile>)
    ensures Networked(a + b) == Networked(a) + Networked(b)
  {
    if b == [] {
      assert a + b == a;
    } else {
      var n := |b| - 1;
      assert (a + b)[..|a + b| - 1] == a + b[..n];
      NetworkedConcat(a, b[..n]);
    }
  }

  lemma WritesConcat(a: seq<Effect>, b: seq<Effect>, f: seq<LotFile>, g: seq<LotFile>)
    requires Writes(a, f) && Writes(b, g)
    ensures Writes(a + b, f + g)
  {
    NetworkedConcat(f, g);
    CallsConcat(a, b);
  }

  lemma {:induction false} CallsConcat(a: seq<Effect>, b: seq<Effect>)
    ensures Files(a + b) == Files(a) + Files(b) && Copies(a + b) == Copies(a) + Copies(b)
  {
    if b == [] {
      assert a + b == a;
    } else {
      var n := |b| - 1;
      assert (a + b)[..|a + b| - 1] == a + b[..n];
      CallsConcat(a, b[..n]);
    }
  }

  predicate OnlyMarks(es: seq<Effect>) {
    forall e <- es :: !e.FileWritten? && !e.MirrorQueued?
  }

  lemma {:induction false} MarksWriteNothing(es: seq<Effect>)
    requires OnlyMarks(es)
    ensures Writes(es, [])
  {
    if es != [] {
      MarksWriteNothing(es[..|es| - 1]);
    }
  }

  lemma {:induction false} DropsOnly(
    refs: map<nat, nat>, dropped: map<nat, string>, entries: seq<Option<nat>>, reason: Option<string>)
    ensures OnlyMarks(ReleaseAll(refs, dropped, entries, reason).drops)
  {
    if entries != [] {
      DropsOnly(refs, dropped, entries[..|entries| - 1], reason);
    }
  }

  /** A release changes counters and makes marks, and neither opens, closes nor writes a lot. */
  lemma ReleaseWritesNothing(m: Memory, entries: seq<Option<nat>>, reason: Option<string>)
    ensures var r := Release(m, entries, reason);
      Writes(r.effects, []) && r.mem == m.(refs := r.mem.refs, dropped := r.mem.dropped)
  {
    DropsOnly(m.refs, m.dropped, entries, reason);
    MarksWriteNothing(Release(m, entries, reason).effects);
  }

  // ---------- one lot ----------

  predicate Stopping(reason: string) {
    reason == "stopped" || reason == "service_stop" || reason == "disabled_or_removed" || reason == "config_change"
  }

  /** All rows of the lot with their entries; partial when the machine was stopped before the lot ended. */
  function WholeLot(k: Key, b: LotBuffer, reason: string): LotFile {
    LotFile(k, b.machine, b.rows, b.rowSeqs, b.lotId, !b.ended && Stopping(reason))
  }

  predicate HasRows(m: Memory, k: Key) {
    k in m.buffers && m.buffers[k].rows != []
  }

  /** The disk refuses the file of the lot open under this key. */
  predicate Refuses(m: Memory, k: Key, reason: string, disk: Disk) {
    HasRows(m, k) && !disk(WholeLot(k, m.buffers[k], reason))
  }

  lemma WriteBufferExactly(m: Memory, k: Key, b: LotBuffer, reason: string, disk: Disk)
    ensures var w, file := WriteBuffer(m, k, b, reason, disk), WholeLot(k, b, reason);
      && (w.raised <==> b.rows != [] && !disk(file))
      && Writes(w.effects, if b.rows != [] && disk(file) then [file] else [])
      && w.mem.buffers == m.buffers && w.mem.waiting == m.waiting
      && w.mem.failures == (if b.rows == [] then m.failures
                            else if disk(file) then m.failures - {k}
                            else m.failures[k := Get(m.failures, k, 0) + 1])
      && (w.raised ==> w.effects == [] && w.mem == m.(failures := w.mem.failures))
  {
    hide ReleaseAll, ReleaseCalls;
    var file := FileOf(k, b, reason);
    assert file == WholeLot(k, b, reason);
    if b.rows != [] && disk(file) {
      var m0 := m.(failures := m.failures - {k});
      var released := Release(m0, b.rowSeqs, None);
      ReleaseWritesNothing(m0, b.rowSeqs, None);
      var head := [FileWritten(file)] + (if b.machine.network then [MirrorQueued(file)] else []);
      OneFile(file);
      WritesConcat(head, released.effects, [file], []);
      assert [file] + [] == [file];
    }
  }

  lemma OneFile(file: LotFile)
    ensures Writes([FileWritten(file)] + (if file.machine.network then [MirrorQueued(file)] else []), [file])
  {
    CallsConcat([FileWritten(file)], if file.machine.network then [MirrorQueued(file)] else []);
  }

  lemma WriteAndRemoveExactly(m: Memory, k: Key, reason: string, disk: Disk)
    ensures var w := WriteAndRemove(m, k, reason, disk);
      && (w.raised <==> Refuses(m, k, reason, disk))
      && Writes(w.effects, FilesFor(m, if w.raised then [] else [k], reason))
      && w.mem.buffers == (if w.raised then m.buffers else m.buffers - {k})
      && w.mem.waiting == m.waiting
      && w.mem.failures == (if !HasRows(m, k) then m.failures
                            else if w.raised then m.failures[k := Get(m.failures, k, 0) + 1]
                            else m.failures - {k})
  {
    hide WriteBuffer;
    assert [k][..0] == [];
    if k in m.buffers {
      WriteBufferExactly(m, k, m.buffers[k], reason, disk);
    }
  }

  // ---------- flushing ----------

  predicate Distinct<T(==)>(s: seq<T>) {
    forall i, j :: 0 <= i < j < |s| ==> s[i] != s[j]
  }

  function Elements<T(==)>(s: seq<T>): set<T> {
    set x | x in s
  }

  /** One file for each of these keys that has rows, in this order. */
  function FilesFor(m: Memory, keys: seq<Key>, reason: string): seq<LotFile> {
    if keys == [] then []
    else
      var n := |keys| - 1;
      FilesFor(m, keys[..n], reason)
        + (if HasRows(m, keys[n]) then [WholeLot(keys[n], m.buffers[keys[n]], reason)] else [])
  }

  /** The first of these keys whose file the disk refuses, or their number when it refuses none. */
  function FirstRefused(m: Memory, keys: seq<Key>, reason: string, disk: Disk): (n: nat)
    ensures n <= |keys|
    ensures forall i :: 0 <= i < n ==> !Refuses(m, keys[i], reason, disk)
    ensures n < |keys| ==> Refuses(m, keys[n], reason, disk)
  {
    if keys == [] then 0
    else
      var last := |keys| - 1;
      var n := FirstRefused(m, keys[..last], reason, disk);
      if n < last || Refuses(m, keys[last], reason, disk) then n else |keys|
  }

  /** The failure counters once these lots are written and the one at `n`, if any, was refused. */
  function FailuresAfter(m: Memory, keys: seq<Key>, n: nat): map<Key, nat>
    requires n <= |keys|
  {
    var written := m.failures - (set k | k in keys[..n] && HasRows(m, k));
    if n < |keys| then written[keys[n] := Get(m.failures, keys[n], 0) + 1] else written
  }

  /**
    `r` came of writing the first `n` of these keys: one file for each of their lots with
    rows, in order, and those lots are closed. Every other lot is as it was, the one at
    `n` included, whose file the disk refused.
   */
  ghost predicate FlushedUpTo(m: Memory, keys: seq<Key>, n: nat, reason: string, r: Result)
    requires n <= |keys|
  {
    && (r.raised <==> n < |keys|)
    && Writes(r.effects, FilesFor(m, keys[..n], reason))
    && r.mem.buffers == m.buffers - Elements(keys[..n])
    && r.mem.waiting == m.waiting
    && r.mem.failures == FailuresAfter(m, keys, n)
  }

  /** A flush of distinct keys gets as far as the first lot whose file the disk refuses, or to the end. */
  lemma {:induction false} FlushWritesExactly(m: Memory, keys: seq<Key>, reason: string, disk: Disk)
    requires Distinct(keys)
    ensures FlushedUpTo(m, keys, FirstRefused(m, keys, reason, disk), reason, FlushKeys(m, keys, reason, disk))
  {
    hide WriteAndRemove, Writes, HasRows, Refuses, FilesFor, FailuresAfter, FlushedUpTo;
    if keys == [] {
      FlushNothing(m, keys, reason);
    } else {
      var last := |keys| - 1;
      var before := FlushKeys(m, keys[..last], reason, disk);
      FlushWritesExactly(m, keys[..last], reason, disk);
      if before.raised {
        FlushStopped(m, keys, FirstRefused(m, keys[..last], reason, disk), reason, before);
      } else {
        FlushOneMore(m, keys, reason, disk, before);
      }
    }
  }

  lemma FlushNothing(m: Memory, keys: seq<Key>, reason: string)
    requires keys == []
    ensures FlushedUpTo(m, keys, 0, reason, Result(m, [], false))
  {
    assert Networked([]) == [];
  }

  lemma FlushStopped(m: Memory, keys: seq<Key>, n: nat, reason: string, r: Result)
    requires keys != [] && n <= |keys| - 1 && r.raised && FlushedUpTo(m, keys[..|keys| - 1], n, reason, r)
    ensures n < |keys| - 1 && FlushedUpTo(m, keys, n, reason, r)
  {
    assert keys[..|keys| - 1][..n] == keys[..n];
  }

  /** The last key is as it was: its lot gives the file it would have given, and its counters change alone. */
  lemma LastKey(m: Memory, n: Memory, keys: seq<Key>, reason: string, disk: Disk)
    requires keys != [] && Distinct(keys)
    requires n.buffers == m.buffers - Elements(keys[..|keys| - 1])
    requires n.failures == FailuresAfter(m, keys[..|keys| - 1], |keys| - 1)
    ensures var last := |keys| - 1;
      && (keys[last] in m.buffers <==> keys[last] in n.buffers)
      && (keys[last] in m.buffers ==> m.buffers[keys[last]] == n.buffers[keys[last]])
      && Get(n.failures, keys[last], 0) == Get(m.failures, keys[last], 0)
  {
    assert forall i :: 0 <= i < |keys| - 1 ==> keys[i] != keys[|keys| - 1];
  }

  lemma FilesOneMore(m: Memory, n: Memory, keys: seq<Key>, reason: string)
    requires keys != []
    requires var k := keys[|keys| - 1];
      (k in m.buffers <==> k in n.buffers) && (k in m.buffers ==> m.buffers[k] == n.buffers[k])
    ensures var last := |keys| - 1;
      FilesFor(m, keys, reason) == FilesFor(m, keys[..last], reason) + FilesFor(n, [keys[last]], reason)
  {
    assert [keys[|keys| - 1]][..0] == [];
  }

  lemma FailuresOneMore(m: Memory, keys: seq<Key>)
    requires keys != [] && Distinct(keys)
    ensures var last := |keys| - 1; var k := keys[last]; var before := FailuresAfter(m, keys[..last], last);
      && FailuresAfter(m, keys, |keys|) == (if HasRows(m, k) then before - {k} else before)
      && FailuresAfter(m, keys, last) == before[k := Get(m.failures, k, 0) + 1]
  {
    hide HasRows;
    var last := |keys| - 1;
    assert keys[..last][..last] == keys[..last] && keys[..|keys|] == keys;
    assert keys == keys[..last] + [keys[last]];
  }

  lemma ClosedOneMore(m: Memory, keys: seq<Key>)
    requires keys != []
    ensures m.buffers - Elements(keys[..|keys| - 1]) - {keys[|keys| - 1]} == m.buffers - Elements(keys)
  {
    assert keys == keys[..|keys| - 1] + [keys[|keys| - 1]];
  }

  lemma FlushOneMore(m: Memory, keys: seq<Key>, reason: string, disk: Disk, before: Result)
    requires keys != [] && Distinct(keys) && !before.raised
    requires FlushedUpTo(m, keys[..|keys| - 1], FirstRefused(m, keys[..|keys| - 1], reason, disk), reason, before)
    ensures FlushedUpTo(m, keys, FirstRefused(m, keys, reason, disk), reason,
      After(before, WriteAndRemove(before.mem, keys[|keys| - 1], reason, disk)))
  {
    hide WriteAndRemove, Writes, FilesFor, FailuresAfter, Distinct;
    var last := |keys| - 1;
    var k := keys[last];
    assert keys[..last][..last] == keys[..last] && keys[..|keys|] == keys;
    LastKey(m, before.mem, keys, reason, disk);
    ClosedOneMore(m, keys);
    FailuresOneMore(m, keys);
    FilesOneMore(m, before.mem, keys, reason);
    WriteAndRemoveExactly(before.mem, k, reason, disk);
    var files := FilesFor(before.mem, if Refuses(m, k, reason, disk) then [] else [k], reason);
    WritesConcat(before.effects, WriteAndRemove(before.mem, k, reason, disk).effects,
      FilesFor(m, keys[..last], reason), files);
    NoKeys(before.mem, reason);
    assert FilesFor(m, keys[..last], reason) + [] == FilesFor(m, keys[..last], reason);
  }

  lemma NoKeys(m: Memory, reason: string)
    ensures FilesFor(m, [], reason) == []
  {
  }

  /** A flush of every open lot leaves none open, unless the disk refused one of them. */
  lemma FlushAllClosesEverything(m: Memory, keys: seq<Key>, reason: string, disk: Disk)
    requires Distinct(keys) && Elements(keys) == m.buffers.Keys
    ensures var r := FlushKeys(m, keys, reason, disk);
      !r.raised ==> r.mem.buffers == map[] && Writes(r.effects, FilesFor(m, keys, reason))
  {
    FlushWritesExactly(m, keys, reason, disk);
    assert keys[..|keys|] == keys;
    hide FilesFor, Writes, FailuresAfter, Refuses;
  }

  // ---------- flushing one machine ----------

  function Others<V>(x: map<Key, V>, endpoint: string): map<Key, V> {
    map k | k in x && k.endpoint != endpoint :: x[k]
  }

  /** These are the keys of the endpoint in `x`. */
  ghost predicate KeysOf<V>(keys: seq<Key>, x: map<Key, V>, endpoint: string) {
    forall k :: k in keys <==> k in x && k.endpoint == endpoint
  }

  lemma {:induction false} ForgetWaitingExactly(m: Memory, keys: seq<Key>)
    ensures var r := ForgetWaiting(m, keys);
      r.buffers == m.buffers && r.failures == m.failures && r.waiting == m.waiting - Elements(keys)
  {
    if keys != [] {
      var n := |keys| - 1;
      var before := ForgetWaiting(m, keys[..n]);
      ForgetWaitingExactly(m, keys[..n]);
      ForgetShape(before.(waiting := before.waiting - {keys[n]}), Entries(Get(before.waiting, keys[n], [])));
      assert keys == keys[..n] + [keys[n]];
    }
  }

  /**
    `r` came of a machine flush that wrote the first `n` of the endpoint's open lots: one
    file for each with rows, in order, and those are closed. When these are all of them,
    nothing of the endpoint is left in memory. Otherwise the disk refused the next one,
    which stays with the later ones and with every waiting row, and counts one failure.
    Nothing of another endpoint changes either way.
   */
  ghost predicate MachineFlushed(m: Memory, endpoint: string, keys: seq<Key>, n: nat, reason: string, r: Result)
    requires n <= |keys|
  {
    && (r.raised <==> n < |keys|)
    && Writes(r.effects, FilesFor(m, keys[..n], reason))
    && r.mem.buffers == m.buffers - Elements(keys[..n])
    && (!r.raised ==>
        && r.mem.buffers == Others(m.buffers, endpoint)
        && r.mem.waiting == Others(m.waiting, endpoint)
        && r.mem.failures == Others(m.failures, endpoint))
    && (r.raised ==>
        && r.mem.waiting == m.waiting
        && r.mem.failures == Others(m.failures, endpoint)[keys[n] := 1])
  }

  /** A machine flush given the endpoint's keys gets as far as the first lot whose file the disk refuses. */
  lemma FlushMachineExactly(
    m: Memory, endpoint: string, bufferKeys: seq<Key>, waitingKeys: seq<Key>, reason: string, disk: Disk)
    requires Distinct(bufferKeys)
    requires KeysOf(bufferKeys, m.buffers, endpoint) && KeysOf(waitingKeys, m.waiting, endpoint)
    ensures MachineFlushed(m, endpoint, bufferKeys, FirstRefused(m, bufferKeys, reason, disk), reason,
      FlushMachine(m, endpoint, bufferKeys, waitingKeys, reason, disk))
  {
    hide FlushKeys, ForgetWaiting, Writes, Distinct, FilesFor, FirstRefused, FailuresAfter, Refuses;
    var m0 := m.(failures := map k | k in m.failures && k.endpoint != endpoint :: m.failures[k]);
    var flushed := FlushKeys(m0, bufferKeys, reason, disk);
    FlushWritesExactly(m0, bufferKeys, reason, disk);
    SameLots(m, m0, bufferKeys, reason, disk);
    OwnFailuresGone(m0, endpoint, bufferKeys, FirstRefused(m, bufferKeys, reason, disk));
    assert bufferKeys[..|bufferKeys|] == bufferKeys;
    if !flushed.raised {
      ForgetWaitingExactly(flushed.mem, waitingKeys);
    }
  }

  /** What a flush does depends on the open lots and the disk alone. */
  lemma {:induction false} SameLots(m: Memory, n: Memory, keys: seq<Key>, reason: string, disk: Disk)
    requires m.buffers == n.buffers
    ensures FirstRefused(m, keys, reason, disk) == FirstRefused(n, keys, reason, disk)
    ensures FilesFor(m, keys, reason) == FilesFor(n, keys, reason)
    ensures forall i :: 0 <= i <= |keys| ==> FilesFor(m, keys[..i], reason) == FilesFor(n, keys[..i], reason)
  {
    if keys != [] {
      SameLots(m, n, keys[..|keys| - 1], reason, disk);
    }
    forall i | 0 <= i <= |keys| ensures FilesFor(m, keys[..i], reason) == FilesFor(n, keys[..i], reason) {
      if i < |keys| {
        assert keys[..|keys| - 1][..i] == keys[..i];
      } else {
        assert keys[..i] == keys;
      }
    }
  }

  lemma OwnFailuresGone(m: Memory, endpoint: string, keys: seq<Key>, n: nat)
    requires n <= |keys| && forall k :: k in keys ==> k.endpoint == endpoint
    requires forall k :: k in m.failures ==> k.endpoint != endpoint
    ensures FailuresAfter(m, keys, n) == if n < |keys| then m.failures[keys[n] := 1] else m.failures
  {
    hide HasRows;
    assert m.failures - (set k | k in keys[..n] && HasRows(m, k)) == m.failures;
  }

  // ---------- appending ----------

  /** The event's port, and the row it gives. */
  function KeyFor(machine: Machine, ev: Event): Key {
    Key(machine.endpoint, if ev.loadPort == "" then "NA" else ev.loadPort)
  }

  function RowFor(ev: Event): Row {
    Row(ev.loadPort, ev.lotId, ev.ordinal)
  }

  function EmptyLot(machine: Machine, ev: Event): LotBuffer {
    LotBuffer(machine, [], [], ev.lotId, KeyFor(machine, ev).port, false)
  }

  /** The waiting rows that are not past the time limit. */
  function Fresh(m: Memory, cfg: Config, k: Key, now: real): seq<Waiting> {
    var w := Get(m.waiting, k, []);
    w[ExpiredCount(w, now - cfg.ttl)..]
  }

  /** Exactly the rows at the head that are past the limit, up to the first that is not. */
  lemma {:induction false} ExpiredExactly(w: seq<Waiting>, cutoff: real)
    ensures var n := ExpiredCount(w, cutoff);
      (forall i :: 0 <= i < n ==> w[i].since < cutoff) && (n < |w| ==> w[n].since >= cutoff)
  {
    if w != [] && w[0].since < cutoff {
      ExpiredExactly(w[1..], cutoff);
      var n := ExpiredCount(w, cutoff);
      forall i | 0 < i < n ensures w[i].since < cutoff {
        assert w[i] == w[1..][i - 1];
      }
    }
  }

  /** The lot the event finds: the one open on its port, or a new one with the rows that waited there. */
  function LotFound(m: Memory, cfg: Config, machine: Machine, ev: Event, now: real): LotBuffer {
    var k := KeyFor(machine, ev);
    if k in m.buffers then m.buffers[k]
    else
      var w := Fresh(m, cfg, k, now);
      EmptyLot(machine, ev).(
        rows := seq(|w|, i requires 0 <= i < |w| => w[i].row),
        rowSeqs := seq(|w|, i requires 0 <= i < |w| => w[i].entry))
  }

  /** The event names another lot than the one it finds. */
  predicate NamesAnother(b: LotBuffer, ev: Event) {
    b.lotId != "" && ev.lotId != "" && b.lotId != ev.lotId
  }

  /** Then the file of the old lot comes first, and the append fails there if the disk refuses it. */
  predicate StuckOnOldLot(k: Key, b: LotBuffer, ev: Event, disk: Disk) {
    NamesAnother(b, ev) && b.rows != [] && !disk(WholeLot(k, b, "lot_changed"))
  }

  /** The lot the row goes to: an empty one of its own when it names another. */
  function OwnLot(machine: Machine, b: LotBuffer, ev: Event): LotBuffer {
    if NamesAnother(b, ev) then EmptyLot(machine, ev) else b
  }

  /** That lot with the event's row at its end. */
  function WithRow(machine: Machine, b: LotBuffer, ev: Event, entry: Option<nat>): LotBuffer {
    var own := OwnLot(machine, b, ev);
    LotBuffer(own.machine, own.rows + [RowFor(ev)], own.rowSeqs + [entry],
      if own.lotId == "" then ev.lotId else own.lotId, own.loadPort, own.ended || ev.eventType == "lot_end")
  }

  /** The files of one append: the old lot when the lot changes, then the event's own lot when the event closes it. */
  function FilesOfAppend(k: Key, b: LotBuffer, joined: LotBuffer, ev: Event, disk: Disk): seq<LotFile> {
    if StuckOnOldLot(k, b, ev, disk) then []
    else
      (if NamesAnother(b, ev) && b.rows != [] then [WholeLot(k, b, "lot_changed")] else [])
        + (if ev.closesLotFile && disk(WholeLot(k, joined, "carrier_unloaded"))
           then [WholeLot(k, joined, "carrier_unloaded")] else [])
  }

  /** The write failures of the port once its old lot, if it changed, is written. */
  function FailuresBefore(m: Memory, k: Key, b: LotBuffer, ev: Event): map<Key, nat> {
    if NamesAnother(b, ev) && b.rows != [] then m.failures - {k} else m.failures
  }

  /** The lot open on the event's port afterwards, if one is. */
  function LotLeft(
    m: Memory, cfg: Config, k: Key, b: LotBuffer, joined: LotBuffer, ev: Event, disk: Disk): Option<LotBuffer>
  {
    if StuckOnOldLot(k, b, ev, disk) then Some(b)
    else if ev.closesLotFile then
      if disk(WholeLot(k, joined, "carrier_unloaded")) then None else Some(joined)
    else if Get(FailuresBefore(m, k, b, ev), k, 0) > 0 && |joined.rows| > cfg.maxLotRows then None
    else Some(joined)
  }

  function Put<V>(x: map<Key, V>, k: Key, v: Option<V>): map<Key, V> {
    if v.None? then x - {k} else x[k := v.value]
  }

  lemma FoundExactly(m: Memory, cfg: Config, machine: Machine, ev: Event, now: real)
    requires Shape(m)
    ensures var k := KeyFor(machine, ev); var g := GetBuffer(m, cfg, machine, k, ev, now);
      && g.mem.buffers == m.buffers[k := LotFound(m, cfg, machine, ev, now)]
      && g.mem.waiting == m.waiting - {k}
      && g.mem.failures == m.failures
      && Writes(g.effects, [])
  {
    hide Prune, ReleaseAll, ReleaseCalls;
    var k := KeyFor(machine, ev);
    NoKeys(m, "");
    assert Writes([], []) by { MarksWriteNothing([]); }
    if k !in m.buffers {
      Promotion(m, cfg, machine, k, ev, now);
      PruneExactly(m, cfg, k, now);
    }
  }

  lemma PruneExactly(m: Memory, cfg: Config, k: Key, now: real)
    ensures var p := Prune(m, cfg, k, now);
      && p.mem.buffers == m.buffers && p.mem.failures == m.failures
      && p.mem.waiting - {k} == m.waiting - {k}
      && Get(p.mem.waiting, k, []) == Fresh(m, cfg, k, now)
      && Writes(p.effects, []) && !p.raised
  {
    hide ReleaseAll, ReleaseCalls, Writes;
    MarksWriteNothing([]);
    if k in m.waiting && m.waiting[k] != [] {
      var bucket := m.waiting[k];
      var n := ExpiredCount(bucket, now - cfg.ttl);
      var rest := bucket[n..];
      var m1 := m.(waiting := if rest == [] then m.waiting - {k} else m.waiting[k := rest]);
      ReleaseWritesNothing(m1, Entries(bucket[..n]), Some(TTL_REASON));
    }
  }

  /** The lot is found, and replaced by an empty one, `own`, if the event names another and the old file can be written. */
  ghost predicate Opened(m: Memory, k: Key, b: LotBuffer, own: LotBuffer, ev: Event, disk: Disk, o: Result) {
    var stuck := StuckOnOldLot(k, b, ev, disk);
    && (o.raised <==> stuck)
    && Writes(o.effects, if !stuck && NamesAnother(b, ev) && b.rows != [] then [WholeLot(k, b, "lot_changed")] else [])
    && o.mem.buffers == m.buffers[k := if stuck then b else own]
    && o.mem.waiting == m.waiting - {k}
    && o.mem.failures ==
        if stuck then m.failures[k := Get(m.failures, k, 0) + 1] else FailuresBefore(m, k, b, ev)
  }

  lemma OpenLotExactly(m: Memory, cfg: Config, machine: Machine, ev: Event, now: real, disk: Disk)
    requires Shape(m)
    ensures var b := LotFound(m, cfg, machine, ev, now);
      Opened(m, KeyFor(machine, ev), b, OwnLot(machine, b, ev), ev, disk, OpenLot(m, cfg, machine, ev, now, disk))
  {
    hide GetBuffer, WriteBuffer, Writes, LotFound;
    var k, b := KeyFor(machine, ev), LotFound(m, cfg, machine, ev, now);
    FoundExactly(m, cfg, machine, ev, now);
    var got := GetBuffer(m, cfg, machine, k, ev, now);
    if NamesAnother(b, ev) {
      var w := WriteBuffer(got.mem, k, b, "lot_changed", disk);
      WriteBufferExactly(got.mem, k, b, "lot_changed", disk);
      var files := if w.raised || b.rows == [] then [] else [WholeLot(k, b, "lot_changed")];
      WritesConcat(got.effects, w.effects, [], files);
      assert [] + files == files;
    }
  }

  lemma JoinedExactly(m: Memory, k: Key, machine: Machine, b: LotBuffer, ev: Event, entry: Option<nat>)
    requires k in m.buffers && |m.buffers[k].rows| == |m.buffers[k].rowSeqs|
    requires m.buffers[k] == OwnLot(machine, b, ev)
    ensures var j := Joined(m, k, ev, entry);
      j == m.(refs := j.refs, buffers := m.buffers[k := WithRow(machine, b, ev, entry)])
  {
    AddExact(m.buffers[k], RowOf(ev), entry);
  }

  /**
    One append of a lot event that does not wait, told at once: which files it writes,
    what stays open on its port, and when it fails. Other ports are not touched.
   */
  ghost predicate Appended(
    m: Memory, cfg: Config, k: Key, b: LotBuffer, joined: LotBuffer, ev: Event, disk: Disk, r: Result)
  {
    var stuck := StuckOnOldLot(k, b, ev, disk);
    var refused := !stuck && ev.closesLotFile && !disk(WholeLot(k, joined, "carrier_unloaded"));
    var before := FailuresBefore(m, k, b, ev);
    && (r.raised <==> stuck || refused)
    && Writes(r.effects, FilesOfAppend(k, b, joined, ev, disk))
    && r.mem.buffers == Put(m.buffers, k, LotLeft(m, cfg, k, b, joined, ev, disk))
    && r.mem.waiting == m.waiting - {k}
    && r.mem.failures ==
        if stuck then m.failures[k := Get(m.failures, k, 0) + 1]
        else if refused then before[k := Get(before, k, 0) + 1]
        else if ev.closesLotFile then before - {k}
        else before
  }

  /** The row joins, and then the lot is closed, given up as over-long, or stays open. */
  ghost predicate RowAdded(m: Memory, cfg: Config, k: Key, joined: LotBuffer, ev: Event, disk: Disk, r: Result) {
    var file := WholeLot(k, joined, "carrier_unloaded");
    var overLong := Get(m.failures, k, 0) > 0 && |joined.rows| > cfg.maxLotRows;
    && (r.raised <==> ev.closesLotFile && !disk(file))
    && Writes(r.effects, if ev.closesLotFile && disk(file) then [file] else [])
    && r.mem.buffers ==
        (if (if ev.closesLotFile then disk(file) else overLong) then m.buffers - {k} else m.buffers[k := joined])
    && r.mem.waiting == m.waiting
    && r.mem.failures ==
        if !ev.closesLotFile then m.failures
        else if disk(file) then m.failures - {k} else m.failures[k := Get(m.failures, k, 0) + 1]
  }

  lemma RowExactly(
    m: Memory, cfg: Config, k: Key, machine: Machine, b: LotBuffer, ev: Event, entry: Option<nat>, disk: Disk)
    requires k in m.buffers && |m.buffers[k].rows| == |m.buffers[k].rowSeqs|
    requires m.buffers[k] == OwnLot(machine, b, ev)
    ensures RowAdded(m, cfg, k, WithRow(machine, b, ev, entry), ev, disk, AppendRow(m, cfg, k, ev, entry, disk))
  {
    hide Writes, WriteAndRemove, Joined, Forget;
    JoinedExactly(m, k, machine, b, ev, entry);
    var j, joined := Joined(m, k, ev, entry), WithRow(machine, b, ev, entry);
    WriteAndRemoveExactly(j, k, "carrier_unloaded", disk);
    ForgetShape(j.(buffers := j.buffers - {k}), joined.rowSeqs);
    MarksWriteNothing([]);
    OneKey(j, k, "carrier_unloaded");
  }

  lemma OpenedAndAdded(
    m: Memory, cfg: Config, k: Key, b: LotBuffer, own: LotBuffer, joined: LotBuffer, ev: Event, disk: Disk,
    o: Result, r: Result)
    requires Opened(m, k, b, own, ev, disk, o)
    requires !o.raised ==> RowAdded(o.mem, cfg, k, joined, ev, disk, r)
    ensures Appended(m, cfg, k, b, joined, ev, disk, if o.raised then o else After(o, r))
  {
    hide Writes, WholeLot, NamesAnother;
    if !o.raised {
      var close := WholeLot(k, joined, "carrier_unloaded");
      WritesConcat(o.effects, r.effects,
        if NamesAnother(b, ev) && b.rows != [] then [WholeLot(k, b, "lot_changed")] else [],
        if ev.closesLotFile && disk(close) then [close] else []);
    }
  }

  lemma AppendToLotExactly(
    m: Memory, cfg: Config, machine: Machine, ev: Event, entry: Option<nat>, now: real, disk: Disk)
    requires Shape(m)
    ensures var b := LotFound(m, cfg, machine, ev, now);
      Appended(m, cfg, KeyFor(machine, ev), b, WithRow(machine, b, ev, entry), ev, disk,
        AppendToLot(m, cfg, machine, ev, entry, now, disk))
  {
    hide OpenLot, AppendRow, LotFound, WithRow, OwnLot, PortOf, KeyFor, Shape, Opened, RowAdded, Appended;
    SameKey(machine, ev);
    var k, b := KeyFor(machine, ev), LotFound(m, cfg, machine, ev, now);
    var o := OpenLot(m, cfg, machine, ev, now, disk);
    OpenLotExactly(m, cfg, machine, ev, now, disk);
    OpenedOwn(m, cfg, machine, ev, now, disk);
    if !o.raised {
      RowExactly(o.mem, cfg, k, machine, b, ev, entry, disk);
    }
    OpenedAndAdded(m, cfg, k, b, OwnLot(machine, b, ev), WithRow(machine, b, ev, entry), ev, disk, o,
      if o.raised then o else AppendRow(o.mem, cfg, k, ev, entry, disk));
  }

  /** Once the lot is open it is the event's own, its rows and entries side by side. */
  lemma OpenedOwn(m: Memory, cfg: Config, machine: Machine, ev: Event, now: real, disk: Disk)
    requires Shape(m)
    ensures var k, b := KeyFor(machine, ev), LotFound(m, cfg, machine, ev, now);
      var o := OpenLot(m, cfg, machine, ev, now, disk);
      !o.raised ==>
        && k in o.mem.buffers && o.mem.buffers[k] == OwnLot(machine, b, ev)
        && |o.mem.buffers[k].rows| == |o.mem.buffers[k].rowSeqs|
  {
    hide OpenLot, LotFound, Writes, Shape;
    OpenLotExactly(m, cfg, machine, ev, now, disk);
    FoundAligned(m, cfg, machine, ev, now);
  }

  lemma SameKey(machine: Machine, ev: Event)
    ensures KeyOf(machine, ev) == KeyFor(machine, ev)
  {
  }

  lemma FoundAligned(m: Memory, cfg: Config, machine: Machine, ev: Event, now: real)
    requires Shape(m)
    ensures var b := LotFound(m, cfg, machine, ev, now); |b.rows| == |b.rowSeqs|
  {
  }

  lemma OneKey(m: Memory, k: Key, reason: string)
    ensures FilesFor(m, [k], reason) == if HasRows(m, k) then [WholeLot(k, m.buffers[k], reason)] else []
    ensures FilesFor(m, [], reason) == []
  {
    assert [k][..0] == [];
  }

  /**
    Every append, from memory and the disk alone. An event that is no lot event changes
    nothing; one without a lot, on a port with no open lot, waits and opens and writes
    nothing; every other one is `Appended`.
   */
  lemma AppendWritesExactly(
    m: Memory, cfg: Config, machine: Machine, ev: Event, entry: Option<nat>, now: real, disk: Disk)
    requires Shape(m)
    ensures var k, b := KeyFor(machine, ev), LotFound(m, cfg, machine, ev, now);
      var r := Append(m, cfg, machine, ev, entry, now, disk);
      if !IsCsvEvent(ev) then
        r.mem == m && !r.raised && Writes(r.effects, [])
      else if ev.lotId == "" && k !in m.buffers then
        && r.mem.buffers == m.buffers && r.mem.failures == m.failures
        && r.mem.waiting - {k} == m.waiting - {k}
        && !r.raised && Writes(r.effects, [])
      else Appended(m, cfg, k, b, WithRow(machine, b, ev, entry), ev, disk, r)
  {
    hide AppendToLot, Writes, LotFound, Appended, Prune, ReleaseAll, ReleaseCalls;
    var k := KeyFor(machine, ev);
    AppendToLotExactly(m, cfg, machine, ev, entry, now, disk);
    if !IsCsvEvent(ev) {
      MarksWriteNothing(Append(m, cfg, machine, ev, entry, now, disk).effects);
    } else if ev.lotId == "" && k !in m.buffers {
      WaitingWritesNothing(m, cfg, k, ev, entry, now);
    }
  }

  lemma WaitingWritesNothing(m: Memory, cfg: Config, k: Key, ev: Event, entry: Option<nat>, now: real)
    ensures var r := AppendWaiting(m, cfg, k, ev, entry, now);
      && r.mem.buffers == m.buffers && r.mem.failures == m.failures
      && r.mem.waiting - {k} == m.waiting - {k}
      && Writes(r.effects, [])
  {
    hide Prune, ReleaseAll, ReleaseCalls, Writes;
    var p := Prune(m, cfg, k, now);
    PruneExactly(m, cfg, k, now);
    var bucket := Get(p.mem.waiting, k, []) + [Waiting(now, RowOf(ev), entry)];
    var m1 := Track(p.mem.(waiting := p.mem.waiting[k := bucket]), entry);
    if |bucket| > cfg.maxWaiting {
      var m2 := m1.(waiting := m1.waiting[k := bucket[1..]]);
      ReleaseWritesNothing(m2, [bucket[0].entry], Some(CAP_REASON));
      WritesConcat(p.effects, Release(m2, [bucket[0].entry], Some(CAP_REASON)).effects, [], []);
    }
  }

  // ---------- what a drop says ----------

  /** Every drop among these calls gives this reason, or, when there is none, the one its entry was marked with. */
  predicate SayWhy(es: seq<Effect>, reason: Option<string>, marked: map<nat, string>) {
    forall e <- es :: e.CsvDropped? ==>
      if reason.Some? then e.reason == reason.value else e.entry in marked && e.reason == marked[e.entry]
  }

  lemma {:induction false} ReleaseSaysWhy(
    refs: map<nat, nat>, dropped: map<nat, string>, entries: seq<Option<nat>>, reason: Option<string>)
    ensures var r := ReleaseAll(refs, dropped, entries, reason);
      && SayWhy(r.drops, reason, dropped)
      && (reason.None? ==> forall s <- r.dropped :: s in dropped && r.dropped[s] == dropped[s])
  {
    if entries != [] {
      ReleaseSaysWhy(refs, dropped, entries[..|entries| - 1], reason);
    }
  }

  lemma CallsSayWhy(m: Memory, entries: seq<Option<nat>>, reason: Option<string>)
    ensures SayWhy(Release(m, entries, reason).effects, reason, if reason.None? then m.dropped else map[])
  {
    hide ReleaseAll;
    ReleaseSaysWhy(m.refs, m.dropped, entries, reason);
  }

  /** The rows that have waited too long are dropped as expired, and only with that reason. */
  lemma ExpirySaysWhy(m: Memory, cfg: Config, k: Key, now: real)
    ensures SayWhy(Prune(m, cfg, k, now).effects, Some("pre-lot TTL expired"), map[])
  {
    hide Release;
    if k in m.waiting && m.waiting[k] != [] {
      var n := ExpiredCount(m.waiting[k], now - cfg.ttl);
      var rest := m.waiting[k][n..];
      CallsSayWhy(m.(waiting := if rest == [] then m.waiting - {k} else m.waiting[k := rest]),
        Entries(m.waiting[k][..n]), Some(TTL_REASON));
    }
  }

  /** A row that may not wait any longer is dropped as expired, or as the oldest of too many. */
  lemma WaitingSaysWhy(m: Memory, cfg: Config, k: Key, ev: Event, entry: Option<nat>, now: real)
    ensures exists cut ::
      && AppendWaiting(m, cfg, k, ev, entry, now).effects == Prune(m, cfg, k, now).effects + cut
      && SayWhy(cut, Some("pre-lot buffer cap reached"), map[])
  {
    hide Prune, Release;
    var p := Prune(m, cfg, k, now);
    var bucket := Get(p.mem.waiting, k, []) + [Waiting(now, RowOf(ev), entry)];
    var m1 := Track(p.mem.(waiting := p.mem.waiting[k := bucket]), entry);
    if |bucket| > cfg.maxWaiting {
      CallsSayWhy(m1.(waiting := m1.waiting[k := bucket[1..]]), [bucket[0].entry], Some(CAP_REASON));
    } else {
      assert p.effects + [] == p.effects && SayWhy([], Some("pre-lot buffer cap reached"), map[]);
    }
  }
}
