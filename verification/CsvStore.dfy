/**
  The per-lot CSV writer of eap_middleware/csv_store.py.

  `Memory` is the writer's five dictionaries. Every operation is a function
  from memory to memory plus the ordered list of durable calls (`Effect`) it
  makes on the disk and on the ingress journal; `raised` says whether the local
  file write failed and the exception reached the caller. The class at the end
  performs the same operations in place, loop by loop, and is proved to
  compute these functions.
 */
module CsvStore {
  import opened Wrappers

  const CSV_EVENT_TYPES: set<string> := {
    "ready_to_load", "loaded", "clamped", "mapped", "mounted", "lot_start",
    "wafer_start", "process_start", "process_end", "wafer_end", "lot_end",
    "unmounted", "unclamped", "ready_to_unload", "unloaded", "unknown"
  }

  const PARTIAL_REASONS: set<string> :=
    {"stopped", "service_stop", "disabled_or_removed", "config_change"}

  const TTL_REASON := "pre-lot TTL expired"
  const CAP_REASON := "pre-lot buffer cap reached"

  /** `network` says whether a network folder is configured. */
  datatype Machine = Machine(endpoint: string, network: bool)

  /** `ordinal` is the arrival rank of the event; `closesLotFile` is the profile's verdict. */
  datatype Event = Event(
    eventType: string, loadPort: string, lotId: string, closesLotFile: bool, ordinal: nat)

  datatype Key = Key(endpoint: string, port: string)

  datatype Row = Row(loadPort: string, lotId: string, ordinal: nat)

  /** One pre-lot entry: the moment it was received, its row, its journal sequence. */
  datatype Waiting = Waiting(since: real, row: Row, entry: Option<nat>)

  datatype LotBuffer = LotBuffer(
    machine: Machine, rows: seq<Row>, rowSeqs: seq<Option<nat>>,
    lotId: string, loadPort: string, ended: bool)
  {
    /** Append a row, padding the sequence list first so the two stay index-aligned. */
    function Add(row: Row, entry: Option<nat>): LotBuffer {
      var gap := if |rowSeqs| < |rows| then |rows| - |rowSeqs| else 0;
      this.(rows := rows + [row], rowSeqs := rowSeqs + seq(gap, _ => None) + [entry])
    }
  }

  datatype LotFile = LotFile(
    key: Key, machine: Machine, rows: seq<Row>, rowSeqs: seq<Option<nat>>, lotId: string, partial: bool)

  /** One durable call, in the order the writer issues it. */
  datatype Effect =
    | FileWritten(file: LotFile)
    | MirrorQueued(file: LotFile)
    | CsvDone(entries: seq<nat>)
    | CsvDropped(entry: nat, reason: string)
    | CsvSkipped(entry: nat)

  datatype Config = Config(ttl: real, maxWaiting: int, maxLotRows: int)

  datatype Memory = Memory(
    buffers: map<Key, LotBuffer>,
    waiting: map<Key, seq<Waiting>>,
    refs: map<nat, nat>,
    dropped: map<nat, string>,
    failures: map<Key, nat>)

  const EMPTY := Memory(map[], map[], map[], map[], map[])

  datatype Result = Result(mem: Memory, effects: seq<Effect>, raised: bool)

  /** Whether the local file system accepts this file. */
  type Disk = LotFile -> bool

  // ---------- journal accounting ----------

  predicate Holds(m: Memory, entry: nat) {
    entry in m.refs
  }

  function Track(m: Memory, entry: Option<nat>): Memory {
    match entry
    case None => m
    case Some(s) => m.(refs := m.refs[s := Get(m.refs, s, 0) + 1])
  }

  /** Running state of the loop in `_release`. */
  datatype Releasing = Releasing(
    refs: map<nat, nat>, dropped: map<nat, string>, drops: seq<Effect>, done: seq<nat>)

  function ReleaseOne(r: Releasing, entry: Option<nat>, reason: Option<string>): Releasing {
    match entry
    case None => r
    case Some(s) =>
      var marked := if reason.Some? then r.dropped[s := reason.value] else r.dropped;
      var remaining := Get(r.refs, s, 0) as int - 1;
      if remaining > 0 then
        r.(refs := r.refs[s := remaining], dropped := marked)
      else if s in marked then
        Releasing(r.refs - {s}, marked - {s}, r.drops + [CsvDropped(s, marked[s])], r.done)
      else
        Releasing(r.refs - {s}, marked - {s}, r.drops, r.done + [s])
  }

  function ReleaseAll(
    refs: map<nat, nat>, dropped: map<nat, string>,
    entries: seq<Option<nat>>, reason: Option<string>): Releasing
  {
    if entries == [] then Releasing(refs, dropped, [], [])
    else
      var n := |entries| - 1;
      ReleaseOne(ReleaseAll(refs, dropped, entries[..n], reason), entries[n], reason)
  }

  /** The calls a release makes: drops inside the loop, then one `mark_csv_done` batch. */
  function ReleaseCalls(r: Releasing): seq<Effect> {
    r.drops + (if r.done == [] then [] else [CsvDone(r.done)])
  }

  function Release(m: Memory, entries: seq<Option<nat>>, reason: Option<string>): Result {
    var r := ReleaseAll(m.refs, m.dropped, entries, reason);
    Result(m.(refs := r.refs, dropped := r.dropped), ReleaseCalls(r), false)
  }

  /** Rows leave memory while their journal entries deliberately stay pending. */
  function ForgetOne(m: Memory, entry: Option<nat>): Memory {
    match entry
    case None => m
    case Some(s) =>
      var remaining := Get(m.refs, s, 0) as int - 1;
      if remaining > 0 then m.(refs := m.refs[s := remaining])
      else m.(refs := m.refs - {s}, dropped := m.dropped - {s})
  }

  function Forget(m: Memory, entries: seq<Option<nat>>): Memory {
    if entries == [] then m
    else
      var n := |entries| - 1;
      ForgetOne(Forget(m, entries[..n]), entries[n])
  }

  // ---------- pre-lot rows ----------

  function Entries(w: seq<Waiting>): seq<Option<nat>> {
    seq(|w|, i requires 0 <= i < |w| => w[i].entry)
  }

  function WaitingRows(w: seq<Waiting>): seq<Row> {
    seq(|w|, i requires 0 <= i < |w| => w[i].row)
  }

  /** How many entries at the head have expired; the loop stops at the first fresh one. */
  function ExpiredCount(w: seq<Waiting>, cutoff: real): (n: nat)
    ensures n <= |w|
  {
    if w != [] && w[0].since < cutoff then 1 + ExpiredCount(w[1..], cutoff) else 0
  }

  function Prune(m: Memory, cfg: Config, key: Key, now: real): Result {
    if key !in m.waiting || m.waiting[key] == [] then Result(m, [], false)
    else
      var bucket := m.waiting[key];
      var n := ExpiredCount(bucket, now - cfg.ttl);
      var rest := bucket[n..];
      var m1 := m.(waiting := if rest == [] then m.waiting - {key} else m.waiting[key := rest]);
      if n == 0 then Result(m1, [], false)
      else Release(m1, Entries(bucket[..n]), Some(TTL_REASON))
  }

  // ---------- buffers and files ----------

  function PortOf(ev: Event): string {
    if ev.loadPort == "" then "NA" else ev.loadPort
  }

  function KeyOf(machine: Machine, ev: Event): Key {
    Key(machine.endpoint, PortOf(ev))
  }

  function RowOf(ev: Event): Row {
    Row(ev.loadPort, ev.lotId, ev.ordinal)
  }

  function NewBuffer(machine: Machine, ev: Event): LotBuffer {
    LotBuffer(machine, [], [], ev.lotId, PortOf(ev), false)
  }

  /** Promotion: the rows change container, so their journal references carry over. */
  function AddWaiting(b: LotBuffer, w: seq<Waiting>): LotBuffer {
    if w == [] then b
    else
      var n := |w| - 1;
      AddWaiting(b, w[..n]).Add(w[n].row, w[n].entry)
  }

  function GetBuffer(m: Memory, cfg: Config, machine: Machine, key: Key, ev: Event, now: real): (r: Result)
    ensures key in r.mem.buffers && !r.raised
  {
    if key in m.buffers then Result(m, [], false)
    else
      var m0 := m.(buffers := m.buffers[key := NewBuffer(machine, ev)]);
      var pruned := Prune(m0, cfg, key, now);
      var m1 := pruned.mem;
      var promoted := AddWaiting(m1.buffers[key], Get(m1.waiting, key, []));
      Result(
        m1.(buffers := m1.buffers[key := promoted], waiting := m1.waiting - {key}),
        pruned.effects, false)
  }

  function FileOf(key: Key, b: LotBuffer, reason: string): LotFile {
    LotFile(key, b.machine, b.rows, b.rowSeqs, b.lotId, reason in PARTIAL_REASONS && !b.ended)
  }

  /** `_write_buffer`: file, then mirror task, and only then the journal marks. */
  function WriteBuffer(m: Memory, key: Key, b: LotBuffer, reason: string, disk: Disk): Result {
    if b.rows == [] then Result(m, [], false)
    else
      var file := FileOf(key, b, reason);
      if !disk(file) then
        Result(m.(failures := m.failures[key := Get(m.failures, key, 0) + 1]), [], true)
      else
        var released := Release(m.(failures := m.failures - {key}), b.rowSeqs, None);
        var mirror := if b.machine.network then [MirrorQueued(file)] else [];
        Result(released.mem, [FileWritten(file)] + mirror + released.effects, false)
  }

  /** The buffer is the only in-memory copy, so it goes only once the write succeeded. */
  function WriteAndRemove(m: Memory, key: Key, reason: string, disk: Disk): Result {
    if key !in m.buffers then Result(m, [], false)
    else
      var w := WriteBuffer(m, key, m.buffers[key], reason, disk);
      if w.raised then w else w.(mem := w.mem.(buffers := w.mem.buffers - {key}))
  }

  function Evict(m: Memory, key: Key): Memory
    requires key in m.buffers
  {
    Forget(m.(buffers := m.buffers - {key}), m.buffers[key].rowSeqs)
  }

  // ---------- append ----------

  function AppendWaiting(
    m: Memory, cfg: Config, key: Key, ev: Event, entry: Option<nat>, now: real): (r: Result)
    ensures !r.raised
  {
    var pruned := Prune(m, cfg, key, now);
    var bucket := Get(pruned.mem.waiting, key, []) + [Waiting(now, RowOf(ev), entry)];
    var m1 := Track(pruned.mem.(waiting := pruned.mem.waiting[key := bucket]), entry);
    if |bucket| > cfg.maxWaiting then
      var released :=
        Release(m1.(waiting := m1.waiting[key := bucket[1..]]), [bucket[0].entry], Some(CAP_REASON));
      Result(released.mem, pruned.effects + released.effects, false)
    else
      Result(m1, pruned.effects, false)
  }

  function JoinedBuffer(b: LotBuffer, ev: Event, entry: Option<nat>): LotBuffer {
    var b0 := b.Add(RowOf(ev), entry);
    var b1 := if ev.lotId != "" && b0.lotId == "" then b0.(lotId := ev.lotId) else b0;
    if ev.eventType == "lot_end" then b1.(ended := true) else b1
  }

  /** The row is in the open buffer and its journal entry is counted. */
  function Joined(m: Memory, key: Key, ev: Event, entry: Option<nat>): (r: Memory)
    requires key in m.buffers
    ensures key in r.buffers
  {
    Track(m.(buffers := m.buffers[key := JoinedBuffer(m.buffers[key], ev, entry)]), entry)
  }

  /** The row joins the open buffer, which may then close or be evicted. */
  function AppendRow(
    m: Memory, cfg: Config, key: Key, ev: Event, entry: Option<nat>, disk: Disk): Result
    requires key in m.buffers
  {
    var m1 := Joined(m, key, ev, entry);
    if ev.closesLotFile then WriteAndRemove(m1, key, "carrier_unloaded", disk)
    else if Get(m1.failures, key, 0) != 0 && |m1.buffers[key].rows| > cfg.maxLotRows then
      Result(Evict(m1, key), [], false)
    else
      Result(m1, [], false)
  }

  predicate IsCsvEvent(ev: Event) {
    ev.eventType in CSV_EVENT_TYPES
  }

  predicate LotChanged(b: LotBuffer, ev: Event) {
    b.lotId != "" && ev.lotId != "" && b.lotId != ev.lotId
  }

  function After(r: Result, s: Result): Result {
    Result(s.mem, r.effects + s.effects, s.raised)
  }

  /**
    Find the buffer the row belongs in. When the event names another lot, the open
    lot is written first and an empty buffer for the event's own lot replaces it;
    a failed write leaves everything where it was.
   */
  function OpenLot(m: Memory, cfg: Config, machine: Machine, ev: Event, now: real, disk: Disk): Result {
    var key := KeyOf(machine, ev);
    var got := GetBuffer(m, cfg, machine, key, ev, now);
    var b := got.mem.buffers[key];
    if !LotChanged(b, ev) then got
    else
      var w := WriteBuffer(got.mem, key, b, "lot_changed", disk);
      After(got, if w.raised then w else w.(mem := w.mem.(buffers := w.mem.buffers[key := NewBuffer(machine, ev)])))
  }

  function AppendToLot(
    m: Memory, cfg: Config, machine: Machine, ev: Event, entry: Option<nat>, now: real, disk: Disk): Result
  {
    var o := OpenLot(m, cfg, machine, ev, now, disk);
    if o.raised then o
    else
      assert KeyOf(machine, ev) in o.mem.buffers by { OpenLotOpens(m, cfg, machine, ev, now, disk); }
      After(o, AppendRow(o.mem, cfg, KeyOf(machine, ev), ev, entry, disk))
  }

  function Append(
    m: Memory, cfg: Config, machine: Machine, ev: Event, entry: Option<nat>, now: real, disk: Disk): Result
  {
    if !IsCsvEvent(ev) then
      Result(m, if entry.Some? then [CsvSkipped(entry.value)] else [], false)
    else if ev.lotId == "" && KeyOf(machine, ev) !in m.buffers then
      AppendWaiting(m, cfg, KeyOf(machine, ev), ev, entry, now)
    else
      AppendToLot(m, cfg, machine, ev, entry, now, disk)
  }

  lemma OpenLotOpens(m: Memory, cfg: Config, machine: Machine, ev: Event, now: real, disk: Disk)
    ensures KeyOf(machine, ev) in OpenLot(m, cfg, machine, ev, now, disk).mem.buffers
  {
  }

  /**
    After a lot change the code calls itself again. That second call finds a
    buffer of the event's own lot, so all it does is add the row: going on is
    the same as calling again.
   */
  lemma CallingAgainAddsTheRow(
    m: Memory, cfg: Config, machine: Machine, ev: Event, entry: Option<nat>, now: real, disk: Disk)
    requires IsCsvEvent(ev) && KeyOf(machine, ev) in m.buffers
    requires m.buffers[KeyOf(machine, ev)] == NewBuffer(machine, ev)
    ensures Append(m, cfg, machine, ev, entry, now, disk)
      == AppendRow(m, cfg, KeyOf(machine, ev), ev, entry, disk)
  {
  }

  // ---------- flushing ----------

  /** `_write_and_remove` for each key of a snapshot; the first failed write ends the loop. */
  function FlushKeys(m: Memory, keys: seq<Key>, reason: string, disk: Disk): Result {
    if keys == [] then Result(m, [], false)
    else
      var n := |keys| - 1;
      var before := FlushKeys(m, keys[..n], reason, disk);
      if before.raised then before
      else After(before, WriteAndRemove(before.mem, keys[n], reason, disk))
  }

  function ForgetWaiting(m: Memory, keys: seq<Key>): Memory {
    if keys == [] then m
    else
      var n := |keys| - 1;
      var before := ForgetWaiting(m, keys[..n]);
      Forget(before.(waiting := before.waiting - {keys[n]}), Entries(Get(before.waiting, keys[n], [])))
  }

  /** `bufferKeys` and `waitingKeys` are the endpoint's keys in dictionary order. */
  function FlushMachine(
    m: Memory, endpoint: string, bufferKeys: seq<Key>, waitingKeys: seq<Key>, reason: string, disk: Disk): Result
  {
    var m0 := m.(failures := map k | k in m.failures && k.endpoint != endpoint :: m.failures[k]);
    var flushed := FlushKeys(m0, bufferKeys, reason, disk);
    if flushed.raised then flushed
    else flushed.(mem := ForgetWaiting(flushed.mem, waitingKeys))
  }
}
