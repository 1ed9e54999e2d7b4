/**
  The ingress journal of eap_middleware/journal.py: what is accepted, under
  which identity, and how far each sink has got with it.

  SHA-256 over canonical JSON is taken to be injective, so a digest is modelled
  by the value it was taken of.
 */
module Journal {
  import opened Wrappers

  const VOLATILE_PAYLOAD_KEYS: set<string> := {"received_at", "timestamp"}

  datatype Status = Pending | Done | Dropped | Skipped

  predicate Terminal(s: Status) {
    s != Pending
  }

  type Payload = map<string, string>

  datatype Message = Message(
    endpoint: string, stream: nat, fn: nat, ceid: nat, systemBytes: Option<nat>, payload: Payload)

  /** What the identity digest is taken of. */
  datatype Identity = Identity(
    endpoint: string, stream: nat, fn: nat, ceid: nat, systemBytes: Option<nat>, content: Payload)

  /** The unique key of one accepted occurrence. */
  datatype IngressKey =
    | First(identity: Identity)
    | Repeat(identity: Identity, generation: int, previous: nat, at: real)

  datatype Row = Row(
    identity: Identity, key: IngressKey, generation: int,
    receivedAt: real, lastReceivedAt: real,
    dispatch: Status, csv: Status, csvReason: Option<string>)

  /** The `ingress` table; `next` is the AUTOINCREMENT counter, never reused. */
  datatype Table = Table(rows: map<nat, Row>, next: nat)

  const EMPTY := Table(map[], 1)

  function ComputeIngressKey(m: Message): Identity {
    var content :=
      if m.systemBytes.None? then m.payload
      else map k | k in m.payload && k !in VOLATILE_PAYLOAD_KEYS :: m.payload[k];
    Identity(m.endpoint, m.stream, m.fn, m.ceid, m.systemBytes, content)
  }

  ghost predicate SameBody(a: Payload, b: Payload) {
    forall k :: k !in VOLATILE_PAYLOAD_KEYS ==>
      (k in a <==> k in b) && (k in a && k in b ==> a[k] == b[k])
  }

  /**
    A retransmission keeps its identity whatever the arrival stamps say; without
    system bytes the stamps are part of the identity, so two arrivals stay two.
   */
  lemma IdentityExactly(a: Message, b: Message)
    ensures ComputeIngressKey(a) == ComputeIngressKey(b) <==>
      && a.(payload := map[]) == b.(payload := map[])
      && (if a.systemBytes.Some? then SameBody(a.payload, b.payload) else a.payload == b.payload)
  {
    if a.systemBytes.Some? && b.systemBytes.Some? {
      var x, y := ComputeIngressKey(a).content, ComputeIngressKey(b).content;
      if x == y {
        forall k | k !in VOLATILE_PAYLOAD_KEYS
          ensures (k in a.payload <==> k in b.payload) && (k in a.payload && k in b.payload ==> a.payload[k] == b.payload[k])
        {
          assert k in x <==> k in a.payload;
          assert k in y <==> k in b.payload;
        }
      }
    }
  }

  // ---------- append ----------

  /** `SELECT ... WHERE identity_key=? ORDER BY seq DESC LIMIT 1`, looking below `n`. */
  function LatestBelow(rows: map<nat, Row>, identity: Identity, n: nat): (r: Option<nat>)
    ensures r.Some? ==> r.value < n && r.value in rows && rows[r.value].identity == identity
    ensures forall s :: s in rows && s < n && rows[s].identity == identity ==> r.Some? && s <= r.value
  {
    if n == 0 then None
    else if n - 1 in rows && rows[n - 1].identity == identity then Some(n - 1)
    else LatestBelow(rows, identity, n - 1)
  }

  /** The row holding a unique key, if any. */
  function RowWithKey(rows: map<nat, Row>, key: IngressKey, n: nat): (r: Option<nat>)
    ensures r.Some? ==> r.value in rows && rows[r.value].key == key
    ensures r.None? ==> forall s :: s in rows && s < n ==> rows[s].key != key
  {
    if n == 0 then None
    else if n - 1 in rows && rows[n - 1].key == key then Some(n - 1)
    else RowWithKey(rows, key, n - 1)
  }

  datatype Appended = Appended(table: Table, entry: nat, isNew: bool)

  function IsRetry(prev: Row, generation: int, now: real, window: real): bool {
    prev.generation == generation || now - prev.receivedAt <= window
  }

  function KeyFor(identity: Identity, prev: Option<nat>, generation: int, now: real): IngressKey {
    if prev.None? then First(identity) else Repeat(identity, generation, prev.value, now)
  }

  function Append(
    t: Table, window: real, identity: Identity, generation: int, now: real, csv: Status): Appended
  {
    var prev := LatestBelow(t.rows, identity, t.next);
    if prev.Some? && IsRetry(t.rows[prev.value], generation, now, window) then
      var s := prev.value;
      Appended(t.(rows := t.rows[s := t.rows[s].(lastReceivedAt := now)]), s, false)
    else
      var key := KeyFor(identity, prev, generation, now);
      var clash := RowWithKey(t.rows, key, t.next);
      if clash.Some? then Appended(t, clash.value, false)
      else
        var row := Row(identity, key, generation, now, now, Pending, csv, None);
        Appended(Table(t.rows[t.next := row], t.next + 1), t.next, true)
  }

  // ---------- completion marks and retention ----------

  function Clip(reason: string): string {
    if |reason| <= 1000 then reason else reason[..1000]
  }

  function SetCsv(t: Table, s: nat, status: Status, reason: Option<string>): Table {
    if s in t.rows then t.(rows := t.rows[s := t.rows[s].(csv := status, csvReason := reason)]) else t
  }

  function MarkCsvDone(t: Table, entries: seq<nat>): Table {
    if entries == [] then t
    else
      var n := |entries| - 1;
      SetCsv(MarkCsvDone(t, entries[..n]), entries[n], Done, None)
  }

  function MarkCsvDropped(t: Table, s: nat, reason: string): Table {
    SetCsv(t, s, Dropped, Some(Clip(reason)))
  }

  function MarkCsvSkipped(t: Table, s: nat): Table {
    if s in t.rows then SetCsv(t, s, Skipped, t.rows[s].csvReason) else t
  }

  /** The CSV sink raised: the reason is noted and the entry stays as it was. */
  function MarkCsvFailed(t: Table, s: nat, error: string): Table {
    if s in t.rows then SetCsv(t, s, t.rows[s].csv, Some(Clip(error))) else t
  }

  function SetDispatch(t: Table, s: nat, status: Status): Table {
    if s in t.rows then t.(rows := t.rows[s := t.rows[s].(dispatch := status)]) else t
  }

  predicate Purgeable(row: Row, cutoff: real) {
    Terminal(row.dispatch) && Terminal(row.csv) && row.receivedAt < cutoff
  }

  function PurgeOld(t: Table, cutoff: real): Table {
    t.(rows := map s | s in t.rows && !Purgeable(t.rows[s], cutoff) :: t.rows[s])
  }

  // ---------- whole runs ----------

  datatype Op =
    | Accept(identity: Identity, generation: int, now: real, csv: Status)
    | Mark(entry: nat, status: Status, reason: Option<string>)
    | Dispatched(entry: nat, status: Status)
    | Failed(entry: nat, error: string)
    | Purge(now: real)

  datatype Setup = Setup(window: real, retention: real)

  function Step(t: Table, cfg: Setup, op: Op): Table {
    match op
    case Accept(identity, generation, now, csv) => Append(t, cfg.window, identity, generation, now, csv).table
    case Mark(s, status, reason) => SetCsv(t, s, status, reason)
    case Dispatched(s, status) => SetDispatch(t, s, status)
    case Failed(s, error) => MarkCsvFailed(t, s, error)
    case Purge(now) => PurgeOld(t, now - cfg.retention)
  }

  function Run(t: Table, cfg: Setup, ops: seq<Op>): Table {
    if ops == [] then t else Step(Run(t, cfg, ops[..|ops| - 1]), cfg, ops[|ops| - 1])
  }

  /** The clock and every endpoint's connection generation never go back. */
  ghost predicate Orderly(ops: seq<Op>) {
    forall i, j :: 0 <= i < j < |ops| && ops[i].Accept? && ops[j].Accept? ==>
      && ops[i].now <= ops[j].now
      && (ops[i].identity.endpoint == ops[j].identity.endpoint ==> ops[i].generation <= ops[j].generation)
  }

  ghost predicate Accepted(row: Row, ops: seq<Op>) {
    exists i ::
      && 0 <= i < |ops|
      && ops[i].Accept?
      && ops[i].identity == row.identity
      && ops[i].generation == row.generation
      && ops[i].now == row.receivedAt
  }

  /** Every stored row comes from one of the accepts so far. */
  ghost predicate Sourced(t: Table, ops: seq<Op>) {
    forall s :: s in t.rows ==> Accepted(t.rows[s], ops)
  }

  /** Keys are unique, name their own row's identity, and a repeat names an older row. */
  ghost predicate Keyed(t: Table) {
    && (forall s :: s in t.rows ==> s < t.next && t.rows[s].key.identity == t.rows[s].identity)
    && (forall s :: s in t.rows && t.rows[s].key.Repeat? ==> t.rows[s].key.previous < s)
    && (forall a, b :: a in t.rows && b in t.rows && t.rows[a].key == t.rows[b].key ==> a == b)
  }

  /** Two rows of one identity are two occurrences, told apart by generation and by time. */
  ghost predicate Distinct(t: Table, window: real) {
    && (forall a, b :: a in t.rows && b in t.rows && a < b ==> t.rows[a].receivedAt <= t.rows[b].receivedAt)
    && (forall a, b :: a in t.rows && b in t.rows && a < b && t.rows[a].identity == t.rows[b].identity ==>
        && t.rows[a].generation < t.rows[b].generation
        && t.rows[b].receivedAt - t.rows[a].receivedAt > window)
  }

  /** The insert never meets the UNIQUE index, whatever the clock and the generations do. */
  lemma InsertNeverClashes(t: Table, identity: Identity, generation: int, now: real)
    requires Keyed(t)
    ensures var prev := LatestBelow(t.rows, identity, t.next);
      RowWithKey(t.rows, KeyFor(identity, prev, generation, now), t.next).None?
  {
  }

  lemma AppendKeepsKeyed(t: Table, window: real, identity: Identity, generation: int, now: real, csv: Status)
    requires Keyed(t)
    ensures Keyed(Append(t, window, identity, generation, now, csv).table)
  {
    InsertNeverClashes(t, identity, generation, now);
    var r := Append(t, window, identity, generation, now, csv);
    if r.isNew {
      assert forall s :: s in t.rows ==> t.rows[s].key != r.table.rows[t.next].key;
    }
  }

  lemma OthersKeepKeyed(t: Table, cfg: Setup, op: Op)
    requires !op.Accept? && Keyed(t)
    ensures Keyed(Step(t, cfg, op))
  {
    var u := Step(t, cfg, op);
    forall s | s in u.rows ensures s in t.rows && u.rows[s].key == t.rows[s].key && u.rows[s].identity == t.rows[s].identity {
    }
  }

  lemma {:induction false} KeyedOverRuns(cfg: Setup, ops: seq<Op>)
    ensures Keyed(Run(EMPTY, cfg, ops))
  {
    if ops != [] {
      hide Append, Keyed, PurgeOld, SetCsv, SetDispatch, MarkCsvFailed;
      var op := ops[|ops| - 1];
      var t := Run(EMPTY, cfg, ops[..|ops| - 1]);
      KeyedOverRuns(cfg, ops[..|ops| - 1]);
      if op.Accept? {
        AppendKeepsKeyed(t, cfg.window, op.identity, op.generation, op.now, op.csv);
      } else {
        OthersKeepKeyed(t, cfg, op);
      }
    }
  }

  lemma {:induction false} SourcedOverRuns(cfg: Setup, ops: seq<Op>)
    ensures Sourced(Run(EMPTY, cfg, ops), ops)
  {
    if ops != [] {
      var n := |ops| - 1;
      var t := Run(EMPTY, cfg, ops[..n]);
      var u := Run(EMPTY, cfg, ops);
      SourcedOverRuns(cfg, ops[..n]);
      forall s | s in u.rows
        ensures Accepted(u.rows[s], ops)
      {
        if s in t.rows {
          AcceptedBefore(t.rows[s], ops, n);
        } else {
          assert ops[n].Accept?;
        }
      }
    }
  }

  lemma AcceptedBefore(row: Row, ops: seq<Op>, n: nat)
    requires n <= |ops| && Accepted(row, ops[..n])
    ensures Accepted(row, ops)
    ensures Orderly(ops) && n < |ops| && ops[n].Accept? ==>
      && row.receivedAt <= ops[n].now
      && (row.identity.endpoint == ops[n].identity.endpoint ==> row.generation <= ops[n].generation)
  {
  }

  lemma EarlierAccepts(t: Table, ops: seq<Op>, n: nat)
    requires n < |ops| && ops[n].Accept? && Orderly(ops) && Sourced(t, ops[..n])
    ensures forall s :: s in t.rows ==>
      && t.rows[s].receivedAt <= ops[n].now
      && (t.rows[s].identity == ops[n].identity ==> t.rows[s].generation <= ops[n].generation)
  {
  }

  /** Marks and purging never touch what tells two rows apart. */
  lemma OthersKeepDistinct(t: Table, cfg: Setup, op: Op)
    requires !op.Accept? && Distinct(t, cfg.window)
    ensures Distinct(Step(t, cfg, op), cfg.window)
  {
    var u := Step(t, cfg, op);
    forall s | s in u.rows
      ensures s in t.rows && u.rows[s].(dispatch := Done, csv := Done, csvReason := None)
        == t.rows[s].(dispatch := Done, csv := Done, csvReason := None)
    {
    }
  }

  /**
    De-duplication over any orderly run, with marks and purging in between: two
    stored rows of one identity always differ in generation and lie more than
    the retry window apart.
   */
  lemma {:induction false} DeduplicationOverRuns(cfg: Setup, ops: seq<Op>)
    requires Orderly(ops)
    ensures Distinct(Run(EMPTY, cfg, ops), cfg.window)
  {
    hide Append, Keyed, Sourced, Accepted, Distinct, PurgeOld, SetCsv, SetDispatch, MarkCsvFailed;
    if ops == [] {
      NothingStored(cfg);
    } else {
      var n := |ops| - 1;
      var op := ops[n];
      var t := Run(EMPTY, cfg, ops[..n]);
      DeduplicationOverRuns(cfg, ops[..n]);
      if op.Accept? {
        KeyedOverRuns(cfg, ops[..n]);
        SourcedOverRuns(cfg, ops[..n]);
        EarlierAccepts(t, ops, n);
        AppendKeepsDistinct(t, cfg.window, op.identity, op.generation, op.now, op.csv);
      } else {
        OthersKeepDistinct(t, cfg, op);
      }
    }
  }

  lemma NothingStored(cfg: Setup)
    ensures Distinct(EMPTY, cfg.window)
  {
  }

  lemma RefreshKeepsDistinct(t: Table, window: real, s: nat, now: real)
    requires Distinct(t, window) && s in t.rows
    ensures Distinct(t.(rows := t.rows[s := t.rows[s].(lastReceivedAt := now)]), window)
  {
  }

  lemma InsertKeepsDistinct(t: Table, window: real, row: Row)
    requires Distinct(t, window)
    requires forall s :: s in t.rows ==>
      && s < t.next && t.rows[s].receivedAt <= row.receivedAt
      && (t.rows[s].identity == row.identity ==>
          t.rows[s].generation < row.generation && row.receivedAt - t.rows[s].receivedAt > window)
    ensures Distinct(Table(t.rows[t.next := row], t.next + 1), window)
  {
  }

  lemma AppendKeepsDistinct(
    t: Table, window: real, identity: Identity, generation: int, now: real, csv: Status)
    requires Distinct(t, window) && Keyed(t)
    requires forall s :: s in t.rows ==>
      && t.rows[s].receivedAt <= now
      && (t.rows[s].identity == identity ==> t.rows[s].generation <= generation)
    ensures Distinct(Append(t, window, identity, generation, now, csv).table, window)
  {
    var prev := LatestBelow(t.rows, identity, t.next);
    var key := KeyFor(identity, prev, generation, now);
    InsertNeverClashes(t, identity, generation, now);
    if prev.Some? && IsRetry(t.rows[prev.value], generation, now, window) {
      RefreshKeepsDistinct(t, window, prev.value, now);
    } else {
      var row := Row(identity, key, generation, now, now, Pending, csv, None);
      forall s | s in t.rows && t.rows[s].identity == identity
        ensures t.rows[s].generation < generation && now - t.rows[s].receivedAt > window
      {
        assert s <= prev.value;
      }
      InsertKeepsDistinct(t, window, row);
    }
    hide Distinct, Keyed, RowWithKey, LatestBelow, KeyFor;
  }

  ghost predicate IsLatest(t: Table, identity: Identity, s: nat) {
    && s in t.rows
    && t.rows[s].identity == identity
    && forall u :: u in t.rows && t.rows[u].identity == identity ==> u <= s
  }

  /** Of the same connection generation, or within the window of its own arrival. */
  predicate Retransmits(row: Row, generation: int, now: real, window: real) {
    generation == row.generation || now <= row.receivedAt + window
  }

  /**
    What an append answers and leaves. It is a retry exactly when the latest row of the
    identity is of the same generation or within the window, and then only that row's
    last arrival is moved. Otherwise a row is added under a key no stored row has, with
    both arrivals now, nothing dispatched yet and the csv status asked for.
   */
  ghost predicate Answers(
    t: Table, window: real, identity: Identity, generation: int, now: real, csv: Status, r: Appended)
  {
    && (r.isNew <==> forall s :: IsLatest(t, identity, s) ==> !Retransmits(t.rows[s], generation, now, window))
    && (r.isNew ==>
        && r.entry == t.next && r.table.next == t.next + 1
        && exists key ::
            && r.table.rows == t.rows[t.next := Row(identity, key, generation, now, now, Pending, csv, None)]
            && forall s :: s in t.rows ==> t.rows[s].key != key)
    && (!r.isNew ==>
        && IsLatest(t, identity, r.entry)
        && r.table == t.(rows := t.rows[r.entry := t.rows[r.entry].(lastReceivedAt := now)]))
  }

  lemma AppendAnswers(t: Table, window: real, identity: Identity, generation: int, now: real, csv: Status)
    requires Keyed(t)
    ensures Answers(t, window, identity, generation, now, csv, Append(t, window, identity, generation, now, csv))
  {
    var r := Append(t, window, identity, generation, now, csv);
    var prev := LatestBelow(t.rows, identity, t.next);
    InsertNeverClashes(t, identity, generation, now);
    if r.isNew {
      var key := KeyFor(identity, prev, generation, now);
      assert r.table.rows == t.rows[t.next := Row(identity, key, generation, now, now, Pending, csv, None)];
    }
  }

  // ---------- what becomes of a row ----------

  /** Operation `i` of the run stored the row under this number. */
  predicate Created(cfg: Setup, ops: seq<Op>, i: nat, s: nat) {
    && i < |ops| && ops[i].Accept?
    && var a := Append(Run(EMPTY, cfg, ops[..i]), cfg.window, ops[i].identity, ops[i].generation, ops[i].now, ops[i].csv);
      a.isNew && a.entry == s
  }

  datatype Story = Story(dispatch: Status, csv: Status, reason: Option<string>)

  /** What these operations say of entry `s`, stored with this csv status: the last of each kind that names it. */
  function Told(ops: seq<Op>, s: nat, csv: Status): Story {
    if ops == [] then Story(Pending, csv, None)
    else
      var before := Told(ops[..|ops| - 1], s, csv);
      match ops[|ops| - 1]
      case Dispatched(e, status) => if e == s then before.(dispatch := status) else before
      case Mark(e, status, reason) => if e == s then before.(csv := status, reason := reason) else before
      case Failed(e, error) => if e == s then before.(reason := Some(Clip(error))) else before
      case _ => before
  }

  /** At `j` a purge found the entry finished for both sinks and older than the retention. */
  predicate PurgedAt(cfg: Setup, ops: seq<Op>, i: nat, j: nat, s: nat) {
    && i < j < |ops| && ops[i].Accept? && ops[j].Purge?
    && Told(ops[i + 1..j], s, ops[i].csv).dispatch != Pending
    && Told(ops[i + 1..j], s, ops[i].csv).csv != Pending
    && ops[i].now < ops[j].now - cfg.retention
  }

  ghost predicate Purged(cfg: Setup, ops: seq<Op>, i: nat, s: nat) {
    exists j: nat :: PurgedAt(cfg, ops, i, j, s)
  }

  /** The row is as it was accepted, with what was said of it since. */
  predicate Tells(row: Row, accept: Op, story: Story)
    requires accept.Accept?
  {
    && row.identity == accept.identity && row.generation == accept.generation && row.receivedAt == accept.now
    && row.dispatch == story.dispatch && row.csv == story.csv && row.csvReason == story.reason
  }

  /** The state of the table, for one entry that operation `i` stored. */
  ghost predicate Follows(t: Table, cfg: Setup, ops: seq<Op>, i: nat, s: nat)
    requires i < |ops| && ops[i].Accept?
  {
    && s < t.next
    && (s in t.rows <==> !Purged(cfg, ops, i, s))
    && (s in t.rows ==> Tells(t.rows[s], ops[i], Told(ops[i + 1..], s, ops[i].csv)))
  }

  lemma PurgedSnoc(cfg: Setup, ops: seq<Op>, i: nat, s: nat)
    requires i < |ops| - 1
    ensures Purged(cfg, ops, i, s) <==> Purged(cfg, ops[..|ops| - 1], i, s) || PurgedAt(cfg, ops, i, |ops| - 1, s)
  {
    hide Told;
    var n := |ops| - 1;
    forall j: nat | j < n ensures PurgedAt(cfg, ops, i, j, s) <==> PurgedAt(cfg, ops[..n], i, j, s) {
      if i < j {
        assert ops[..n][i + 1..j] == ops[i + 1..j];
      }
    }
  }

  /** One operation changes an entry as the story says, and nothing else does. */
  lemma StepFollows(t: Table, cfg: Setup, ops: seq<Op>, i: nat, s: nat)
    requires i < |ops| - 1 && ops[i].Accept? && Keyed(t)
    requires Follows(t, cfg, ops[..|ops| - 1], i, s)
    ensures Follows(Step(t, cfg, ops[|ops| - 1]), cfg, ops, i, s)
  {
    hide Keyed, LatestBelow, Purged, KeyFor, RowWithKey;
    var n := |ops| - 1;
    PurgedSnoc(cfg, ops, i, s);
    assert ops[i + 1..][..|ops[i + 1..]| - 1] == ops[..n][i + 1..];
    assert ops[..n][i + 1..] == ops[i + 1..n];
    if ops[n].Accept? {
      InsertNeverClashes(t, ops[n].identity, ops[n].generation, ops[n].now);
    }
  }

  lemma CreatedFollows(cfg: Setup, ops: seq<Op>, i: nat, s: nat)
    requires i == |ops| - 1 && Created(cfg, ops, i, s)
    ensures Follows(Run(EMPTY, cfg, ops), cfg, ops, i, s)
  {
    hide LatestBelow, KeyFor, RowWithKey;
    KeyedOverRuns(cfg, ops[..i]);
    assert ops[i + 1..] == [];
  }

  /**
    Over any run an entry stays stored exactly until a purge finds it finished for both
    sinks and past retention. While it is stored it is what was accepted, not dispatched
    unless it was said to be, with the csv status of its accept or of its last mark.
   */
  lemma {:induction false} StoryOverRuns(cfg: Setup, ops: seq<Op>, i: nat, s: nat)
    requires Created(cfg, ops, i, s)
    ensures Follows(Run(EMPTY, cfg, ops), cfg, ops, i, s)
  {
    hide Follows, Append, Step;
    var n := |ops| - 1;
    if i == n {
      CreatedFollows(cfg, ops, i, s);
    } else {
      assert ops[..n][..i] == ops[..i];
      StoryOverRuns(cfg, ops[..n], i, s);
      KeyedOverRuns(cfg, ops[..n]);
      StepFollows(Run(EMPTY, cfg, ops[..n]), cfg, ops, i, s);
    }
  }

  /** Every stored row was stored by an accept of the run. */
  lemma {:induction false} StoredIsCreated(cfg: Setup, ops: seq<Op>, s: nat)
    requires s in Run(EMPTY, cfg, ops).rows
    ensures exists i: nat :: Created(cfg, ops, i, s)
  {
    hide LatestBelow, KeyFor, RowWithKey;
    var n := |ops| - 1;
    if s in Run(EMPTY, cfg, ops[..n]).rows {
      StoredIsCreated(cfg, ops[..n], s);
      var i: nat :| Created(cfg, ops[..n], i, s);
      assert ops[..n][..i] == ops[..i];
      assert Created(cfg, ops, i, s);
    } else {
      assert Created(cfg, ops, n, s);
    }
  }

  lemma {:induction false} ToldByOperations(ops: seq<Op>, s: nat, csv: Status)
    ensures var story := Told(ops, s, csv);
      && (story.dispatch != Pending ==> Dispatched(s, story.dispatch) in ops)
      && (story.csv != csv ==> exists reason :: Mark(s, story.csv, reason) in ops)
  {
    if ops != [] {
      var n := |ops| - 1;
      ToldByOperations(ops[..n], s, csv);
      assert ops == ops[..n] + [ops[n]];
      if ops[n].Mark? {
        assert Mark(ops[n].entry, ops[n].status, ops[n].reason) in ops;
      }
    }
  }

  /** So a stored entry is called dispatched only if an operation since its accept said so, and likewise its csv status. */
  lemma FinishedForAReason(cfg: Setup, ops: seq<Op>, i: nat, s: nat)
    requires Created(cfg, ops, i, s) && s in Run(EMPTY, cfg, ops).rows
    ensures var row := Run(EMPTY, cfg, ops).rows[s];
      && (row.dispatch != Pending ==> Dispatched(s, row.dispatch) in ops[i + 1..])
      && (row.csv != ops[i].csv ==> exists reason :: Mark(s, row.csv, reason) in ops[i + 1..])
  {
    hide Run, Told;
    StoryOverRuns(cfg, ops, i, s);
    ToldByOperations(ops[i + 1..], s, ops[i].csv);
  }

  // ---------- the table as an object ----------

  /** `IngressJournal`: one table, changed statement by statement inside transactions. */
  class IngressJournal {
    var rows: map<nat, Row>
    var nextSeq: nat
    const cfg: Setup

    constructor (cfg: Setup)
      ensures Abs() == EMPTY && this.cfg == cfg
    {
      this.cfg := cfg;
      rows, nextSeq := map[], 1;
    }

    function Abs(): Table
      reads this
    {
      Table(rows, nextSeq)
    }

    /** One transaction: look for the latest occurrence, then refresh it or insert a new one. */
    method Accept(m: Message, generation: int, now: real, csv: Status) returns (entry: nat, isNew: bool)
      modifies this
      ensures Appended(Abs(), entry, isNew)
        == Append(old(Abs()), cfg.window, ComputeIngressKey(m), generation, now, csv)
      ensures Keyed(old(Abs())) ==>
        && Keyed(Abs())
        && Answers(old(Abs()), cfg.window, ComputeIngressKey(m), generation, now, csv, Appended(Abs(), entry, isNew))
    {
      hide Keyed, Answers;
      if Keyed(Abs()) {
        AppendAnswers(Abs(), cfg.window, ComputeIngressKey(m), generation, now, csv);
        AppendKeepsKeyed(Abs(), cfg.window, ComputeIngressKey(m), generation, now, csv);
      }
      var identity := ComputeIngressKey(m);
      var previous := LatestBelow(rows, identity, nextSeq);
      if previous.Some? {
        var p := rows[previous.value];
        var sameGeneration := p.generation == generation;
        var insideWindow := now - p.receivedAt <= cfg.window;
        if sameGeneration || insideWindow {
          rows := rows[previous.value := p.(lastReceivedAt := now)];
          return previous.value, false;
        }
      }
      var key := KeyFor(identity, previous, generation, now);
      var existing := RowWithKey(rows, key, nextSeq);
      if existing.Some? {
        return existing.value, false;
      }
      rows := rows[nextSeq := Row(identity, key, generation, now, now, Pending, csv, None)];
      nextSeq := nextSeq + 1;
      return nextSeq - 1, true;
    }

    method MarkDone(entries: seq<nat>)
      modifies this`rows
      ensures Abs() == MarkCsvDone(old(Abs()), entries)
    {
      var i := 0;
      while i < |entries|
        invariant i <= |entries|
        invariant Abs() == MarkCsvDone(old(Abs()), entries[..i])
      {
        assert entries[..i + 1][..i] == entries[..i];
        if entries[i] in rows {
          rows := rows[entries[i] := rows[entries[i]].(csv := Done, csvReason := None)];
        }
        i := i + 1;
      }
      assert entries[..|entries|] == entries;
    }

    /** Every listed row, and no other, becomes csv-dropped with the reason cut to its column. */
    method MarkDropped(entries: seq<nat>, reason: string)
      modifies this`rows
      ensures rows.Keys == old(rows).Keys
      ensures forall s :: s in rows ==>
        if s in entries then
          && rows[s] == old(rows)[s].(csv := Dropped, csvReason := rows[s].csvReason)
          && rows[s].csvReason.Some? && rows[s].csvReason.value <= reason
          && |rows[s].csvReason.value| == (if |reason| <= 1000 then |reason| else 1000)
        else rows[s] == old(rows)[s]
      ensures forall s: nat :: entries == [s] ==> Abs() == MarkCsvDropped(old(Abs()), s, reason)
    {
      var i := 0;
      while i < |entries|
        invariant i <= |entries| && rows.Keys == old(rows).Keys
        invariant forall s :: s in rows ==>
          rows[s] ==
            if s in entries[..i] then old(rows)[s].(csv := Dropped, csvReason := Some(Clip(reason)))
            else old(rows)[s]
      {
        assert entries[..i + 1] == entries[..i] + [entries[i]];
        if entries[i] in rows {
          rows := rows[entries[i] := rows[entries[i]].(csv := Dropped, csvReason := Some(Clip(reason)))];
        }
        i := i + 1;
      }
      assert entries[..|entries|] == entries;
    }

    method Purge(now: real)
      modifies this`rows
      ensures Abs() == PurgeOld(old(Abs()), now - cfg.retention)
      ensures forall s :: s in rows <==>
        && s in old(rows)
        && (old(rows)[s].dispatch == Pending || old(rows)[s].csv == Pending
            || old(rows)[s].receivedAt >= now - cfg.retention)
      ensures forall s :: s in rows ==> rows[s] == old(rows)[s]
    {
      var cutoff := now - cfg.retention;
      rows := map s | s in rows && !Purgeable(rows[s], cutoff) :: rows[s];
    }
  }
}
