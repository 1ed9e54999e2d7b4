/**
  The durable outbox of eap_middleware/outbox.py: one table of rows in id order,
  with at most one row per key, bounded pending rows per partition, retry
  accounting, dead letters and retention.
 */
module Outbox {
  import opened Powers
  import opened Wrappers

  datatype Status = Pending | Sent | Dead

  datatype Row = Row(
    id: nat, key: string, partition: string, status: Status, attempts: nat,
    availableAt: real, sentAt: Option<real>)

  /** `rows` is in id order; `next` is the AUTOINCREMENT counter. */
  datatype Table = Table(rows: seq<Row>, next: nat)

  const EMPTY := Table([], 1)

  datatype Item = Item(id: nat, partition: string)

  // ---------- enqueue ----------

  predicate HasKey(rows: seq<Row>, key: string) {
    exists i :: 0 <= i < |rows| && rows[i].key == key
  }

  function CountPending(rows: seq<Row>, partition: string): nat {
    if rows == [] then 0
    else
      var r := rows[|rows| - 1];
      CountPending(rows[..|rows| - 1], partition) + (if r.partition == partition && r.status == Pending then 1 else 0)
  }

  datatype Enqueued = Enqueued(table: Table, full: bool)

  function Enqueue(t: Table, cap: nat, key: string, partition: string, now: real): Enqueued {
    if HasKey(t.rows, key) then Enqueued(t, false)
    else if CountPending(t.rows, partition) >= cap then Enqueued(t, true)
    else
      Enqueued(Table(t.rows + [Row(t.next, key, partition, Pending, 0, now, None)], t.next + 1), false)
  }

  // ---------- reading ----------

  /** The oldest unresolved row of its partition, whether or not it is due. */
  predicate IsHead(rows: seq<Row>, i: nat)
    requires i < |rows|
  {
    && rows[i].status == Pending
    && forall j :: 0 <= j < i && rows[j].partition == rows[i].partition ==> rows[j].status != Pending
  }

  predicate Due(rows: seq<Row>, now: real, headsOnly: bool, i: nat)
    requires i < |rows|
  {
    rows[i].status == Pending && rows[i].availableAt <= now && (headsOnly ==> IsHead(rows, i))
  }

  /** Positions of the due rows among the first n, oldest first. */
  function Select(rows: seq<Row>, now: real, headsOnly: bool, n: nat): (found: seq<nat>)
    requires n <= |rows|
    ensures forall k :: 0 <= k < |found| ==> found[k] < n
  {
    if n == 0 then []
    else Select(rows, now, headsOnly, n - 1) + (if Due(rows, now, headsOnly, n - 1) then [n - 1] else [])
  }

  function ItemAt(rows: seq<Row>, i: nat): Item
    requires i < |rows|
  {
    Item(rows[i].id, rows[i].partition)
  }

  function PendingItems(t: Table, limit: nat, now: real, headsOnly: bool): seq<Item> {
    var all := Select(t.rows, now, headsOnly, |t.rows|);
    seq(Min(|all|, limit), k requires 0 <= k < |all| => ItemAt(t.rows, all[k]))
  }

  function PendingHeads(t: Table, limit: nat, now: real): seq<Item> {
    PendingItems(t, limit, now, true)
  }

  // ---------- marks ----------

  function SentRow(r: Row, now: real): Row {
    r.(status := Sent, sentAt := Some(now))
  }

  function DeadRow(r: Row, now: real): Row {
    r.(status := Dead, sentAt := Some(now))
  }

  function Min(a: nat, b: nat): nat {
    if a <= b then a else b
  }

  /** Seconds before the next attempt, after this many failures. */
  function Backoff(attempts: nat): nat {
    Min(300, Pow2(Min(attempts, 9)))
  }

  function FailedRow(r: Row, now: real): Row {
    r.(attempts := r.attempts + 1, availableAt := now + Backoff(r.attempts + 1) as real)
  }

  function MarkSent(t: Table, id: nat, now: real): Table {
    t.(rows := seq(|t.rows|, i requires 0 <= i < |t.rows| =>
      if t.rows[i].id == id then SentRow(t.rows[i], now) else t.rows[i]))
  }

  function MarkFailed(t: Table, id: nat, now: real): Table {
    t.(rows := seq(|t.rows|, i requires 0 <= i < |t.rows| =>
      if t.rows[i].id == id then FailedRow(t.rows[i], now) else t.rows[i]))
  }

  function MarkDead(t: Table, id: nat, now: real): Table {
    t.(rows := seq(|t.rows|, i requires 0 <= i < |t.rows| =>
      if t.rows[i].id == id then DeadRow(t.rows[i], now) else t.rows[i]))
  }

  function Attempts(rows: seq<Row>, id: nat): nat {
    if rows == [] then 0
    else if rows[|rows| - 1].id == id then rows[|rows| - 1].attempts
    else Attempts(rows[..|rows| - 1], id)
  }

  // ---------- maintenance ----------

  predicate Expired(r: Row, cutoff: real) {
    r.status != Pending && r.sentAt.Some? && r.sentAt.value < cutoff
  }

  function Keep(rows: seq<Row>, cutoff: real): seq<Row> {
    if rows == [] then []
    else
      var r := rows[|rows| - 1];
      Keep(rows[..|rows| - 1], cutoff) + (if Expired(r, cutoff) then [] else [r])
  }

  function PurgeOld(t: Table, cutoff: real): Table {
    t.(rows := Keep(t.rows, cutoff))
  }

  /** The oldest `limit` dead rows become pending again. */
  function Requeue(rows: seq<Row>, limit: nat, now: real): (u: seq<Row>)
    ensures |u| == |rows|
  {
    if rows == [] || limit == 0 then rows
    else if rows[0].status == Dead then
      [rows[0].(status := Pending, availableAt := now, sentAt := None)] + Requeue(rows[1..], limit - 1, now)
    else
      [rows[0]] + Requeue(rows[1..], limit, now)
  }

  // ---------- backoff ----------

  /** The delay never shrinks from one failure to the next, and the cap of 300 seconds binds. */
  lemma BackoffGrows(a: nat, b: nat)
    requires a <= b
    ensures 1 <= Backoff(a) <= Backoff(b) <= 300
    ensures b >= 9 ==> Backoff(b) == 300
  {
    Pow2Grows(Min(a, 9), Min(b, 9));
    assert Pow2(9) == 512 by {
      assert Pow2(3) == 8;
      assert Pow2(6) == 8 * Pow2(3);
      assert Pow2(9) == 8 * Pow2(6);
    }
  }

  /** It is one second at first, doubles with each failure, and is cut at the cap. */
  lemma BackoffDoubles(attempts: nat)
    ensures Backoff(0) == 1
    ensures Backoff(attempts + 1) == if 2 * Backoff(attempts) > 300 then 300 else 2 * Backoff(attempts)
  {
    if attempts >= 8 {
      BackoffGrows(attempts, attempts + 1);
      assert Pow2(8) == 256 by {
        assert Pow2(4) == 16;
        assert Pow2(8) == 16 * Pow2(4);
      }
    } else {
      BackoffGrows(attempts, 8);
    }
  }

  // ---------- the table invariant ----------

  ghost predicate Sorted(t: Table) {
    && (forall i :: 0 <= i < |t.rows| ==> t.rows[i].id < t.next)
    && (forall i, j :: 0 <= i < j < |t.rows| ==> t.rows[i].id < t.rows[j].id)
  }

  ghost predicate UniqueKeys(t: Table) {
    forall i, j :: 0 <= i < j < |t.rows| ==> t.rows[i].key != t.rows[j].key
  }

  ghost predicate DeadEarned(t: Table) {
    forall i :: 0 <= i < |t.rows| && t.rows[i].status == Dead ==> t.rows[i].attempts >= 5
  }

  ghost predicate WithinCap(t: Table, cap: nat) {
    forall p :: CountPending(t.rows, p) <= cap
  }

  ghost predicate StillPending(t: Table, it: Item) {
    exists i :: 0 <= i < |t.rows| && ItemAt(t.rows, i) == it && t.rows[i].status == Pending
  }

  /** The table still has the row, pending, and no older row of its partition is pending. */
  ghost predicate HeadItem(t: Table, it: Item) {
    StillPending(t, it) && NoOlderPending(t, it)
  }

  ghost predicate NoOlderPending(t: Table, it: Item) {
    forall i :: 0 <= i < |t.rows| && t.rows[i].partition == it.partition && t.rows[i].id < it.id ==>
      t.rows[i].status != Pending
  }

  ghost predicate OnePerPartition(items: seq<Item>) {
    forall i, j :: 0 <= i < j < |items| ==> items[i].partition != items[j].partition
  }

  ghost predicate ExactlyTheDue(rows: seq<Row>, now: real, headsOnly: bool, n: nat, found: seq<nat>)
    requires n <= |rows|
  {
    && (forall k :: 0 <= k < |found| ==> found[k] < n && Due(rows, now, headsOnly, found[k]))
    && (forall k, l :: 0 <= k < l < |found| ==> found[k] < found[l])
    && (forall i :: 0 <= i < n && Due(rows, now, headsOnly, i) ==> i in found)
  }

  /** What is selected is exactly the due rows, in table order. */
  lemma {:induction false} SelectExactly(rows: seq<Row>, now: real, headsOnly: bool, n: nat)
    requires n <= |rows|
    ensures ExactlyTheDue(rows, now, headsOnly, n, Select(rows, now, headsOnly, n))
  {
    hide ExactlyTheDue, Due;
    if n == 0 {
      NoneDue(rows, now, headsOnly);
    } else {
      SelectExactly(rows, now, headsOnly, n - 1);
      OneMoreDue(rows, now, headsOnly, n - 1, Select(rows, now, headsOnly, n - 1));
    }
  }

  lemma NoneDue(rows: seq<Row>, now: real, headsOnly: bool)
    ensures ExactlyTheDue(rows, now, headsOnly, 0, [])
  {
  }

  lemma OneMoreDue(rows: seq<Row>, now: real, headsOnly: bool, n: nat, found: seq<nat>)
    requires n < |rows| && ExactlyTheDue(rows, now, headsOnly, n, found)
    ensures ExactlyTheDue(rows, now, headsOnly, n + 1, found + (if Due(rows, now, headsOnly, n) then [n] else []))
  {
  }

  lemma HeadIsHeadItem(t: Table, i: nat)
    requires Sorted(t) && i < |t.rows| && IsHead(t.rows, i)
    ensures HeadItem(t, ItemAt(t.rows, i))
  {
  }

  /** A fetched batch holds heads only, oldest first, never two of one partition. */
  lemma BatchOfHeads(t: Table, limit: nat, now: real)
    requires Sorted(t)
    ensures var items := PendingHeads(t, limit, now);
      && |items| <= limit
      && OnePerPartition(items)
      && (forall k :: 0 <= k < |items| ==> HeadItem(t, items[k]))
      && (forall k, l :: 0 <= k < l < |items| ==> items[k].id < items[l].id)
  {
    hide HeadItem;
    var all := Select(t.rows, now, true, |t.rows|);
    SelectExactly(t.rows, now, true, |t.rows|);
    var items := PendingHeads(t, limit, now);
    forall k | 0 <= k < |items| ensures HeadItem(t, items[k]) {
      HeadIsHeadItem(t, all[k]);
    }
    forall k, l | 0 <= k < l < |items| ensures items[k].partition != items[l].partition && items[k].id < items[l].id {
      assert Due(t.rows, now, true, all[k]) && IsHead(t.rows, all[l]);
    }
  }

  /** Every partition whose head is due is in the batch, unless the limit was reached with older heads. */
  lemma EveryDueHeadIsFetched(t: Table, limit: nat, now: real, i: nat)
    requires Sorted(t) && i < |t.rows| && IsHead(t.rows, i) && t.rows[i].availableAt <= now
    ensures var items := PendingHeads(t, limit, now);
      || ItemAt(t.rows, i) in items
      || (|items| == limit && forall k :: 0 <= k < |items| ==> items[k].id < t.rows[i].id)
  {
    var all := Select(t.rows, now, true, |t.rows|);
    SelectExactly(t.rows, now, true, |t.rows|);
    assert Due(t.rows, now, true, i);
    var k :| 0 <= k < |all| && all[k] == i;
    if k < limit {
      assert PendingHeads(t, limit, now)[k] == ItemAt(t.rows, i);
    }
  }

  /**
    A failed head is not fetched again before its delay is over, and once it is over
    it is fetched again, unless the limit cuts the batch short.
   */
  lemma RetryWaitsItsDelay(t: Table, i: nat, now: real, limit: nat, later: real)
    requires Sorted(t) && i < |t.rows| && IsHead(t.rows, i)
    ensures var u := MarkFailed(t, t.rows[i].id, now);
      var it := ItemAt(t.rows, i);
      var items := PendingHeads(u, limit, later);
      var due := now + Backoff(t.rows[i].attempts + 1) as real;
      && (later < due ==> it !in items)
      && (later >= due ==> it in items || |items| == limit)
  {
    hide Backoff;
    var u := MarkFailed(t, t.rows[i].id, now);
    var items := PendingHeads(u, limit, later);
    assert ItemAt(u.rows, i) == ItemAt(t.rows, i);
    if later >= now + Backoff(t.rows[i].attempts + 1) as real {
      assert IsHead(u.rows, i);
      EveryDueHeadIsFetched(u, limit, later, i);
    } else {
      SelectExactly(u.rows, later, true, |u.rows|);
      forall k | 0 <= k < |items| ensures items[k] != ItemAt(t.rows, i) {
        assert Due(u.rows, later, true, Select(u.rows, later, true, |u.rows|)[k]);
      }
    }
  }

  // ---------- what the operations keep ----------

  ghost predicate Sound(t: Table) {
    Sorted(t) && UniqueKeys(t) && DeadEarned(t)
  }

  lemma {:induction false} CountSnoc(rows: seq<Row>, r: Row, p: string)
    ensures CountPending(rows + [r], p)
      == CountPending(rows, p) + (if r.partition == p && r.status == Pending then 1 else 0)
  {
  }

  lemma EnqueueKeeps(t: Table, cap: nat, key: string, partition: string, now: real)
    requires Sound(t)
    ensures Sound(Enqueue(t, cap, key, partition, now).table)
  {
    hide CountPending;
    var rows := Enqueue(t, cap, key, partition, now).table.rows;
    forall i, j | 0 <= i < j < |rows| ensures rows[i].id < rows[j].id && rows[i].key != rows[j].key {
      if j == |t.rows| {
        assert rows[i] == t.rows[i];
      }
    }
  }

  /** The cap binds: a full partition refuses, and an accepted key is in the table afterwards. */
  lemma EnqueueBounds(t: Table, cap: nat, key: string, partition: string, now: real)
    requires WithinCap(t, cap)
    ensures var e := Enqueue(t, cap, key, partition, now);
      && WithinCap(e.table, cap)
      && t.rows <= e.table.rows
      && (e.full <==> !HasKey(t.rows, key) && CountPending(t.rows, partition) == cap)
      && (e.full ==> e.table == t)
      && (!e.full ==> HasKey(e.table.rows, key))
  {
    hide CountPending;
    var e := Enqueue(t, cap, key, partition, now);
    if e.table != t {
      var r := Row(t.next, key, partition, Pending, 0, now, None);
      assert e.table.rows == t.rows + [r] && e.table.rows[|t.rows|] == r;
      forall p ensures CountPending(e.table.rows, p) <= cap {
        CountSnoc(t.rows, r, p);
      }
    }
  }

  /** A new key is stored last, pending, with no failure, and the first of its partition is fetched at once. */
  lemma NewRowIsDue(t: Table, cap: nat, key: string, partition: string, now: real, limit: nat)
    requires Sorted(t) && !HasKey(t.rows, key) && CountPending(t.rows, partition) < cap
    ensures var u := Enqueue(t, cap, key, partition, now).table;
      var row := Row(t.next, key, partition, Pending, 0, now, None);
      && u == Table(t.rows + [row], t.next + 1)
      && (CountPending(t.rows, partition) == 0 ==>
            var items := PendingHeads(u, limit, now);
            ItemAt(u.rows, |t.rows|) in items || |items| == limit)
  {
    var u := Enqueue(t, cap, key, partition, now).table;
    if CountPending(t.rows, partition) == 0 {
      NonePending(t.rows, partition);
      assert IsHead(u.rows, |t.rows|);
      EveryDueHeadIsFetched(u, limit, now, |t.rows|);
    }
  }

  lemma {:induction false} NonePending(rows: seq<Row>, partition: string)
    requires CountPending(rows, partition) == 0
    ensures forall i :: 0 <= i < |rows| && rows[i].partition == partition ==> rows[i].status != Pending
  {
    if rows != [] {
      var n := |rows| - 1;
      NonePending(rows[..n], partition);
      assert forall i :: 0 <= i < n ==> rows[..n][i] == rows[i];
    }
  }

  /** One row at most changes, keeping its identity, and no row becomes pending. */
  ghost predicate Marked(t: Table, u: Table, id: nat) {
    && u.next == t.next && |u.rows| == |t.rows|
    && forall i :: 0 <= i < |t.rows| ==>
        && u.rows[i].id == t.rows[i].id && u.rows[i].key == t.rows[i].key
        && u.rows[i].partition == t.rows[i].partition
        && (u.rows[i].status == Pending ==> t.rows[i].status == Pending)
        && (t.rows[i].id != id ==> u.rows[i] == t.rows[i])
  }

  lemma {:induction false} MarkedCounts(a: seq<Row>, b: seq<Row>, p: string)
    requires |a| == |b|
    requires forall i :: 0 <= i < |a| ==>
      b[i].partition == a[i].partition && (b[i].status == Pending ==> a[i].status == Pending)
    ensures CountPending(b, p) <= CountPending(a, p)
  {
    if a != [] {
      MarkedCounts(a[..|a| - 1], b[..|b| - 1], p);
    }
  }

  lemma MarkedKeeps(t: Table, u: Table, id: nat, cap: nat)
    requires Marked(t, u, id)
    ensures Sorted(t) ==> Sorted(u)
    ensures UniqueKeys(t) ==> UniqueKeys(u)
    ensures WithinCap(t, cap) ==> WithinCap(u, cap)
  {
    if WithinCap(t, cap) {
      forall p ensures CountPending(u.rows, p) <= cap {
        MarkedCounts(t.rows, u.rows, p);
      }
    }
  }

  lemma {:induction false} KeepMembers(rows: seq<Row>, cutoff: real, r: Row)
    ensures r in Keep(rows, cutoff) <==> r in rows && !Expired(r, cutoff)
  {
    if rows != [] {
      var n := |rows| - 1;
      KeepMembers(rows[..n], cutoff, r);
      assert rows == rows[..n] + [rows[n]];
    }
  }

  lemma {:induction false} KeepCounts(rows: seq<Row>, cutoff: real, p: string)
    ensures CountPending(Keep(rows, cutoff), p) == CountPending(rows, p)
  {
    if rows != [] {
      var n := |rows| - 1;
      KeepCounts(rows[..n], cutoff, p);
      CountSnoc(Keep(rows[..n], cutoff), rows[n], p);
      assert Keep(rows[..n], cutoff) + [] == Keep(rows[..n], cutoff);
    }
  }

  ghost predicate Ordered(rows: seq<Row>) {
    forall i, j :: 0 <= i < j < |rows| ==> rows[i].id < rows[j].id && rows[i].key != rows[j].key
  }

  lemma {:induction false} KeepOrdered(rows: seq<Row>, cutoff: real)
    requires Ordered(rows)
    ensures Ordered(Keep(rows, cutoff))
  {
    if rows != [] {
      var n := |rows| - 1;
      KeepOrdered(rows[..n], cutoff);
      var k := Keep(rows[..n], cutoff);
      forall i | 0 <= i < |k| ensures k[i].id < rows[n].id && k[i].key != rows[n].key {
        KeepMembers(rows[..n], cutoff, k[i]);
      }
    }
  }

  /** Pending, never resolved, or resolved no earlier than the cutoff. */
  predicate Retained(r: Row, cutoff: real) {
    r.status == Pending || r.sentAt.None? || r.sentAt.value >= cutoff
  }

  /** Retention removes exactly the rows resolved before the cutoff; a pending row is never deleted. */
  lemma PurgeKeeps(t: Table, cutoff: real)
    requires Sound(t)
    ensures var u := PurgeOld(t, cutoff);
      Sound(u) && forall r :: r in u.rows <==> r in t.rows && Retained(r, cutoff)
  {
    hide Keep;
    var u := PurgeOld(t, cutoff);
    KeepOrdered(t.rows, cutoff);
    forall r ensures r in u.rows <==> r in t.rows && Retained(r, cutoff) {
      KeepMembers(t.rows, cutoff, r);
    }
    forall i | 0 <= i < |u.rows| ensures u.rows[i] in t.rows {
      assert u.rows[i] in u.rows;
    }
  }

  /** A row that is delivered or given up is purged exactly once retention has passed since then. */
  lemma ResolvedIsPurgedExactly(t: Table, i: nat, now: real, cutoff: real)
    requires Sorted(t) && i < |t.rows|
    ensures var u := PurgeOld(MarkSent(t, t.rows[i].id, now), cutoff);
      SentRow(t.rows[i], now) in u.rows <==> now >= cutoff
    ensures var u := PurgeOld(MarkDead(t, t.rows[i].id, now), cutoff);
      DeadRow(t.rows[i], now) in u.rows <==> now >= cutoff
  {
    var sent, dead := MarkSent(t, t.rows[i].id, now), MarkDead(t, t.rows[i].id, now);
    KeepMembers(sent.rows, cutoff, SentRow(t.rows[i], now));
    KeepMembers(dead.rows, cutoff, DeadRow(t.rows[i], now));
    assert sent.rows[i] == SentRow(t.rows[i], now) && dead.rows[i] == DeadRow(t.rows[i], now);
  }

  lemma PurgeBounds(t: Table, cutoff: real, cap: nat)
    requires WithinCap(t, cap)
    ensures WithinCap(PurgeOld(t, cutoff), cap)
  {
    forall p ensures CountPending(PurgeOld(t, cutoff).rows, p) <= cap {
      KeepCounts(t.rows, cutoff, p);
    }
  }

  /** Requeueing takes the oldest dead rows, as many as the limit allows. */
  lemma {:induction false} RequeueTakesTheOldest(rows: seq<Row>, limit: nat, now: real)
    ensures var u := Requeue(rows, limit, now);
      && CountDead(u) == (if CountDead(rows) <= limit then 0 else CountDead(rows) - limit)
      && forall i, j :: 0 <= i < j < |rows| && rows[i].status == Dead && u[j] != rows[j] ==> u[i].status == Pending
  {
    RequeueRows(rows, limit, now);
    if rows != [] && limit > 0 {
      var rest := if rows[0].status == Dead then limit - 1 else limit;
      RequeueTakesTheOldest(rows[1..], rest, now);
      var u := Requeue(rows, limit, now);
      assert u[1..] == Requeue(rows[1..], rest, now);
      forall i, j | 0 <= i < j < |rows| && rows[i].status == Dead && u[j] != rows[j] ensures u[i].status == Pending {
        assert u[j] == u[1..][j - 1] && rows[j] == rows[1..][j - 1];
        if i > 0 {
          assert u[i] == u[1..][i - 1] && rows[i] == rows[1..][i - 1];
        }
      }
    }
  }

  /** Requeueing touches dead rows only, and leaves their attempt counts as they were. */
  lemma {:induction false} RequeueRows(rows: seq<Row>, limit: nat, now: real)
    ensures var u := Requeue(rows, limit, now);
      && |u| == |rows|
      && forall i :: 0 <= i < |rows| ==>
          u[i] == rows[i]
          || (rows[i].status == Dead && u[i] == rows[i].(status := Pending, availableAt := now, sentAt := None))
  {
    if rows != [] && limit > 0 {
      RequeueRows(rows[1..], if rows[0].status == Dead then limit - 1 else limit, now);
    }
  }

  function CountDead(rows: seq<Row>): nat {
    if rows == [] then 0 else (if rows[0].status == Dead then 1 else 0) + CountDead(rows[1..])
  }

  lemma {:induction false} AttemptsOf(rows: seq<Row>, i: nat)
    requires i < |rows| && forall k, l :: 0 <= k < l < |rows| ==> rows[k].id < rows[l].id
    ensures Attempts(rows, rows[i].id) == rows[i].attempts
  {
    if i < |rows| - 1 {
      AttemptsOf(rows[..|rows| - 1], i);
    }
  }

  // ---------- what order survives ----------

  /** No row becomes pending except new ones, whose ids are above all earlier ones. */
  ghost predicate Evolves(t: Table, u: Table) {
    && t.next <= u.next
    && forall i :: 0 <= i < |u.rows| && u.rows[i].status == Pending && u.rows[i].id < t.next ==>
        StillPending(t, ItemAt(u.rows, i))
  }

  lemma EnqueueEvolves(t: Table, cap: nat, key: string, partition: string, now: real)
    requires Sorted(t)
    ensures Evolves(t, Enqueue(t, cap, key, partition, now).table)
    ensures forall it :: StillPending(t, it) ==> StillPending(Enqueue(t, cap, key, partition, now).table, it)
  {
    hide CountPending;
    var u := Enqueue(t, cap, key, partition, now).table;
    forall i | 0 <= i < |u.rows| && u.rows[i].status == Pending && u.rows[i].id < t.next
      ensures StillPending(t, ItemAt(u.rows, i))
    {
      assert i < |t.rows| && ItemAt(t.rows, i) == ItemAt(u.rows, i);
    }
    forall it | StillPending(t, it) ensures StillPending(u, it) {
      var i :| 0 <= i < |t.rows| && ItemAt(t.rows, i) == it && t.rows[i].status == Pending;
      assert ItemAt(u.rows, i) == it;
    }
  }

  lemma MarkEvolves(t: Table, u: Table, id: nat)
    requires Marked(t, u, id)
    ensures Evolves(t, u)
    ensures forall it :: StillPending(t, it) && it.id != id ==> StillPending(u, it)
  {
  }

  lemma PurgeEvolves(t: Table, cutoff: real)
    ensures Evolves(t, PurgeOld(t, cutoff))
    ensures forall it :: StillPending(t, it) ==> StillPending(PurgeOld(t, cutoff), it)
  {
    hide Keep;
    var u := PurgeOld(t, cutoff);
    forall i | 0 <= i < |u.rows| && u.rows[i].status == Pending && u.rows[i].id < t.next
      ensures StillPending(t, ItemAt(u.rows, i))
    {
      KeepMembers(t.rows, cutoff, u.rows[i]);
      var k :| 0 <= k < |t.rows| && t.rows[k] == u.rows[i];
      assert ItemAt(t.rows, k) == ItemAt(u.rows, i);
    }
    forall it | StillPending(t, it) ensures StillPending(u, it) {
      var i :| 0 <= i < |t.rows| && ItemAt(t.rows, i) == it && t.rows[i].status == Pending;
      KeepMembers(t.rows, cutoff, t.rows[i]);
      var k :| 0 <= k < |u.rows| && u.rows[k] == t.rows[i];
      assert ItemAt(u.rows, k) == it;
    }
  }

  // ---------- what a mark means to a reader of the table ----------

  /** The item is no longer anyone's to publish, and every other pending item still is. */
  ghost predicate Resolves(t: Table, u: Table, id: nat) {
    forall it :: StillPending(u, it) <==> StillPending(t, it) && it.id != id
  }

  lemma {:induction false} MarkedAttempts(a: seq<Row>, b: seq<Row>, id: nat)
    requires |a| == |b| && forall i :: 0 <= i < |a| ==> b[i].id == a[i].id && b[i].attempts == a[i].attempts
    ensures Attempts(b, id) == Attempts(a, id)
  {
    if a != [] {
      MarkedAttempts(a[..|a| - 1], b[..|b| - 1], id);
    }
  }

  /** A delivered row keeps its count of failures and leaves the table sound. */
  lemma SentResolves(t: Table, id: nat, now: real)
    ensures var u := MarkSent(t, id, now);
      Marked(t, u, id) && Resolves(t, u, id) && Attempts(u.rows, id) == Attempts(t.rows, id) && (Sound(t) ==> Sound(u))
  {
    var u := MarkSent(t, id, now);
    MarkedAttempts(t.rows, u.rows, id);
    PointwiseResolves(t, u, id);
    MarkedKeeps(t, u, id, 0);
  }

  /** So does a dead one, if it has failed the five times a dead letter is to have failed. */
  lemma DeadResolves(t: Table, id: nat, now: real)
    ensures var u := MarkDead(t, id, now);
      && Marked(t, u, id) && Resolves(t, u, id) && Attempts(u.rows, id) == Attempts(t.rows, id)
      && (Sound(t) && Attempts(t.rows, id) >= 5 ==> Sound(u))
  {
    var u := MarkDead(t, id, now);
    MarkedAttempts(t.rows, u.rows, id);
    PointwiseResolves(t, u, id);
    MarkedKeeps(t, u, id, 0);
    if Sound(t) {
      forall i | 0 <= i < |t.rows| ensures Attempts(t.rows, t.rows[i].id) == t.rows[i].attempts {
        AttemptsOf(t.rows, i);
      }
    }
  }

  lemma PointwiseResolves(t: Table, u: Table, id: nat)
    requires Marked(t, u, id) && forall i :: 0 <= i < |u.rows| && u.rows[i].id == id ==> u.rows[i].status != Pending
    ensures Resolves(t, u, id)
  {
    hide Attempts;
    forall it ensures StillPending(u, it) <==> StillPending(t, it) && it.id != id {
      if StillPending(u, it) {
        var i :| 0 <= i < |u.rows| && ItemAt(u.rows, i) == it && u.rows[i].status == Pending;
        assert ItemAt(t.rows, i) == it;
      }
      if StillPending(t, it) && it.id != id {
        var i :| 0 <= i < |t.rows| && ItemAt(t.rows, i) == it && t.rows[i].status == Pending;
        assert ItemAt(u.rows, i) == it;
      }
    }
  }

  /** Until its delay is over no batch has the item. */
  ghost predicate Rests(t: Table, id: nat, until: real) {
    forall limit, later, k :: 0 <= k < |PendingHeads(t, limit, later)| && PendingHeads(t, limit, later)[k].id == id ==>
      later >= until
  }

  /** A failed item stays pending with one more failure, and rests for the delay that failure brings. */
  lemma FailedRests(t: Table, id: nat, now: real)
    ensures var u := MarkFailed(t, id, now);
      && Marked(t, u, id) && (Sound(t) ==> Sound(u))
      && (forall it :: StillPending(u, it) <==> StillPending(t, it))
      && (Sorted(t) ==> Rests(u, id, now + Backoff(Attempts(u.rows, id)) as real))
  {
    hide Backoff, Rests, StillPending, Attempts;
    var u := MarkFailed(t, id, now);
    MarkedKeeps(t, u, id, 0);
    FailedStaysPending(t, id, now);
    if Sorted(t) {
      FailedDelays(t, id, now);
      RestsUntil(u, id, now + Backoff(Attempts(u.rows, id)) as real);
    }
  }

  lemma RestsUntil(t: Table, id: nat, until: real)
    requires forall i :: 0 <= i < |t.rows| && t.rows[i].id == id ==> t.rows[i].availableAt >= until
    ensures Rests(t, id, until)
  {
    forall limit, later, k | 0 <= k < |PendingHeads(t, limit, later)| && PendingHeads(t, limit, later)[k].id == id
      ensures later >= until
    {
      FetchedIsDue(t, limit, later, k);
    }
  }

  lemma FailedDelays(t: Table, id: nat, now: real)
    requires Sorted(t)
    ensures var u := MarkFailed(t, id, now);
      forall i :: 0 <= i < |u.rows| && u.rows[i].id == id ==>
        u.rows[i].availableAt == now + Backoff(Attempts(u.rows, id)) as real
  {
    hide Backoff;
    var u := MarkFailed(t, id, now);
    forall i | 0 <= i < |u.rows| ensures Attempts(u.rows, u.rows[i].id) == u.rows[i].attempts {
      AttemptsOf(u.rows, i);
    }
  }

  lemma FetchedIsDue(t: Table, limit: nat, now: real, k: nat)
    requires k < |PendingHeads(t, limit, now)|
    ensures exists i ::
      0 <= i < |t.rows| && ItemAt(t.rows, i) == PendingHeads(t, limit, now)[k] && t.rows[i].availableAt <= now
  {
    SelectExactly(t.rows, now, true, |t.rows|);
    assert Due(t.rows, now, true, Select(t.rows, now, true, |t.rows|)[k]);
  }

  lemma FailedStaysPending(t: Table, id: nat, now: real)
    ensures forall it :: StillPending(MarkFailed(t, id, now), it) <==> StillPending(t, it)
  {
    hide Backoff;
    var u := MarkFailed(t, id, now);
    assert forall i :: 0 <= i < |t.rows| ==> ItemAt(u.rows, i) == ItemAt(t.rows, i);
  }

  lemma {:induction false} AttemptsOfNone(rows: seq<Row>, id: nat)
    requires forall i :: 0 <= i < |rows| ==> rows[i].id != id
    ensures Attempts(rows, id) == 0
  {
    if rows != [] {
      AttemptsOfNone(rows[..|rows| - 1], id);
    }
  }

  lemma PurgeMakesNonePending(t: Table, cutoff: real)
    ensures forall it :: StillPending(PurgeOld(t, cutoff), it) ==> StillPending(t, it)
  {
    hide Keep;
    var u := PurgeOld(t, cutoff);
    forall it | StillPending(u, it) ensures StillPending(t, it) {
      var i :| 0 <= i < |u.rows| && ItemAt(u.rows, i) == it && u.rows[i].status == Pending;
      KeepMembers(t.rows, cutoff, u.rows[i]);
      var k :| 0 <= k < |t.rows| && t.rows[k] == u.rows[i];
      assert ItemAt(t.rows, k) == it;
    }
  }

  // ---------- the table as an object ----------

  class SQLiteOutbox {
    var rows: seq<Row>
    var nextId: nat
    const cap: nat
    const retention: real

    constructor (cap: nat, retention: real)
      ensures Abs() == EMPTY && this.cap == (if cap == 0 then 1 else cap) && this.retention == retention
    {
      this.cap := if cap == 0 then 1 else cap;
      this.retention := retention;
      rows, nextId := [], 1;
    }

    function Abs(): Table
      reads this
    {
      Table(rows, nextId)
    }

    method Put(key: string, partition: string, now: real) returns (full: bool)
      modifies this
      ensures Enqueued(Abs(), full) == Enqueue(old(Abs()), cap, key, partition, now)
    {
      if HasKey(rows, key) {
        return false;
      }
      if CountPending(rows, partition) >= cap {
        return true;
      }
      rows := rows + [Row(nextId, key, partition, Pending, 0, now, None)];
      nextId := nextId + 1;
      return false;
    }

    method Heads(limit: nat, now: real) returns (items: seq<Item>)
      requires Sorted(Abs())
      ensures items == PendingHeads(Abs(), limit, now)
      ensures OnePerPartition(items) && forall k :: 0 <= k < |items| ==> HeadItem(Abs(), items[k])
    {
      items := PendingHeads(Abs(), limit, now);
      BatchOfHeads(Abs(), limit, now);
    }

    method Sent(id: nat, now: real)
      modifies this`rows
      ensures Abs() == MarkSent(old(Abs()), id, now)
      ensures Marked(old(Abs()), Abs(), id) && Resolves(old(Abs()), Abs(), id)
      ensures Sound(old(Abs())) ==> Sound(Abs())
    {
      hide Marked, Resolves, Sound, SentRow;
      SentResolves(Abs(), id, now);
      rows := seq(|rows|, i requires 0 <= i < |rows| reads this =>
        if rows[i].id == id then SentRow(rows[i], now) else rows[i]);
    }

    method Failed(id: nat, now: real)
      modifies this`rows
      ensures Abs() == MarkFailed(old(Abs()), id, now)
      ensures Marked(old(Abs()), Abs(), id) && forall it :: StillPending(Abs(), it) <==> StillPending(old(Abs()), it)
      ensures Sorted(old(Abs())) ==> Rests(Abs(), id, now + Backoff(Attempts(rows, id)) as real)
      ensures Sound(old(Abs())) ==> Sound(Abs())
    {
      hide Marked, Rests, Sound, Sorted, StillPending, Backoff, FailedRow, Attempts;
      FailedRests(Abs(), id, now);
      rows := seq(|rows|, i requires 0 <= i < |rows| reads this =>
        if rows[i].id == id then FailedRow(rows[i], now) else rows[i]);
    }

    method DeadLetter(id: nat, now: real)
      modifies this`rows
      ensures Abs() == MarkDead(old(Abs()), id, now)
      ensures Marked(old(Abs()), Abs(), id) && Resolves(old(Abs()), Abs(), id)
      ensures Attempts(rows, id) == old(Attempts(rows, id))
      ensures Sound(old(Abs())) && Attempts(rows, id) >= 5 ==> Sound(Abs())
    {
      hide Marked, Resolves, Sound, DeadRow, Attempts;
      DeadResolves(Abs(), id, now);
      rows := seq(|rows|, i requires 0 <= i < |rows| reads this =>
        if rows[i].id == id then DeadRow(rows[i], now) else rows[i]);
    }

    method AttemptsOfItem(id: nat) returns (n: nat)
      ensures n == Attempts(rows, id)
      ensures Sorted(Abs()) ==> forall i :: 0 <= i < |rows| && rows[i].id == id ==> n == rows[i].attempts
      ensures (forall i :: 0 <= i < |rows| ==> rows[i].id != id) ==> n == 0
    {
      n := Attempts(rows, id);
      if (forall i :: 0 <= i < |rows| ==> rows[i].id != id) {
        AttemptsOfNone(rows, id);
      }
      if Sorted(Abs()) {
        forall i | 0 <= i < |rows| && rows[i].id == id ensures n == rows[i].attempts {
          AttemptsOf(rows, i);
        }
      }
    }

    method Purge(now: real)
      modifies this`rows
      ensures Abs() == PurgeOld(old(Abs()), now - retention)
      ensures Sound(old(Abs())) ==> Sound(Abs())
      ensures forall r :: r in rows <==> r in old(rows) && Retained(r, now - retention)
      ensures forall it :: StillPending(Abs(), it) <==> StillPending(old(Abs()), it)
    {
      hide Sound, StillPending, Keep;
      if Sound(Abs()) {
        PurgeKeeps(Abs(), now - retention);
      }
      forall r ensures r in Keep(rows, now - retention) <==> r in rows && Retained(r, now - retention) {
        KeepMembers(rows, now - retention, r);
      }
      PurgeEvolves(Abs(), now - retention);
      PurgeMakesNonePending(Abs(), now - retention);
      rows := Keep(rows, now - retention);
    }
  }
}
