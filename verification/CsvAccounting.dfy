/**
  Reference counting in the CSV writer, one journal entry `s` at a time: the
  count kept for `s` is the number of rows of `s` held in memory, and every row
  that leaves memory is accounted for in the durable calls.
 */
module CsvAccounting {
  import opened Wrappers
  import opened Counting
  import opened CsvStore

  // ---------- what memory holds ----------

  ghost function Total(c: map<Key, seq<Option<nat>>>, s: nat): nat {
    if c == map[] then 0
    else
      var k :| k in c;
      Count(c[k], Some(s)) + Total(c - {k}, s)
  }

  lemma {:induction false} TotalAt(c: map<Key, seq<Option<nat>>>, k: Key, s: nat)
    requires k in c
    ensures Total(c, s) == Count(c[k], Some(s)) + Total(c - {k}, s)
    decreases |c|
  {
    var j :| j in c && Total(c, s) == Count(c[j], Some(s)) + Total(c - {j}, s);
    if j != k {
      TotalAt(c - {j}, k, s);
      TotalAt(c - {k}, j, s);
      assert c - {j} - {k} == c - {k} - {j};
    }
  }

  lemma {:induction false} TotalMember(c: map<Key, seq<Option<nat>>>, s: nat)
    ensures Total(c, s) > 0 <==> exists k :: k in c && Some(s) in c[k]
    decreases |c|
  {
    if c != map[] {
      var j :| j in c && Total(c, s) == Count(c[j], Some(s)) + Total(c - {j}, s);
      CountMember(c[j], Some(s));
      TotalMember(c - {j}, s);
      assert forall k :: k in c <==> k == j || k in c - {j};
    }
  }

  function EntriesAt(m: Memory, k: Key): seq<Option<nat>> {
    (if k in m.buffers then m.buffers[k].rowSeqs else []) + Entries(Get(m.waiting, k, []))
  }

  ghost function Contents(m: Memory): map<Key, seq<Option<nat>>> {
    map k | k in m.buffers.Keys + m.waiting.Keys :: EntriesAt(m, k)
  }

  /** How many rows of entry `s` the whole writer holds. */
  ghost function Occurs(m: Memory, s: nat): nat {
    Total(Contents(m), s)
  }

  ghost function Elsewhere(m: Memory, k: Key, s: nat): nat {
    Total(Contents(m) - {k}, s)
  }

  function At(m: Memory, k: Key, s: nat): nat {
    Count(EntriesAt(m, k), Some(s))
  }

  lemma OccursAt(m: Memory, k: Key, s: nat)
    ensures Occurs(m, s) == At(m, k, s) + Elsewhere(m, k, s)
  {
    var c := Contents(m);
    if k in c {
      TotalAt(c, k, s);
    } else {
      assert c - {k} == c;
      assert EntriesAt(m, k) == [];
    }
  }

  lemma SameContainers(m: Memory, n: Memory, s: nat)
    requires m.buffers == n.buffers && m.waiting == n.waiting
    ensures Occurs(m, s) == Occurs(n, s)
  {
    assert forall k :: EntriesAt(m, k) == EntriesAt(n, k);
    assert Contents(m) == Contents(n);
  }

  ghost predicate OnlyKey(m: Memory, n: Memory, k: Key) {
    m.buffers - {k} == n.buffers - {k} && m.waiting - {k} == n.waiting - {k}
  }

  lemma SameAt(m: Memory, n: Memory, k: Key, j: Key)
    requires OnlyKey(m, n, k) && j != k
    ensures (j in m.buffers <==> j in n.buffers) && (j in m.waiting <==> j in n.waiting)
    ensures EntriesAt(m, j) == EntriesAt(n, j)
  {
    assert j in m.buffers <==> j in m.buffers - {k};
    assert j in n.buffers <==> j in n.buffers - {k};
    assert j in m.waiting <==> j in m.waiting - {k};
    assert j in n.waiting <==> j in n.waiting - {k};
  }

  lemma SameElsewhere(m: Memory, n: Memory, k: Key, s: nat)
    requires OnlyKey(m, n, k)
    ensures Elsewhere(m, k, s) == Elsewhere(n, k, s)
  {
    var a, b := Contents(m) - {k}, Contents(n) - {k};
    forall j
      ensures j in a <==> j in b
      ensures j in a ==> a[j] == b[j]
    {
      if j != k { SameAt(m, n, k, j); }
    }
    assert a == b;
  }

  // ---------- the invariant ----------

  /** The count of `s` is its number of rows; a drop marker needs a counted row. */
  ghost predicate Counted(m: Memory, s: nat) {
    && Get(m.refs, s, 0) == Occurs(m, s)
    && (s in m.refs ==> m.refs[s] > 0)
    && (s in m.dropped ==> s in m.refs)
  }

  /** No key has both an open buffer and waiting rows; rows and sequences stay aligned. */
  ghost predicate Shape(m: Memory) {
    && m.buffers.Keys !! m.waiting.Keys
    && forall k :: k in m.buffers ==> |m.buffers[k].rows| == |m.buffers[k].rowSeqs|
  }

  ghost predicate Valid(m: Memory) {
    Shape(m) && forall s: nat :: Counted(m, s)
  }

  /** `holds` answers exactly the question its name asks. */
  lemma HoldsExactly(m: Memory, s: nat)
    requires Counted(m, s)
    ensures Holds(m, s) <==>
      || (exists k :: k in m.buffers && Some(s) in m.buffers[k].rowSeqs)
      || (exists k :: k in m.waiting && Some(s) in Entries(m.waiting[k]))
  {
    var c := Contents(m);
    TotalMember(c, s);
    if k :| k in c && Some(s) in c[k] {
      assert k in m.buffers || k in m.waiting;
    }
    if k :| k in m.buffers && Some(s) in m.buffers[k].rowSeqs {
      assert k in c && Some(s) in c[k];
    }
    if k :| k in m.waiting && Some(s) in Entries(m.waiting[k]) {
      assert k in c && Some(s) in c[k];
    }
  }

  // ---------- tallies of durable calls ----------

  datatype Kind = Wrote | Done | Dropped | Skipped

  function Amount(e: Effect, kind: Kind, s: nat): nat {
    match kind
    case Wrote => if e.FileWritten? then Count(e.file.rowSeqs, Some(s)) else 0
    case Done => if e.CsvDone? then Count(e.entries, s) else 0
    case Dropped => if e.CsvDropped? && e.entry == s then 1 else 0
    case Skipped => if e.CsvSkipped? && e.entry == s then 1 else 0
  }

  /** How often entry `s` was written to a file, marked done, dropped or skipped. */
  function Sum(es: seq<Effect>, kind: Kind, s: nat): nat {
    if es == [] then 0
    else Sum(es[..|es| - 1], kind, s) + Amount(es[|es| - 1], kind, s)
  }

  lemma {:induction false} SumConcat(a: seq<Effect>, b: seq<Effect>, kind: Kind, s: nat)
    ensures Sum(a + b, kind, s) == Sum(a, kind, s) + Sum(b, kind, s)
  {
    if b == [] {
      assert a + b == a;
    } else {
      assert (a + b)[..|a + b| - 1] == a + b[..|b| - 1];
      SumConcat(a, b[..|b| - 1], kind, s);
    }
  }

  lemma SumOne(e: Effect, kind: Kind, s: nat)
    ensures Sum([e], kind, s) == Amount(e, kind, s)
  {
  }

  function Resolved(es: seq<Effect>, s: nat): nat {
    Sum(es, Done, s) + Sum(es, Dropped, s) + Sum(es, Skipped, s)
  }

  /**
    For an entry with at most one row: it is written as often as it is marked
    done, and once resolved it is no longer held, so nothing is resolved twice.
   */
  ghost predicate Conserves(m: Memory, added: nat, r: Result, s: nat) {
    Occurs(m, s) + added <= 1 && s !in m.dropped ==>
      && s !in r.mem.dropped
      && Sum(r.effects, Wrote, s) == Sum(r.effects, Done, s)
      && Occurs(r.mem, s) + Resolved(r.effects, s) <= Occurs(m, s) + added
  }

  lemma ConservesAfter(m: Memory, a: nat, r: Result, b: nat, q: Result, s: nat)
    requires Conserves(m, a, r, s) && Conserves(r.mem, b, q, s)
    ensures Conserves(m, a + b, After(r, q), s)
  {
    forall kind: Kind
      ensures Sum(r.effects + q.effects, kind, s) == Sum(r.effects, kind, s) + Sum(q.effects, kind, s)
    {
      SumConcat(r.effects, q.effects, kind, s);
    }
  }

  // ---------- the release loop ----------

  /** The loop touches entry `s` only through the rows of `s`. */
  lemma {:induction false} ReleaseCounts(
    refs: map<nat, nat>, dropped: map<nat, string>, entries: seq<Option<nat>>, reason: Option<string>, s: nat)
    requires Get(refs, s, 0) >= Count(entries, Some(s))
    requires s in refs ==> refs[s] > 0
    requires s in dropped ==> s in refs
    ensures var r := ReleaseAll(refs, dropped, entries, reason);
      && Get(r.refs, s, 0) == Get(refs, s, 0) - Count(entries, Some(s))
      && (s in r.refs ==> r.refs[s] > 0)
      && (s in r.dropped ==> s in r.refs)
      && (reason.None? && s !in dropped ==> s !in r.dropped)
  {
    if entries != [] {
      ReleaseCounts(refs, dropped, entries[..|entries| - 1], reason, s);
    }
  }

  /** The rows released are the last ones of the entry that memory holds. */
  predicate LastRows(refs: map<nat, nat>, entries: seq<Option<nat>>, s: nat) {
    Count(entries, Some(s)) > 0 && Get(refs, s, 0) == Count(entries, Some(s))
  }

  /**
    An entry is resolved exactly when its last held row is released: as dropped
    if that row, or an earlier one, was discarded, and as done otherwise. Until
    then a discarded row leaves a marker.
   */
  lemma {:induction false} ReleaseResolves(
    refs: map<nat, nat>, dropped: map<nat, string>, entries: seq<Option<nat>>, reason: Option<string>, s: nat)
    requires Get(refs, s, 0) >= Count(entries, Some(s))
    requires s in refs ==> refs[s] > 0
    requires s in dropped ==> s in refs
    ensures var r := ReleaseAll(refs, dropped, entries, reason);
      var last := LastRows(refs, entries, s);
      && Sum(r.drops, Dropped, s) == (if last && (reason.Some? || s in dropped) then 1 else 0)
      && Sum(r.drops, Wrote, s) == Sum(r.drops, Done, s) == Sum(r.drops, Skipped, s) == 0
      && Count(r.done, s) == (if last && reason.None? && s !in dropped then 1 else 0)
      && (s in r.dropped <==> !last && (s in dropped || (reason.Some? && Count(entries, Some(s)) > 0)))
  {
    if entries != [] {
      var n := |entries| - 1;
      var r := ReleaseAll(refs, dropped, entries[..n], reason);
      ReleaseResolves(refs, dropped, entries[..n], reason, s);
      ReleaseCounts(refs, dropped, entries[..n], reason, s);
      ReleaseOneResolves(r, entries[n], reason, s);
    }
  }

  lemma ReleaseOneResolves(r: Releasing, entry: Option<nat>, reason: Option<string>, s: nat)
    ensures var q := ReleaseOne(r, entry, reason);
      var last := entry == Some(s) && Get(r.refs, s, 0) <= 1;
      && Sum(q.drops, Dropped, s) == Sum(r.drops, Dropped, s) + (if last && (reason.Some? || s in r.dropped) then 1 else 0)
      && Sum(q.drops, Wrote, s) == Sum(r.drops, Wrote, s)
      && Sum(q.drops, Done, s) == Sum(r.drops, Done, s)
      && Sum(q.drops, Skipped, s) == Sum(r.drops, Skipped, s)
      && Count(q.done, s) == Count(r.done, s) + (if last && reason.None? && s !in r.dropped then 1 else 0)
      && (s in q.dropped <==> !last && (s in r.dropped || (reason.Some? && entry == Some(s))))
  {
    var q := ReleaseOne(r, entry, reason);
    if |q.drops| > |r.drops| {
      var e := q.drops[|r.drops|];
      forall kind: Kind
        ensures Sum(q.drops, kind, s) == Sum(r.drops, kind, s) + Amount(e, kind, s)
      {
        SumConcat(r.drops, [e], kind, s);
        SumOne(e, kind, s);
      }
    }
    if entry.Some? {
      CountConcat(r.done, [entry.value], s);
      CountOne(entry.value, s);
    }
  }

  lemma ReleaseCallsSum(r: Releasing, kind: Kind, s: nat)
    ensures Sum(ReleaseCalls(r), kind, s) == Sum(r.drops, kind, s) + (if kind == Done then Count(r.done, s) else 0)
  {
    SumOne(CsvDone(r.done), kind, s);
    SumConcat(r.drops, if r.done == [] then [] else [CsvDone(r.done)], kind, s);
  }

  /** The marks a whole release makes for one entry. */
  lemma ReleaseSums(m: Memory, gone: seq<Option<nat>>, reason: Option<string>, s: nat)
    requires Get(m.refs, s, 0) >= Count(gone, Some(s))
    requires s in m.refs ==> m.refs[s] > 0
    requires s in m.dropped ==> s in m.refs
    ensures var r := Release(m, gone, reason);
      var last := LastRows(m.refs, gone, s);
      && Sum(r.effects, Wrote, s) == Sum(r.effects, Skipped, s) == 0
      && Sum(r.effects, Dropped, s) == (if last && (reason.Some? || s in m.dropped) then 1 else 0)
      && Sum(r.effects, Done, s) == (if last && reason.None? && s !in m.dropped then 1 else 0)
      && (s in r.mem.dropped <==> !last && (s in m.dropped || (reason.Some? && Count(gone, Some(s)) > 0)))
  {
    hide Count, ReleaseAll, ReleaseCalls, Sum, LastRows;
    ReleaseResolves(m.refs, m.dropped, gone, reason, s);
    forall kind: Kind {
      ReleaseCallsSum(ReleaseAll(m.refs, m.dropped, gone, reason), kind, s);
    }
  }

  /** Rows leave one key's containers and are released: the books still balance. */
  lemma ReleaseKey(m: Memory, n: Memory, k: Key, gone: seq<Option<nat>>, reason: Option<string>, s: nat)
    requires Counted(m, s) && OnlyKey(m, n, k) && n.refs == m.refs && n.dropped == m.dropped
    requires At(m, k, s) == Count(gone, Some(s)) + At(n, k, s)
    ensures var r := Release(n, gone, reason);
      && Counted(r.mem, s)
      && Occurs(r.mem, s) + Count(gone, Some(s)) == Occurs(m, s)
  {
    OccursAt(m, k, s);
    OccursAt(n, k, s);
    SameElsewhere(m, n, k, s);
    ReleaseCounts(m.refs, m.dropped, gone, reason, s);
    SameContainers(n, Release(n, gone, reason).mem, s);
  }

  lemma {:induction false} ForgetCounts(m: Memory, entries: seq<Option<nat>>, s: nat)
    requires Get(m.refs, s, 0) >= Count(entries, Some(s))
    requires s in m.refs ==> m.refs[s] > 0
    requires s in m.dropped ==> s in m.refs
    ensures var f := Forget(m, entries);
      && f == m.(refs := f.refs, dropped := f.dropped)
      && Get(f.refs, s, 0) == Get(m.refs, s, 0) - Count(entries, Some(s))
      && (s in f.refs ==> f.refs[s] > 0)
      && (s in f.dropped ==> s in f.refs && s in m.dropped)
  {
    if entries != [] {
      ForgetCounts(m, entries[..|entries| - 1], s);
    }
  }

  /** Rows leave one key's containers with their entries left pending. */
  lemma ForgetKey(m: Memory, n: Memory, k: Key, gone: seq<Option<nat>>, s: nat)
    requires Counted(m, s) && OnlyKey(m, n, k) && n.refs == m.refs && n.dropped == m.dropped
    requires At(m, k, s) == Count(gone, Some(s)) + At(n, k, s)
    ensures var f := Forget(n, gone);
      && Counted(f, s)
      && Occurs(f, s) + Count(gone, Some(s)) == Occurs(m, s)
      && (s in f.dropped ==> s in m.dropped)
  {
    OccursAt(m, k, s);
    OccursAt(n, k, s);
    SameElsewhere(m, n, k, s);
    ForgetCounts(n, gone, s);
    SameContainers(n, Forget(n, gone), s);
  }

  /** One row has joined a key's containers, and is not counted yet. */
  ghost predicate RowJoined(m: Memory, n: Memory, k: Key, entry: Option<nat>, s: nat) {
    && OnlyKey(m, n, k) && n.refs == m.refs && n.dropped == m.dropped
    && At(n, k, s) == At(m, k, s) + (if entry == Some(s) then 1 else 0)
  }

  /** One row joins a key's containers and is tracked. */
  lemma TrackKey(m: Memory, n: Memory, k: Key, entry: Option<nat>, s: nat)
    requires Counted(m, s) && RowJoined(m, n, k, entry, s)
    ensures var t := Track(n, entry);
      Counted(t, s) && Occurs(t, s) == Occurs(m, s) + (if entry == Some(s) then 1 else 0)
  {
    OccursAt(m, k, s);
    OccursAt(n, k, s);
    SameElsewhere(m, n, k, s);
    SameContainers(n, Track(n, entry), s);
  }

  /** Rows change container under the same key. */
  lemma MoveKey(m: Memory, n: Memory, k: Key, s: nat)
    requires Counted(m, s) && OnlyKey(m, n, k) && n.refs == m.refs && n.dropped == m.dropped
    requires At(n, k, s) == At(m, k, s)
    ensures Counted(n, s) && Occurs(n, s) == Occurs(m, s)
  {
    OccursAt(m, k, s);
    OccursAt(n, k, s);
    SameElsewhere(m, n, k, s);
  }
}
