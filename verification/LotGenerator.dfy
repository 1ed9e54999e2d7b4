/**
  The lot sequencing of simulator/data_generator.py: a generator that walks one lot
  after another, against the concatenation of whole lot scripts.
 */
module LotGenerator {

  datatype ProcessState =
    | SmifPodPresent | Loaded | Clamped | Mounted | MaterialReceived | LotStart
    | WaferStart | ProcessingStart | ProcessingEnd | WaferEnd
    | LotEnd | Unmounted | Unclamped | SmifPodUnclamped | Unloaded | SmifPodAbsent

  const LOT_EVENTS := [
    SmifPodPresent, Loaded, Clamped, Mounted, MaterialReceived, LotStart,
    LotEnd, Unmounted, Unclamped, SmifPodUnclamped, Unloaded, SmifPodAbsent]

  const WAFER_EVENTS := [WaferStart, ProcessingStart, ProcessingEnd, WaferEnd]

  /** Where `LotEnd` stands in the lot sequence. */
  const CLOSING := 6

  /** An event with the zero-based wafer it is reported for; a closing event is past the last wafer. */
  datatype Event = Event(state: ProcessState, wafer: nat)

  // ---------- the script of a lot ----------

  function LotPart(from: nat, to: nat, wafer: nat): seq<Event>
    requires from <= to <= 12
  {
    seq(to - from, k requires 0 <= k < to - from => Event(LOT_EVENTS[from + k], wafer))
  }

  function WaferPart(from: nat, wafer: nat): seq<Event>
    requires from <= 4
  {
    seq(4 - from, k requires 0 <= k < 4 - from => Event(WAFER_EVENTS[from + k], wafer))
  }

  function Wafers(from: nat, count: nat): seq<Event>
    requires from <= count
    decreases count - from
  {
    if from == count then [] else WaferPart(0, from) + Wafers(from + 1, count)
  }

  /** The opening six events, four events for each wafer, the closing six. */
  function Script(count: nat): seq<Event> {
    LotPart(0, CLOSING, 0) + Wafers(0, count) + LotPart(CLOSING, 12, count)
  }

  function Scripts(counts: seq<nat>): seq<Event> {
    if counts == [] then [] else Scripts(counts[..|counts| - 1]) + Script(counts[|counts| - 1])
  }

  lemma {:induction false} WafersLength(from: nat, count: nat)
    requires from <= count
    ensures |Wafers(from, count)| == 4 * (count - from)
    decreases count - from
  {
    if from < count {
      WafersLength(from + 1, count);
    }
  }

  lemma ScriptLength(count: nat)
    ensures |Script(count)| == 12 + 4 * count
  {
    WafersLength(0, count);
  }

  lemma {:induction false} WafersAt(from: nat, count: nat, w: nat, k: nat)
    requires from <= w < count && k < 4
    ensures |Wafers(from, count)| == 4 * (count - from)
    ensures Wafers(from, count)[4 * (w - from) + k] == Event(WAFER_EVENTS[k], w)
    decreases count - from
  {
    WafersLength(from, count);
    WafersLength(from + 1, count);
    if from < w {
      WafersAt(from + 1, count, w, k);
      assert Wafers(from, count)[4 * (w - from) + k] == Wafers(from + 1, count)[4 * (w - (from + 1)) + k];
    } else {
      assert Wafers(from, count)[k] == WaferPart(0, from)[k];
    }
  }

  lemma ScriptAtWafer(count: nat, w: nat, k: nat)
    requires w < count && k < 4
    ensures 6 + 4 * w + k < |Script(count)| && Script(count)[6 + 4 * w + k] == Event(WAFER_EVENTS[k], w)
  {
    hide Wafers, LotPart;
    ScriptLength(count);
    LotPartAt(0, CLOSING, 0);
    WafersAt(0, count, w, k);
  }

  lemma ScriptAtEnds(count: nat, k: nat)
    requires k < 6
    ensures |Script(count)| == 12 + 4 * count
    ensures Script(count)[k] == Event(LOT_EVENTS[k], 0)
    ensures Script(count)[6 + 4 * count + k] == Event(LOT_EVENTS[6 + k], count)
  {
    hide Wafers, LotPart;
    WafersLength(0, count);
    LotPartAt(0, CLOSING, 0);
    LotPartAt(CLOSING, 12, count);
  }

  /** In the script of a lot every wafer starts, is processed and ends, one after another. */
  lemma ScriptRunsWafers(count: nat, w: nat)
    requires w < count
    ensures |Script(count)| == 12 + 4 * count
    ensures var s := Script(count);
      && s[6 + 4 * w] == Event(WaferStart, w) && s[7 + 4 * w] == Event(ProcessingStart, w)
      && s[8 + 4 * w] == Event(ProcessingEnd, w) && s[9 + 4 * w] == Event(WaferEnd, w)
  {
    hide Script;
    ScriptLength(count);
    ScriptAtWafer(count, w, 0);
    ScriptAtWafer(count, w, 1);
    ScriptAtWafer(count, w, 2);
    ScriptAtWafer(count, w, 3);
  }

  /**
    All of that is between the start and the end of the lot; and the pod is present, loaded,
    clamped and mounted before it, and unmounted, unclamped, unloaded and absent after it.
   */
  lemma ScriptNests(count: nat)
    ensures |Script(count)| == 12 + 4 * count
    ensures var s, n := Script(count), 6 + 4 * count;
      && s[0].state == SmifPodPresent && s[1].state == Loaded && s[2].state == Clamped && s[3].state == Mounted
      && s[4].state == MaterialReceived && s[5].state == LotStart
      && s[n].state == LotEnd && s[n + 1].state == Unmounted && s[n + 2].state == Unclamped
      && s[n + 3].state == SmifPodUnclamped && s[n + 4].state == Unloaded && s[n + 5].state == SmifPodAbsent
  {
    hide Script;
    ScriptLength(count);
    ScriptAtEnds(count, 0);
    ScriptAtEnds(count, 1);
    ScriptAtEnds(count, 2);
    ScriptAtEnds(count, 3);
    ScriptAtEnds(count, 4);
    ScriptAtEnds(count, 5);
  }

  lemma LotPartAt(from: nat, to: nat, wafer: nat)
    requires from <= to <= 12
    ensures |LotPart(from, to, wafer)| == to - from
    ensures forall k :: 0 <= k < to - from ==> LotPart(from, to, wafer)[k] == Event(LOT_EVENTS[from + k], wafer)
  {
  }

  // ---------- where a generator stands ----------

  datatype Cursor = Cursor(active: bool, count: nat, wafer: nat, lotIndex: nat, waferIndex: nat, inWafers: bool)

  predicate Fits(c: Cursor) {
    c.active ==>
      && c.count >= 1 && c.waferIndex <= 4 && c.lotIndex <= 12
      && (c.inWafers ==> c.wafer < c.count && c.lotIndex == CLOSING)
      && (!c.inWafers ==> c.wafer == if c.lotIndex < CLOSING then 0 else c.count)
  }

  /** What the current lot still has to say. */
  function Rest(c: Cursor): seq<Event>
    requires Fits(c)
  {
    if !c.active then []
    else if c.inWafers then
      WaferPart(c.waferIndex, c.wafer) + Wafers(c.wafer + 1, c.count) + LotPart(CLOSING, 12, c.count)
    else if c.lotIndex < CLOSING then
      LotPart(c.lotIndex, CLOSING, 0) + Wafers(0, c.count) + LotPart(CLOSING, 12, c.count)
    else LotPart(c.lotIndex, 12, c.count)
  }

  lemma LotPartHead(from: nat, to: nat, wafer: nat)
    requires from < to <= 12
    ensures LotPart(from, to, wafer) == [Event(LOT_EVENTS[from], wafer)] + LotPart(from + 1, to, wafer)
  {
  }

  lemma WaferPartHead(from: nat, wafer: nat)
    requires from < 4
    ensures WaferPart(from, wafer) == [Event(WAFER_EVENTS[from], wafer)] + WaferPart(from + 1, wafer)
  {
  }

  lemma HeadFirst(x: Event, a: seq<Event>, b: seq<Event>, c: seq<Event>)
    ensures ([x] + a) + b + c == [x] + (a + b + c)
  {
  }

  lemma WaferGoesOn(c: Cursor)
    requires Fits(c) && c.active && c.inWafers && c.waferIndex < 4
    ensures Rest(c) == [Event(WAFER_EVENTS[c.waferIndex], c.wafer)] + Rest(c.(waferIndex := c.waferIndex + 1))
  {
    hide LotPart, WaferPart, Wafers;
    WaferPartHead(c.waferIndex, c.wafer);
    HeadFirst(Event(WAFER_EVENTS[c.waferIndex], c.wafer), WaferPart(c.waferIndex + 1, c.wafer),
      Wafers(c.wafer + 1, c.count), LotPart(CLOSING, 12, c.count));
  }

  lemma WafersHead(wafer: nat, count: nat)
    requires wafer < count
    ensures WaferPart(4, wafer) == []
    ensures Wafers(wafer, count) == [Event(WAFER_EVENTS[0], wafer)] + WaferPart(1, wafer) + Wafers(wafer + 1, count)
  {
    WaferPartHead(0, wafer);
  }

  lemma NextWafer(c: Cursor)
    requires Fits(c) && c.active && c.inWafers && c.waferIndex == 4 && c.wafer + 1 < c.count
    ensures Rest(c) == [Event(WAFER_EVENTS[0], c.wafer + 1)] + Rest(c.(waferIndex := 1, wafer := c.wafer + 1))
  {
    hide LotPart, WaferPart, Wafers;
    WafersHead(c.wafer, c.count);
    WafersHead(c.wafer + 1, c.count);
    HeadFirst(Event(WAFER_EVENTS[0], c.wafer + 1), WaferPart(1, c.wafer + 1), Wafers(c.wafer + 2, c.count),
      LotPart(CLOSING, 12, c.count));
    assert [] + Wafers(c.wafer + 1, c.count) == Wafers(c.wafer + 1, c.count);
  }

  lemma WafersDone(c: Cursor)
    requires Fits(c) && c.active && c.inWafers && c.waferIndex == 4 && c.wafer + 1 == c.count
    ensures Rest(c) == Rest(c.(inWafers := false, waferIndex := 0, wafer := c.count))
  {
  }

  lemma OneStart(k: nat)
    requires k < 12
    ensures LOT_EVENTS[k] == LotStart <==> k == CLOSING - 1
  {
  }

  lemma OpeningGoesOn(c: Cursor)
    requires Fits(c) && c.active && !c.inWafers && c.lotIndex < CLOSING - 1
    ensures Rest(c) == [Event(LOT_EVENTS[c.lotIndex], 0)] + Rest(c.(lotIndex := c.lotIndex + 1))
  {
    hide LotPart, Wafers;
    LotPartHead(c.lotIndex, CLOSING, 0);
    HeadFirst(Event(LOT_EVENTS[c.lotIndex], 0), LotPart(c.lotIndex + 1, CLOSING, 0),
      Wafers(0, c.count), LotPart(CLOSING, 12, c.count));
  }

  lemma ClosingGoesOn(c: Cursor)
    requires Fits(c) && c.active && !c.inWafers && CLOSING <= c.lotIndex < 12
    ensures Rest(c) == [Event(LOT_EVENTS[c.lotIndex], c.count)] + Rest(c.(lotIndex := c.lotIndex + 1))
  {
  }

  lemma LotStarts(c: Cursor)
    requires Fits(c) && c.active && !c.inWafers && c.lotIndex == CLOSING - 1
    ensures Rest(c) == [Event(LotStart, 0)] + Rest(c.(lotIndex := CLOSING, inWafers := true, waferIndex := 0, wafer := 0))
  {
    hide LotPart, WaferPart;
    LotPartAt(CLOSING - 1, CLOSING, 0);
    assert LotPart(CLOSING - 1, CLOSING, 0) == [Event(LotStart, 0)];
    assert Wafers(0, c.count) == WaferPart(0, 0) + Wafers(1, c.count);
  }

  lemma LotOver(c: Cursor)
    requires Fits(c) && c.active && !c.inWafers && c.lotIndex == 12
    ensures Rest(c) == [] && Rest(c.(active := false)) == []
  {
  }

  // ---------- the generator ----------

  class DataGenerator {
    var active: bool
    var waferCount: nat
    var currentWafer: nat
    var eventIndex: nat
    var waferEventIndex: nat
    var inWaferSequence: bool

    constructor ()
      ensures Valid() && Remaining() == []
    {
      active, waferCount, currentWafer := false, 0, 0;
      eventIndex, waferEventIndex, inWaferSequence := 0, 0, false;
    }

    function Where(): Cursor
      reads this
    {
      Cursor(active, waferCount, currentWafer, eventIndex, waferEventIndex, inWaferSequence)
    }

    ghost predicate Valid()
      reads this
    {
      Fits(Where())
    }

    ghost function Remaining(): seq<Event>
      requires Valid()
      reads this
    {
      Rest(Where())
    }

    /** Whether the next event opens a lot. */
    method AtLotEnd() returns (b: bool)
      requires Valid()
      ensures b <==> Remaining() == []
    {
      b := !active || (!inWaferSequence && eventIndex == 12);
    }

    method StartNewLot(count: nat)
      requires count >= 1
      modifies this
      ensures Where() == Cursor(true, count, 0, 0, 0, false)
      ensures Valid() && Remaining() == Script(count)
    {
      active, waferCount, currentWafer := true, count, 0;
      eventIndex, waferEventIndex, inWaferSequence := 0, 0, false;
    }

    /** One event of the wafer sequence; none when the last wafer is done. */
    method NextOfWafers() returns (found: bool, e: Event)
      requires Valid() && active && inWaferSequence
      modifies this
      ensures Valid() && active
      ensures found ==> old(Remaining()) == [e] + Remaining()
      ensures !found ==> !inWaferSequence && eventIndex == CLOSING && Remaining() == old(Remaining())
    {
      hide Rest;
      ghost var c := Where();
      if waferEventIndex < 4 {
        WaferGoesOn(c);
        e := Event(WAFER_EVENTS[waferEventIndex], currentWafer);
        waferEventIndex := waferEventIndex + 1;
        return true, e;
      }
      currentWafer := currentWafer + 1;
      waferEventIndex := 0;
      if currentWafer < waferCount {
        NextWafer(c);
        waferEventIndex := 1;
        return true, Event(WAFER_EVENTS[0], currentWafer);
      }
      WafersDone(c);
      inWaferSequence := false;
      eventIndex := CLOSING;
      return false, Event(LotEnd, 0);
    }

    /** One event of the lot sequence. */
    method NextOfLot() returns (e: Event)
      requires Valid() && active && !inWaferSequence && eventIndex < 12
      modifies this
      ensures Valid() && active
      ensures old(Remaining()) == [e] + Remaining()
    {
      hide Rest;
      ghost var c := Where();
      var state := LOT_EVENTS[eventIndex];
      if eventIndex == CLOSING - 1 {
        LotStarts(c);
      } else if eventIndex < CLOSING {
        OpeningGoesOn(c);
      } else {
        ClosingGoesOn(c);
      }
      OneStart(eventIndex);
      eventIndex := eventIndex + 1;
      if state == LotStart {
        inWaferSequence := true;
        waferEventIndex := 0;
        currentWafer := 0;
      }
      return Event(state, currentWafer);
    }

    /** `count` is the wafer count drawn should this call open a lot. */
    method GetNextEvent(count: nat) returns (e: Event)
      requires Valid() && count >= 1
      modifies this
      ensures Valid()
      ensures Continues(old(Remaining()), count, e, Remaining())
      decreases if active && !inWaferSequence && eventIndex >= 12 then 1 else 0
    {
      ghost var rest := Remaining();
      if !active {
        assert rest == [];
        StartNewLot(count);
        ScriptLength(count);
      }
      hide Rest, Script;
      if inWaferSequence {
        var found;
        found, e := NextOfWafers();
        if found {
          return e;
        }
      }
      if eventIndex < 12 {
        e := NextOfLot();
        return e;
      }
      LotOver(Where());
      active := false;
      e := GetNextEvent(count);
    }
  }

  // ---------- whole runs ----------

  /** One call: the event is the first of what is left, or of a new lot when nothing is left. */
  ghost predicate Continues(before: seq<Event>, count: nat, e: Event, after: seq<Event>) {
    [e] + after == if before == [] then Script(count) else before
  }

  /** What is left belongs to the last lot opened, and is less than the whole of it. */
  ghost predicate PartOfLast(rest: seq<Event>, counts: seq<nat>) {
    rest != [] ==> counts != [] && |rest| < |Script(counts[|counts| - 1])|
  }

  /**
    The events emitted so far, followed by what is left of the current lot, are whole
    lot scripts one after another; one more call keeps that, opening a lot if none is open.
   */
  lemma OneMoreEvent(
    events: seq<Event>, before: seq<Event>, count: nat, e: Event, after: seq<Event>, counts: seq<nat>)
    requires Continues(before, count, e, after)
    requires events + before == Scripts(counts) && PartOfLast(before, counts)
    ensures var more := if before == [] then counts + [count] else counts;
      events + [e] + after == Scripts(more) && PartOfLast(after, more)
  {
  }

  /**
    A generator called once per draw emits a prefix of whole lot scripts, and all but
    the last of those lots completely.
   */
  method Emit(gen: DataGenerator, draws: seq<nat>) returns (events: seq<Event>, counts: seq<nat>)
    requires gen.Valid() && gen.Remaining() == []
    requires forall i :: 0 <= i < |draws| ==> 1 <= draws[i] <= 25
    modifies gen
    ensures |events| == |draws|
    ensures gen.Valid() && events + gen.Remaining() == Scripts(counts) && PartOfLast(gen.Remaining(), counts)
    ensures forall k :: 0 <= k < |counts| ==> 1 <= counts[k] <= 25
  {
    hide Script, Rest, Scripts;
    events, counts := [], [];
    assert Scripts([]) == [] by {
      NoScripts();
    }
    var i := 0;
    while i < |draws|
      invariant i <= |draws| && gen.Valid() && |events| == i
      invariant events + gen.Remaining() == Scripts(counts) && PartOfLast(gen.Remaining(), counts)
      invariant forall k :: 0 <= k < |counts| ==> 1 <= counts[k] <= 25
    {
      ghost var before := gen.Remaining();
      var opens := gen.AtLotEnd();
      var e := gen.GetNextEvent(draws[i]);
      OneMoreEvent(events, before, draws[i], e, gen.Remaining(), counts);
      hide Continues, PartOfLast;
      if opens {
        counts := counts + [draws[i]];
      }
      events := events + [e];
      i := i + 1;
    }
  }

  lemma NoScripts()
    ensures Scripts([]) == []
  {
  }
}
