/**
  The equipment side of event reporting (SEMI E5 Stream 2, functions 33 to 38)
  in its two variants: the base simulator of simulator/equipment.py and the
  NexGen MG of simulator/nexgen_mg_simulator.py, which may refuse a band.
 */
module Equipment {
  import opened Wrappers

  datatype ReportItem = ReportItem(rptid: nat, vids: seq<nat>)
  datatype LinkItem = LinkItem(ceid: nat, rptids: seq<nat>)

  /** A host message; a zero-length list is the "all" form of each. */
  datatype Message =
    | S2F33(reports: seq<ReportItem>)
    | S2F35(links: seq<LinkItem>)
    | S2F37(ceed: bool, ceids: seq<nat>)

  datatype State = State(
    reports: map<nat, seq<nat>>, links: map<nat, seq<nat>>,
    enabled: set<nat>, disabled: set<nat>, allEnabled: bool, configured: bool)

  const POWER_ON := State(map[], map[], {}, {}, false, false)

  datatype Reply = Reply(state: State, ack: int)

  function Without(list: seq<nat>, x: nat): (r: seq<nat>)
    ensures forall y :: y in r <==> y in list && y != x
    ensures x !in list ==> r == list
  {
    if list == [] then []
    else
      var n := |list| - 1;
      Without(list[..n], x) + (if list[n] == x then [] else [list[n]])
  }

  // ---------- S2F33, define report ----------

  /** Every link without the report; a link may be left with none. */
  function Unlinked(links: map<nat, seq<nat>>, rptid: nat): map<nat, seq<nat>> {
    map c | c in links :: Without(links[c], rptid)
  }

  function DefineOne(e: State, item: ReportItem): State {
    if item.vids == [] then
      e.(reports := e.reports - {item.rptid}, links := Unlinked(e.links, item.rptid))
    else
      e.(reports := e.reports[item.rptid := item.vids])
  }

  function DefineEach(e: State, items: seq<ReportItem>): State {
    if items == [] then e else DefineOne(DefineEach(e, items[..|items| - 1]), items[|items| - 1])
  }

  predicate Collides(e: State, items: seq<ReportItem>) {
    exists i :: 0 <= i < |items| && items[i].rptid in e.reports && items[i].vids != []
  }

  function HandleS2F33(e: State, items: seq<ReportItem>): Reply {
    if items == [] then Reply(e.(reports := map[], links := map[]), 0)
    else if Collides(e, items) then Reply(e, 3)
    else Reply(DefineEach(e, items), 0)
  }

  // ---------- S2F35, link event report ----------

  function LinkOne(e: State, item: LinkItem): State {
    e.(links := if item.rptids != [] then e.links[item.ceid := item.rptids] else e.links - {item.ceid})
  }

  function LinkEach(e: State, items: seq<LinkItem>): State {
    if items == [] then e else LinkOne(LinkEach(e, items[..|items| - 1]), items[|items| - 1])
  }

  predicate Unknown(e: State, items: seq<LinkItem>) {
    exists i, j :: 0 <= i < |items| && 0 <= j < |items[i].rptids| && items[i].rptids[j] !in e.reports
  }

  function HandleS2F35(e: State, items: seq<LinkItem>): Reply {
    if items == [] then Reply(e.(links := map[]), 0)
    else if Unknown(e, items) then Reply(e, 3)
    else Reply(LinkEach(e, items), 0)
  }

  // ---------- S2F37, enable or disable event report ----------

  function Elements(list: seq<nat>): set<nat> {
    set x | x in list
  }

  function HandleS2F37(e: State, ceed: bool, ceids: seq<nat>): Reply {
    var c := e.(configured := true);
    Reply(
      if ceids == [] then
        c.(allEnabled := ceed, enabled := {}, disabled := {})
      else if ceed then
        c.(enabled := e.enabled + Elements(ceids), disabled := e.disabled - Elements(ceids))
      else if e.allEnabled then
        c.(disabled := e.disabled + Elements(ceids))
      else
        c.(enabled := e.enabled - Elements(ceids)),
      0)
  }

  function Handle(e: State, m: Message): Reply {
    match m
    case S2F33(items) => HandleS2F33(e, items)
    case S2F35(items) => HandleS2F35(e, items)
    case S2F37(ceed, ceids) => HandleS2F37(e, ceed, ceids)
  }

  // ---------- what the enable fields mean ----------

  /** The set of enabled CEIDs the four fields stand for once any S2F37 has arrived. */
  predicate Stored(e: State, ceid: nat) {
    if e.allEnabled then ceid !in e.disabled else ceid in e.enabled
  }

  predicate IsEventEnabled(e: State, ceid: nat) {
    if !e.configured then true else Stored(e, ceid)
  }

  /** S2F37 on a plain set of CEIDs: all, none, union or difference. */
  predicate Commanded(before: bool, ceed: bool, ceids: seq<nat>, ceid: nat) {
    if ceids == [] || ceid in ceids then ceed else before
  }

  /** The enable and disable fields refine a plain set, from any state they can be in. */
  lemma EnableRefinesASet(e: State, ceed: bool, ceids: seq<nat>, ceid: nat)
    ensures var f := HandleS2F37(e, ceed, ceids).state;
      && f.configured
      && IsEventEnabled(f, ceid) == Commanded(Stored(e, ceid), ceed, ceids, ceid)
      && f.reports == e.reports && f.links == e.links
  {
  }

  // ---------- no dangling links ----------

  ghost predicate NoDangling(e: State) {
    forall c, r :: c in e.links && r in e.links[c] ==> r in e.reports
  }

  lemma {:induction false} DefineKeepsNoDangling(e: State, items: seq<ReportItem>)
    requires NoDangling(e)
    ensures NoDangling(DefineEach(e, items))
  {
    if items != [] {
      DefineKeepsNoDangling(e, items[..|items| - 1]);
    }
  }

  lemma {:induction false} LinkKeepsNoDangling(e: State, items: seq<LinkItem>)
    requires NoDangling(e) && !Unknown(e, items)
    ensures NoDangling(LinkEach(e, items)) && LinkEach(e, items).reports == e.reports
  {
    if items != [] {
      var n := |items| - 1;
      assert forall i :: 0 <= i < n ==> items[..n][i] == items[i];
      LinkKeepsNoDangling(e, items[..n]);
      forall r | r in items[n].rptids ensures r in e.reports {
        var j :| 0 <= j < |items[n].rptids| && items[n].rptids[j] == r;
        assert items[n].rptids[j] in e.reports;
      }
    }
  }

  function Receive(e: State, ms: seq<Message>): State {
    if ms == [] then e else Handle(Receive(e, ms[..|ms| - 1]), ms[|ms| - 1]).state
  }

  /** After any messages at all, every report an event is linked to is defined. */
  lemma {:induction false} NeverDangling(e: State, ms: seq<Message>)
    requires NoDangling(e)
    ensures NoDangling(Receive(e, ms))
  {
    if ms != [] {
      var m := ms[|ms| - 1];
      var f := Receive(e, ms[..|ms| - 1]);
      NeverDangling(e, ms[..|ms| - 1]);
      match m
      case S2F33(items) => DefineKeepsNoDangling(f, items);
      case S2F35(items) => if items != [] && !Unknown(f, items) { LinkKeepsNoDangling(f, items); }
      case S2F37(_, _) =>
    }
  }

  /** A refused define or link is refused as a whole. */
  lemma NackChangesNothing(e: State, m: Message)
    ensures Handle(e, m).ack != 0 ==> Handle(e, m).state == e
  {
  }

  /** The reports a message deletes: those listed without variables. */
  function Deleted(items: seq<ReportItem>): set<nat> {
    set i | 0 <= i < |items| && items[i].vids == [] :: items[i].rptid
  }

  /** The list without these, the rest in its order. */
  function Keeping(list: seq<nat>, gone: set<nat>): (r: seq<nat>)
    ensures forall y :: y in r <==> y in list && y !in gone
  {
    if list == [] then []
    else
      var n := |list| - 1;
      Keeping(list[..n], gone) + (if list[n] in gone then [] else [list[n]])
  }

  lemma {:induction false} WithoutKeeps(list: seq<nat>, gone: set<nat>, x: nat)
    ensures Without(Keeping(list, gone), x) == Keeping(list, gone + {x})
  {
    if list != [] {
      var n := |list| - 1;
      WithoutKeeps(list[..n], gone, x);
      var before := Keeping(list[..n], gone);
      if list[n] !in gone {
        assert (before + [list[n]])[..|before|] == before;
      } else {
        assert before + [] == before;
      }
    }
  }

  lemma {:induction false} KeepingAll(list: seq<nat>)
    ensures Keeping(list, {}) == list
  {
    if list != [] {
      KeepingAll(list[..|list| - 1]);
    }
  }

  lemma DeletedSnoc(items: seq<ReportItem>)
    requires items != []
    ensures var last := items[|items| - 1];
      Deleted(items) == if last.vids == []
        then Deleted(items[..|items| - 1]) + {last.rptid} else Deleted(items[..|items| - 1])
  {
    var n := |items| - 1;
    forall x ensures x in Deleted(items) <==>
      x in Deleted(items[..n]) || (items[n].vids == [] && x == items[n].rptid)
    {
      if x in Deleted(items[..n]) {
        var i :| 0 <= i < n && items[..n][i].vids == [] && items[..n][i].rptid == x;
        assert items[i].vids == [] && items[i].rptid == x;
      }
      if x in Deleted(items) {
        var i :| 0 <= i < |items| && items[i].vids == [] && items[i].rptid == x;
        assert i < n ==> items[..n][i].vids == [] && items[..n][i].rptid == x;
      }
    }
  }

  /** Deleting reports takes exactly those out of every link, keeps the order of the rest, and drops no link. */
  lemma {:induction false} UnlinkedExactly(e: State, items: seq<ReportItem>, c: nat)
    ensures var f := DefineEach(e, items);
      (c in f.links <==> c in e.links) && (c in e.links ==> f.links[c] == Keeping(e.links[c], Deleted(items)))
  {
    hide Keeping, Without, Deleted;
    if items == [] {
      if c in e.links {
        KeepingAll(e.links[c]);
        NoneDeleted(items);
      }
    } else {
      var n := |items| - 1;
      UnlinkedExactly(e, items[..n], c);
      DeletedSnoc(items);
      if c in e.links {
        WithoutKeeps(e.links[c], Deleted(items[..n]), items[n].rptid);
      }
    }
  }

  lemma NoneDeleted(items: seq<ReportItem>)
    requires items == []
    ensures Deleted(items) == {}
  {
  }

  lemma {:induction false} DefinesOnlyNewOnes(e: State, items: seq<ReportItem>, r: nat)
    requires r in e.reports && !Collides(e, items)
    ensures var f := DefineEach(e, items);
      if r in Deleted(items) then r !in f.reports else r in f.reports && f.reports[r] == e.reports[r]
  {
    if items != [] {
      var n := |items| - 1;
      assert forall i :: 0 <= i < n ==> items[..n][i] == items[i];
      DefinesOnlyNewOnes(e, items[..n], r);
      DeletedSnoc(items);
    }
  }

  lemma {:induction false} LinkingDefinesNothing(e: State, items: seq<LinkItem>)
    ensures LinkEach(e, items).reports == e.reports
  {
    if items != [] {
      LinkingDefinesNothing(e, items[..|items| - 1]);
    }
  }

  /**
    Whatever it is sent, the base tool never redefines a report: what it has stays as it
    is or goes.
   */
  lemma NeverRedefines(e: State, m: Message, r: nat)
    requires r in e.reports && r in Handle(e, m).state.reports
    ensures Handle(e, m).state.reports[r] == e.reports[r]
  {
    match m
    case S2F33(items) => if !Collides(e, items) { DefinesOnlyNewOnes(e, items, r); }
    case S2F35(items) => LinkingDefinesNothing(e, items);
    case S2F37(_, _) =>
  }

  /** Code 3 says exactly that the message defines a report the tool already has. */
  lemma CollisionExactly(e: State, items: seq<ReportItem>)
    ensures Handle(e, S2F33(items)).ack == 3
      <==> exists x :: x in items && x.vids != [] && x.rptid in e.reports
    ensures Handle(e, S2F33(items)).ack in {0, 3}
  {
    if x :| x in items && x.vids != [] && x.rptid in e.reports {
      var i :| 0 <= i < |items| && items[i] == x;
      assert items[i].rptid in e.reports;
    }
  }

  // ---------- the NexGen variant ----------

  /** `bands` is the tool's CEID-to-band table; `refused` is empty when nothing is refused. */
  datatype Policy = Policy(bands: map<nat, string>, refuseBand: string)

  const RPTID_BASE := 1000000000

  function BandOfReport(p: Policy, rptid: nat): string {
    if rptid < RPTID_BASE then "" else Get(p.bands, rptid - RPTID_BASE, "")
  }

  /** A list of pairs read into a dictionary: the last value of a key, at its first position. */
  function ReportDict(items: seq<ReportItem>): (d: seq<ReportItem>)
    ensures forall i, j :: 0 <= i < j < |d| ==> d[i].rptid != d[j].rptid
    ensures forall i :: 0 <= i < |d| ==> d[i] in items
    ensures items != [] ==> items[|items| - 1] in d
  {
    if items == [] then []
    else
      var last := items[|items| - 1];
      var d := ReportDict(items[..|items| - 1]);
      if i :| 0 <= i < |d| && d[i].rptid == last.rptid then
        assert d[i := last][i] == last;
        d[i := last]
      else
        assert (d + [last])[|d|] == last;
        d + [last]
  }

  function LinkDict(items: seq<LinkItem>): (d: seq<LinkItem>)
    ensures forall i, j :: 0 <= i < j < |d| ==> d[i].ceid != d[j].ceid
    ensures forall i :: 0 <= i < |d| ==> d[i] in items
    ensures items != [] ==> items[|items| - 1] in d
  {
    if items == [] then []
    else
      var last := items[|items| - 1];
      var d := LinkDict(items[..|items| - 1]);
      if i :| 0 <= i < |d| && d[i].ceid == last.ceid then
        assert d[i := last][i] == last;
        d[i := last]
      else
        assert (d + [last])[|d|] == last;
        d + [last]
  }

  /** Here a link that loses its last report goes with it. */
  function NexgenUnlinked(links: map<nat, seq<nat>>, rptid: nat): map<nat, seq<nat>> {
    map c | c in links && Without(links[c], rptid) != [] :: Without(links[c], rptid)
  }

  function NexgenDefineOne(e: State, item: ReportItem): State {
    if item.vids == [] then
      e.(reports := e.reports - {item.rptid}, links := NexgenUnlinked(e.links, item.rptid))
    else
      e.(reports := e.reports[item.rptid := item.vids])
  }

  function NexgenDefineEach(e: State, items: seq<ReportItem>): State {
    if items == [] then e else NexgenDefineOne(NexgenDefineEach(e, items[..|items| - 1]), items[|items| - 1])
  }

  /** Here too exactly the deleted reports go from every link, and a link goes with its last one. */
  lemma {:induction false} NexgenUnlinkedExactly(e: State, items: seq<ReportItem>, c: nat)
    requires c in e.links && e.links[c] != []
    ensures var f, left := NexgenDefineEach(e, items), Keeping(e.links[c], Deleted(items));
      (c in f.links <==> left != []) && (c in f.links ==> f.links[c] == left)
  {
    hide Keeping, Without, Deleted;
    if items == [] {
      KeepingAll(e.links[c]);
      NoneDeleted(items);
    } else {
      var n := |items| - 1;
      NexgenUnlinkedExactly(e, items[..n], c);
      DeletedSnoc(items);
      WithoutKeeps(e.links[c], Deleted(items[..n]), items[n].rptid);
    }
  }

  function RefusedCeids(p: Policy): set<nat> {
    set c | c in p.bands && p.bands[c] == p.refuseBand
  }

  function NexgenHandle(p: Policy, e: State, m: Message): Reply {
    match m
    case S2F33(items) =>
      var parsed := ReportDict(items);
      if p.refuseBand != "" && exists i :: 0 <= i < |parsed| && BandOfReport(p, parsed[i].rptid) == p.refuseBand then
        Reply(e, 4)
      else if items == [] then Reply(e.(reports := map[], links := map[]), 0)
      else Reply(NexgenDefineEach(e, parsed), 0)
    case S2F35(items) =>
      var parsed := LinkDict(items);
      if items == [] then Reply(e.(links := map[]), 0)
      else if p.refuseBand != "" && exists i :: 0 <= i < |parsed| && Get(p.bands, parsed[i].ceid, "") == p.refuseBand then
        Reply(e, 4)
      else if Unknown(e, parsed) then Reply(e, 3)
      else Reply(LinkEach(e, parsed), 0)
    case S2F37(ceed, ceids) =>
      var r := HandleS2F37(e, ceed, ceids);
      if p.refuseBand == "" then r
      else r.(state := r.state.(enabled := r.state.enabled - RefusedCeids(p)))
  }

  /** The events of the refused band, once a first S2F37 has made the tool work them out. */
  function KnownRefused(p: Policy, e: State): set<nat> {
    if e.configured && p.refuseBand != "" then RefusedCeids(p) else {}
  }

  /** Whether the tool sends the event. */
  predicate NexgenReports(p: Policy, e: State, ceid: nat) {
    ceid !in KnownRefused(p, e) && IsEventEnabled(e, ceid)
  }

  /** The read-back of enabled events. */
  function NexgenEnabled(p: Policy, e: State): set<nat> {
    (if e.allEnabled then p.bands.Keys else e.enabled) - KnownRefused(p, e)
  }

  function NexgenReceive(p: Policy, e: State, ms: seq<Message>): State {
    if ms == [] then e else NexgenHandle(p, NexgenReceive(p, e, ms[..|ms| - 1]), ms[|ms| - 1]).state
  }

  lemma {:induction false} NexgenDefineKeepsNoDangling(e: State, items: seq<ReportItem>)
    requires NoDangling(e)
    ensures NoDangling(NexgenDefineEach(e, items))
  {
    if items != [] {
      NexgenDefineKeepsNoDangling(e, items[..|items| - 1]);
    }
  }

  lemma {:induction false} NexgenNeverDangling(p: Policy, e: State, ms: seq<Message>)
    requires NoDangling(e)
    ensures NoDangling(NexgenReceive(p, e, ms))
  {
    if ms != [] {
      var m := ms[|ms| - 1];
      var f := NexgenReceive(p, e, ms[..|ms| - 1]);
      NexgenNeverDangling(p, e, ms[..|ms| - 1]);
      match m
      case S2F33(items) => NexgenDefineKeepsNoDangling(f, ReportDict(items));
      case S2F35(items) => if !Unknown(f, LinkDict(items)) { LinkKeepsNoDangling(f, LinkDict(items)); }
      case S2F37(_, _) =>
    }
  }

  /**
    After any S2F37 a refused band reports nothing and is absent from the read-back,
    and every other event is enabled exactly as on a plain set.
   */
  lemma RefusedBandStaysSilent(p: Policy, e: State, ceed: bool, ceids: seq<nat>, ceid: nat)
    ensures var f := NexgenHandle(p, e, S2F37(ceed, ceids)).state;
      var refused := p.refuseBand != "" && ceid in RefusedCeids(p);
      && (refused ==> !NexgenReports(p, f, ceid) && ceid !in NexgenEnabled(p, f))
      && (!refused ==> NexgenReports(p, f, ceid) == Commanded(Stored(e, ceid), ceed, ceids, ceid))
      && (ceid in NexgenEnabled(p, f) && ceid !in f.disabled ==> NexgenReports(p, f, ceid))
  {
  }

  /** The NexGen tool also refuses as a whole, and answers a delete-all by deleting all. */
  lemma NexgenNackChangesNothing(p: Policy, e: State, m: Message)
    ensures NexgenHandle(p, e, m).ack != 0 ==> NexgenHandle(p, e, m).state == e
    ensures m == S2F33([]) || m == S2F35([]) ==>
      NexgenHandle(p, e, m).ack == 0 && NexgenHandle(p, e, m).state == Handle(e, m).state
  {
  }

  // ---------- the base equipment as an object ----------

  /** `EquipmentSimulator`: the handlers update the subscription fields in place. */
  class EquipmentSimulator {
    var reportDefinitions: map<nat, seq<nat>>
    var eventLinks: map<nat, seq<nat>>
    var enabledEvents: set<nat>
    var disabledEvents: set<nat>
    var allEventsEnabled: bool
    var eventReportingConfigured: bool

    constructor ()
      ensures Abs() == POWER_ON
    {
      reportDefinitions, eventLinks := map[], map[];
      enabledEvents, disabledEvents := {}, {};
      allEventsEnabled, eventReportingConfigured := false, false;
    }

    function Abs(): State
      reads this
    {
      State(
        reportDefinitions, eventLinks, enabledEvents, disabledEvents, allEventsEnabled, eventReportingConfigured)
    }

    method OnS2F33(items: seq<ReportItem>) returns (ack: int)
      modifies this`reportDefinitions, this`eventLinks
      ensures Reply(Abs(), ack) == HandleS2F33(old(Abs()), items)
    {
      hide DefineEach;
      if items == [] {
        reportDefinitions, eventLinks := map[], map[];
        return 0;
      }
      var i := 0;
      while i < |items|
        modifies {}
        invariant i <= |items|
        invariant forall k :: 0 <= k < i ==> !(items[k].rptid in reportDefinitions && items[k].vids != [])
      {
        if items[i].rptid in reportDefinitions && items[i].vids != [] {
          return 3;
        }
        i := i + 1;
      }
      DefineItems(items);
      return 0;
    }

    method DefineItems(items: seq<ReportItem>)
      modifies this`reportDefinitions, this`eventLinks
      ensures Abs() == DefineEach(old(Abs()), items)
    {
      hide Unlinked;
      var i := 0;
      while i < |items|
        invariant i <= |items|
        invariant Abs() == DefineEach(old(Abs()), items[..i])
      {
        assert items[..i + 1][..i] == items[..i];
        var rptid, vids := items[i].rptid, items[i].vids;
        if vids == [] {
          reportDefinitions := reportDefinitions - {rptid};
          eventLinks := Unlinked(eventLinks, rptid);
        } else {
          reportDefinitions := reportDefinitions[rptid := vids];
        }
        i := i + 1;
      }
      assert items[..|items|] == items;
    }

    method OnS2F35(items: seq<LinkItem>) returns (ack: int)
      modifies this`eventLinks
      ensures Reply(Abs(), ack) == HandleS2F35(old(Abs()), items)
    {
      if items == [] {
        eventLinks := map[];
        return 0;
      }
      if Unknown(Abs(), items) {
        return 3;
      }
      var i := 0;
      while i < |items|
        invariant i <= |items|
        invariant Abs() == LinkEach(old(Abs()), items[..i])
      {
        assert items[..i + 1][..i] == items[..i];
        if items[i].rptids != [] {
          eventLinks := eventLinks[items[i].ceid := items[i].rptids];
        } else {
          eventLinks := eventLinks - {items[i].ceid};
        }
        i := i + 1;
      }
      assert items[..|items|] == items;
      return 0;
    }

    method OnS2F37(ceed: bool, ceids: seq<nat>) returns (ack: int)
      modifies this`enabledEvents, this`disabledEvents, this`allEventsEnabled, this`eventReportingConfigured
      ensures Reply(Abs(), ack) == HandleS2F37(old(Abs()), ceed, ceids)
    {
      eventReportingConfigured := true;
      if ceed {
        if ceids == [] {
          allEventsEnabled := true;
          enabledEvents, disabledEvents := {}, {};
        } else {
          enabledEvents := enabledEvents + Elements(ceids);
          disabledEvents := disabledEvents - Elements(ceids);
        }
      } else if ceids == [] {
        allEventsEnabled := false;
        enabledEvents, disabledEvents := {}, {};
      } else if allEventsEnabled {
        disabledEvents := disabledEvents + Elements(ceids);
      } else {
        enabledEvents := enabledEvents - Elements(ceids);
      }
      return 0;
    }

    method On(m: Message) returns (ack: int)
      modifies this
      ensures Reply(Abs(), ack) == Handle(old(Abs()), m)
    {
      match m
      case S2F33(items) => ack := OnS2F33(items);
      case S2F35(items) => ack := OnS2F35(items);
      case S2F37(ceed, ceids) => ack := OnS2F37(ceed, ceids);
    }
  }

  // ---------- the NexGen variant as an object ----------

  /** `NexGenMgSimulator`: the overriding handlers, over the fields it inherits. */
  class NexGenMgSimulator {
    const policy: Policy
    var reportDefinitions: map<nat, seq<nat>>
    var eventLinks: map<nat, seq<nat>>
    var enabledEvents: set<nat>
    var disabledEvents: set<nat>
    var allEventsEnabled: bool
    var eventReportingConfigured: bool
    var refusedCeids: set<nat>

    constructor (policy: Policy)
      ensures this.policy == policy && Abs() == POWER_ON && Valid()
    {
      this.policy := policy;
      reportDefinitions, eventLinks := map[], map[];
      enabledEvents, disabledEvents, refusedCeids := {}, {}, {};
      allEventsEnabled, eventReportingConfigured := false, false;
    }

    function Abs(): State
      reads this
    {
      State(
        reportDefinitions, eventLinks, enabledEvents, disabledEvents, allEventsEnabled, eventReportingConfigured)
    }

    ghost predicate Valid()
      reads this
    {
      refusedCeids == KnownRefused(policy, Abs())
    }

    method DefineParsed(parsed: seq<ReportItem>)
      modifies this`reportDefinitions, this`eventLinks
      ensures Abs() == NexgenDefineEach(old(Abs()), parsed)
    {
      hide NexgenUnlinked;
      var i := 0;
      while i < |parsed|
        invariant i <= |parsed|
        invariant Abs() == NexgenDefineEach(old(Abs()), parsed[..i])
      {
        assert parsed[..i + 1][..i] == parsed[..i];
        var rptid, vids := parsed[i].rptid, parsed[i].vids;
        if vids != [] {
          reportDefinitions := reportDefinitions[rptid := vids];
        } else {
          reportDefinitions := reportDefinitions - {rptid};
          eventLinks := NexgenUnlinked(eventLinks, rptid);
        }
        i := i + 1;
      }
      assert parsed[..|parsed|] == parsed;
    }

    method OnS2F33(items: seq<ReportItem>) returns (ack: int)
      requires Valid()
      modifies this`reportDefinitions, this`eventLinks
      ensures Valid() && Reply(Abs(), ack) == NexgenHandle(policy, old(Abs()), S2F33(items))
    {
      hide NexgenDefineEach, ReportDict, BandOfReport, RefusedCeids;
      var parsed := ReportDict(items);
      if policy.refuseBand != ""
        && exists i :: 0 <= i < |parsed| && BandOfReport(policy, parsed[i].rptid) == policy.refuseBand
      {
        return 4;
      }
      if items == [] {
        reportDefinitions, eventLinks := map[], map[];
        return 0;
      }
      DefineParsed(parsed);
      return 0;
    }

    method LinkParsed(parsed: seq<LinkItem>)
      modifies this`eventLinks
      ensures Abs() == LinkEach(old(Abs()), parsed)
    {
      var i := 0;
      while i < |parsed|
        invariant i <= |parsed|
        invariant Abs() == LinkEach(old(Abs()), parsed[..i])
      {
        assert parsed[..i + 1][..i] == parsed[..i];
        if parsed[i].rptids != [] {
          eventLinks := eventLinks[parsed[i].ceid := parsed[i].rptids];
        } else {
          eventLinks := eventLinks - {parsed[i].ceid};
        }
        i := i + 1;
      }
      assert parsed[..|parsed|] == parsed;
    }

    method OnS2F35(items: seq<LinkItem>) returns (ack: int)
      requires Valid()
      modifies this`eventLinks
      ensures Valid() && Reply(Abs(), ack) == NexgenHandle(policy, old(Abs()), S2F35(items))
    {
      hide LinkEach, LinkDict, RefusedCeids, Unknown;
      if items == [] {
        eventLinks := map[];
        return 0;
      }
      var parsed := LinkDict(items);
      if policy.refuseBand != ""
        && exists i :: 0 <= i < |parsed| && Get(policy.bands, parsed[i].ceid, "") == policy.refuseBand
      {
        return 4;
      }
      if Unknown(Abs(), parsed) {
        return 3;
      }
      LinkParsed(parsed);
      return 0;
    }

    method OnS2F37(ceed: bool, ceids: seq<nat>) returns (ack: int)
      requires Valid()
      modifies this`enabledEvents, this`disabledEvents, this`allEventsEnabled, this`eventReportingConfigured,
        this`refusedCeids
      ensures Valid() && Reply(Abs(), ack) == NexgenHandle(policy, old(Abs()), S2F37(ceed, ceids))
    {
      eventReportingConfigured := true;
      if ceed {
        if ceids != [] {
          enabledEvents := enabledEvents + Elements(ceids);
          disabledEvents := disabledEvents - Elements(ceids);
        } else {
          allEventsEnabled := true;
          enabledEvents, disabledEvents := {}, {};
        }
      } else if ceids != [] {
        if allEventsEnabled {
          disabledEvents := disabledEvents + Elements(ceids);
        } else {
          enabledEvents := enabledEvents - Elements(ceids);
        }
      } else {
        allEventsEnabled := false;
        enabledEvents, disabledEvents := {}, {};
      }
      if policy.refuseBand != "" {
        refusedCeids := RefusedCeids(policy);
        enabledEvents := enabledEvents - refusedCeids;
      }
      return 0;
    }

    /** The test in front of every event the tool sends. */
    method Sends(ceid: nat) returns (sends: bool)
      requires Valid()
      ensures sends == NexgenReports(policy, Abs(), ceid)
    {
      return !(ceid in refusedCeids || !IsEventEnabled(Abs(), ceid));
    }
  }
}
