/**
  The host side of event reporting, gateway/event_subscription.py, talking to
  the base equipment: define, link and enable one band at a time, with the
  delete-and-redefine path for a report identifier the tool already has.
 */
module Subscription {
  import opened Equipment

  datatype ReportDef = ReportDef(rptid: nat, dvids: seq<nat>, band: string)
  datatype EventDef = EventDef(ceid: nat, rptids: seq<nat>, enabled: bool, band: string)
  datatype Config = Config(reports: seq<ReportDef>, events: seq<EventDef>)

  // ---------- the line ----------

  /**
    What becomes of one message: the tool handles it and its reply arrives, the
    tool refuses it as a whole with some nonzero code, or no reply comes back,
    whether or not the tool handled it.
   */
  datatype Fate = Answered | Refused(code: int) | Silent(handled: bool)

  /** The tool at the other end of the line: the base equipment, or the NexGen MG with its policy. */
  datatype Maker = Base | Nexgen(policy: Policy)

  /** What becomes of each message, and which tool answers. */
  datatype Network = Network(fate: nat -> Fate, tool: Maker)

  function Respond(maker: Maker, e: State, m: Message): Reply {
    match maker
    case Base => Handle(e, m)
    case Nexgen(p) => NexgenHandle(p, e, m)
  }

  /** The tool and everything sent to it so far. */
  datatype Line = Line(tool: State, sent: seq<Message>)

  /** `ack` is -1 when there is no reply, as `_extract_ack` has it. */
  datatype Exchange = Exchange(line: Line, ack: int)

  function Send(l: Line, m: Message, net: Network): Exchange {
    var handled := Respond(net.tool, l.tool, m);
    match net.fate(|l.sent|)
    case Answered => Exchange(Line(handled.state, l.sent + [m]), handled.ack)
    case Refused(code) => Exchange(Line(l.tool, l.sent + [m]), if code == 0 then -1 else code)
    case Silent(done) => Exchange(Line(if done then handled.state else l.tool, l.sent + [m]), -1)
  }

  // ---------- the three steps of a band ----------

  datatype Done = Done(line: Line, ok: bool)

  function Definitions(reports: seq<ReportDef>): seq<ReportItem> {
    seq(|reports|, i requires 0 <= i < |reports| => ReportItem(reports[i].rptid, reports[i].dvids))
  }

  function Deletions(reports: seq<ReportDef>): seq<ReportItem> {
    seq(|reports|, i requires 0 <= i < |reports| => ReportItem(reports[i].rptid, []))
  }

  function DefineReports(l: Line, reports: seq<ReportDef>, net: Network): Done {
    if reports == [] then Done(l, true)
    else
      var first := Send(l, S2F33(Definitions(reports)), net);
      if first.ack == 0 then Done(first.line, true)
      else if first.ack == 3 then
        var deleted := Send(first.line, S2F33(Deletions(reports)), net);
        if deleted.ack != 0 then Done(deleted.line, false)
        else
          var again := Send(deleted.line, S2F33(Definitions(reports)), net);
          Done(again.line, again.ack == 0)
      else Done(first.line, false)
  }

  /** Events without a report are not sent: an empty list would delete their link. */
  function Links(events: seq<EventDef>): seq<LinkItem> {
    if events == [] then []
    else
      var e := events[|events| - 1];
      Links(events[..|events| - 1]) + (if e.rptids == [] then [] else [LinkItem(e.ceid, e.rptids)])
  }

  function LinkEventReports(l: Line, events: seq<EventDef>, net: Network): Done {
    if Links(events) == [] then Done(l, true)
    else
      var x := Send(l, S2F35(Links(events)), net);
      Done(x.line, x.ack == 0)
  }

  function EnabledCeids(events: seq<EventDef>): seq<nat> {
    if events == [] then []
    else
      var e := events[|events| - 1];
      EnabledCeids(events[..|events| - 1]) + (if e.enabled then [e.ceid] else [])
  }

  function EnableEvents(l: Line, enable: bool, events: seq<EventDef>, net: Network): Done {
    if EnabledCeids(events) == [] then Done(l, true)
    else
      var x := Send(l, S2F37(enable, EnabledCeids(events)), net);
      Done(x.line, x.ack == 0)
  }

  // ---------- bands ----------

  function AddBand(order: seq<string>, band: string): seq<string> {
    if band in order then order else order + [band]
  }

  function ReportBands(reports: seq<ReportDef>): seq<string> {
    if reports == [] then [] else AddBand(ReportBands(reports[..|reports| - 1]), reports[|reports| - 1].band)
  }

  /** Bands in order of first mention, reports before events. */
  function BandOrder(reports: seq<ReportDef>, events: seq<EventDef>): seq<string> {
    if events == [] then ReportBands(reports)
    else AddBand(BandOrder(reports, events[..|events| - 1]), events[|events| - 1].band)
  }

  function ReportsOf(reports: seq<ReportDef>, band: string): seq<ReportDef> {
    if reports == [] then []
    else
      var r := reports[|reports| - 1];
      ReportsOf(reports[..|reports| - 1], band) + (if r.band == band then [r] else [])
  }

  function EventsOf(events: seq<EventDef>, band: string): seq<EventDef> {
    if events == [] then []
    else
      var e := events[|events| - 1];
      EventsOf(events[..|events| - 1], band) + (if e.band == band then [e] else [])
  }

  // ---------- the whole sequence ----------

  const RESET: seq<Message> := [S2F37(false, []), S2F35([]), S2F33([])]

  /** Each step is tried whatever the others answered. */
  function ResetAll(l: Line, net: Network): Done {
    var a := Send(l, RESET[0], net);
    var b := Send(a.line, RESET[1], net);
    var c := Send(b.line, RESET[2], net);
    Done(c.line, a.ack == 0 && b.ack == 0 && c.ack == 0)
  }

  function SetupBand(l: Line, cfg: Config, band: string, net: Network): Done {
    var defined := DefineReports(l, ReportsOf(cfg.reports, band), net);
    if !defined.ok then defined
    else
      var linked := LinkEventReports(defined.line, EventsOf(cfg.events, band), net);
      if !linked.ok then linked
      else EnableEvents(linked.line, true, EventsOf(cfg.events, band), net)
  }

  /** `bandResults` has one verdict for each band that was attempted. */
  datatype Outcome = Outcome(line: Line, bandResults: map<string, bool>, abandoned: bool)

  /** `go(i)` is what `should_continue` answers before band `i`. */
  function SetupBands(l: Line, cfg: Config, bands: seq<string>, go: nat -> bool, net: Network): Outcome {
    if bands == [] then Outcome(l, map[], false)
    else
      var n := |bands| - 1;
      var before := SetupBands(l, cfg, bands[..n], go, net);
      if before.abandoned || !go(n) then before.(abandoned := true)
      else
        var d := SetupBand(before.line, cfg, bands[n], net);
        Outcome(d.line, before.bandResults[bands[n] := d.ok], false)
  }

  function SetupSubscriptions(
    l: Line, cfg: Config, resetFirst: bool, goReset: bool, go: nat -> bool, net: Network): Outcome
  {
    var start := if resetFirst && goReset then ResetAll(l, net).line else l;
    SetupBands(start, cfg, BandOrder(cfg.reports, cfg.events), go, net)
  }

  // ---------- what "in place" means ----------

  ghost predicate ReportInPlace(e: State, r: ReportDef) {
    r.rptid in e.reports && e.reports[r.rptid] == r.dvids
  }

  ghost predicate LinkInPlace(e: State, v: EventDef) {
    v.rptids != [] ==> v.ceid in e.links && e.links[v.ceid] == v.rptids
  }

  /** The tool refuses the band its own table puts the event in. */
  predicate RefusesEvent(maker: Maker, ceid: nat) {
    maker.Nexgen? && maker.policy.refuseBand != "" && ceid in RefusedCeids(maker.policy)
  }

  ghost predicate EnableInPlace(maker: Maker, e: State, v: EventDef) {
    v.enabled ==> e.configured && (RefusesEvent(maker, v.ceid) || Stored(e, v.ceid))
  }

  /** Whether the tool sends the event. */
  predicate Sends(maker: Maker, e: State, ceid: nat) {
    match maker
    case Base => IsEventEnabled(e, ceid)
    case Nexgen(p) => NexgenReports(p, e, ceid)
  }

  /** An enabled event that is in place is sent, unless the tool refuses its band. */
  lemma InPlaceIsSent(maker: Maker, e: State, v: EventDef)
    requires v.enabled && EnableInPlace(maker, e, v)
    ensures Sends(maker, e, v.ceid) <==> !RefusesEvent(maker, v.ceid)
  {
  }

  ghost predicate BandInPlace(maker: Maker, e: State, cfg: Config, band: string) {
    && (forall i :: 0 <= i < |cfg.reports| && cfg.reports[i].band == band ==> ReportInPlace(e, cfg.reports[i]))
    && (forall i :: 0 <= i < |cfg.events| && cfg.events[i].band == band ==>
        LinkInPlace(e, cfg.events[i]) && EnableInPlace(maker, e, cfg.events[i]))
  }

  /** Identifiers are unique and no report is empty, since an empty one means deletion. */
  ghost predicate WellFormed(cfg: Config) {
    && (forall i, j :: 0 <= i < j < |cfg.reports| ==> cfg.reports[i].rptid != cfg.reports[j].rptid)
    && (forall i, j :: 0 <= i < j < |cfg.events| ==> cfg.events[i].ceid != cfg.events[j].ceid)
    && (forall i :: 0 <= i < |cfg.reports| ==> cfg.reports[i].dvids != [])
  }

  /** No event is linked to a report of another band. */
  ghost predicate Separated(cfg: Config) {
    forall i, j :: 0 <= i < |cfg.events| && 0 <= j < |cfg.reports| ==>
      cfg.reports[j].rptid in cfg.events[i].rptids ==> cfg.reports[j].band == cfg.events[i].band
  }

  /** Every report an event is linked to is configured in the event's own band. */
  ghost predicate Banded(cfg: Config) {
    forall i, r :: 0 <= i < |cfg.events| && r in cfg.events[i].rptids ==>
      exists j :: 0 <= j < |cfg.reports| && cfg.reports[j].rptid == r && cfg.reports[j].band == cfg.events[i].band
  }

  // ---------- lists ----------

  lemma {:induction false} ReportsOfExactly(reports: seq<ReportDef>, band: string, r: ReportDef)
    ensures r in ReportsOf(reports, band) <==> r in reports && r.band == band
  {
    if reports != [] {
      ReportsOfExactly(reports[..|reports| - 1], band, r);
      assert reports == reports[..|reports| - 1] + [reports[|reports| - 1]];
    }
  }

  lemma {:induction false} EventsOfExactly(events: seq<EventDef>, band: string, v: EventDef)
    ensures v in EventsOf(events, band) <==> v in events && v.band == band
  {
    if events != [] {
      EventsOfExactly(events[..|events| - 1], band, v);
      assert events == events[..|events| - 1] + [events[|events| - 1]];
    }
  }

  predicate Wants(v: EventDef, x: LinkItem) {
    v.ceid == x.ceid && v.rptids == x.rptids && x.rptids != []
  }

  ghost predicate Wanted(events: seq<EventDef>, x: LinkItem) {
    exists v :: v in events && Wants(v, x)
  }

  lemma WantedSnoc(events: seq<EventDef>, v: EventDef, x: LinkItem)
    ensures Wanted(events + [v], x) <==> Wanted(events, x) || Wants(v, x)
  {
  }

  lemma {:induction false} LinksExactly(events: seq<EventDef>, x: LinkItem)
    ensures x in Links(events) <==> Wanted(events, x)
  {
    if events != [] {
      var n := |events| - 1;
      LinksExactly(events[..n], x);
      assert events == events[..n] + [events[n]];
      WantedSnoc(events[..n], events[n], x);
    }
  }

  lemma {:induction false} EnabledExactly(events: seq<EventDef>, c: nat)
    ensures c in EnabledCeids(events) <==> exists i :: 0 <= i < |events| && events[i].enabled && events[i].ceid == c
  {
    if events != [] {
      var n := |events| - 1;
      EnabledExactly(events[..n], c);
      assert forall i :: 0 <= i < n ==> events[..n][i] == events[i];
    }
  }

  lemma {:induction false} BandOrderExactly(reports: seq<ReportDef>, events: seq<EventDef>, band: string)
    ensures band in BandOrder(reports, events) <==>
      (exists r :: r in reports && r.band == band) || (exists v :: v in events && v.band == band)
  {
    if events != [] {
      var n := |events| - 1;
      BandOrderExactly(reports, events[..n], band);
      assert events == events[..n] + [events[n]];
    } else if reports != [] {
      var n := |reports| - 1;
      BandOrderExactly(reports[..n], events, band);
      assert reports == reports[..n] + [reports[n]];
    }
  }

  // ---------- what one message does to the tool ----------

  /** Defining changes only the listed reports, and links only where they name a deleted one. */
  lemma {:induction false} DefineEachEffect(e: State, items: seq<ReportItem>, rptid: nat, ceid: nat)
    ensures var f := DefineEach(e, items);
      && ((forall i :: 0 <= i < |items| ==> items[i].rptid != rptid) ==>
          (rptid in f.reports <==> rptid in e.reports)
          && (rptid in e.reports ==> f.reports[rptid] == e.reports[rptid]))
      && (ceid in e.links && (forall i :: 0 <= i < |items| ==> items[i].rptid !in e.links[ceid]) ==>
          ceid in f.links && f.links[ceid] == e.links[ceid])
      && f.enabled == e.enabled && f.disabled == e.disabled
      && f.allEnabled == e.allEnabled && f.configured == e.configured
  {
    if items != [] {
      var n := |items| - 1;
      assert forall i :: 0 <= i < n ==> items[..n][i] == items[i];
      DefineEachEffect(e, items[..n], rptid, ceid);
    }
  }

  /** With unique identifiers each listed report ends as listed: defined, or gone. */
  lemma {:induction false} DefineEachDefines(e: State, items: seq<ReportItem>, k: nat)
    requires k < |items|
    requires forall i, j :: 0 <= i < j < |items| ==> items[i].rptid != items[j].rptid
    ensures var f := DefineEach(e, items);
      if items[k].vids == [] then items[k].rptid !in f.reports
      else items[k].rptid in f.reports && f.reports[items[k].rptid] == items[k].vids
  {
    var n := |items| - 1;
    assert forall i :: 0 <= i < n ==> items[..n][i] == items[i];
    if k < n {
      DefineEachDefines(e, items[..n], k);
    }
  }

  lemma {:induction false} LinkEachEffect(e: State, items: seq<LinkItem>, ceid: nat)
    ensures var f := LinkEach(e, items);
      && ((forall i :: 0 <= i < |items| ==> items[i].ceid != ceid) ==>
          (ceid in f.links <==> ceid in e.links) && (ceid in e.links ==> f.links[ceid] == e.links[ceid]))
      && f == e.(links := f.links)
  {
    if items != [] {
      var n := |items| - 1;
      assert forall i :: 0 <= i < n ==> items[..n][i] == items[i];
      LinkEachEffect(e, items[..n], ceid);
    }
  }

  /** If every listing of an event agrees, the event ends linked as listed. */
  lemma {:induction false} LinkEachLinks(e: State, items: seq<LinkItem>, x: LinkItem)
    requires x in items && x.rptids != []
    requires forall i :: 0 <= i < |items| && items[i].ceid == x.ceid ==> items[i] == x
    ensures var f := LinkEach(e, items);
      x.ceid in f.links && f.links[x.ceid] == x.rptids
  {
    var n := |items| - 1;
    assert forall i :: 0 <= i < n ==> items[..n][i] == items[i];
    if items[n].ceid != x.ceid {
      LinkEachLinks(e, items[..n], x);
    }
  }

  // ---------- the same for the NexGen tool ----------

  /** Read into a dictionary, a list loses no identifier. */
  lemma {:induction false} ReportDictCovers(items: seq<ReportItem>, x: ReportItem)
    requires x in items
    ensures exists i :: 0 <= i < |ReportDict(items)| && ReportDict(items)[i].rptid == x.rptid
  {
    var n := |items| - 1;
    var last := items[n];
    assert last in ReportDict(items);
    if x in items[..n] {
      ReportDictCovers(items[..n], x);
      var j :| 0 <= j < |ReportDict(items[..n])| && ReportDict(items[..n])[j].rptid == x.rptid;
      assert ReportDict(items)[j].rptid == x.rptid;
    }
  }

  lemma {:induction false} LinkDictCovers(items: seq<LinkItem>, x: LinkItem)
    requires x in items
    ensures exists i :: 0 <= i < |LinkDict(items)| && LinkDict(items)[i].ceid == x.ceid
  {
    var n := |items| - 1;
    var last := items[n];
    assert last in LinkDict(items);
    if x in items[..n] {
      LinkDictCovers(items[..n], x);
      var j :| 0 <= j < |LinkDict(items[..n])| && LinkDict(items[..n])[j].ceid == x.ceid;
      assert LinkDict(items)[j].ceid == x.ceid;
    }
  }

  lemma {:induction false} NexgenDefineEachEffect(e: State, items: seq<ReportItem>, rptid: nat, ceid: nat)
    ensures var f := NexgenDefineEach(e, items);
      && ((forall i :: 0 <= i < |items| ==> items[i].rptid != rptid) ==>
          (rptid in f.reports <==> rptid in e.reports)
          && (rptid in e.reports ==> f.reports[rptid] == e.reports[rptid]))
      && (ceid in e.links && e.links[ceid] != []
          && (forall i :: 0 <= i < |items| ==> items[i].rptid !in e.links[ceid]) ==>
          ceid in f.links && f.links[ceid] == e.links[ceid])
      && f.enabled == e.enabled && f.disabled == e.disabled
      && f.allEnabled == e.allEnabled && f.configured == e.configured
  {
    if items != [] {
      var n := |items| - 1;
      assert forall i :: 0 <= i < n ==> items[..n][i] == items[i];
      NexgenDefineEachEffect(e, items[..n], rptid, ceid);
    }
  }

  lemma {:induction false} NexgenDefineEachDefines(e: State, items: seq<ReportItem>, k: nat)
    requires k < |items| && items[k].vids != []
    requires forall i, j :: 0 <= i < j < |items| ==> items[i].rptid != items[j].rptid
    ensures var f := NexgenDefineEach(e, items);
      items[k].rptid in f.reports && f.reports[items[k].rptid] == items[k].vids
  {
    var n := |items| - 1;
    assert forall i :: 0 <= i < n ==> items[..n][i] == items[i];
    if k < n {
      NexgenDefineEachDefines(e, items[..n], k);
    }
  }

  // ---------- what one message does, whichever the tool ----------

  /** A define that lists something changes only what it lists, and links only where they name it. */
  lemma DefineEffect(maker: Maker, e: State, items: seq<ReportItem>, rptid: nat, ceid: nat)
    requires items != []
    ensures var f := Respond(maker, e, S2F33(items)).state;
      && ((forall i :: 0 <= i < |items| ==> items[i].rptid != rptid) ==>
          (rptid in f.reports <==> rptid in e.reports)
          && (rptid in e.reports ==> f.reports[rptid] == e.reports[rptid]))
      && (ceid in e.links && e.links[ceid] != []
          && (forall i :: 0 <= i < |items| ==> items[i].rptid !in e.links[ceid]) ==>
          ceid in f.links && f.links[ceid] == e.links[ceid])
      && f.enabled == e.enabled && f.disabled == e.disabled
      && f.allEnabled == e.allEnabled && f.configured == e.configured
  {
    hide DefineEach, NexgenDefineEach, ReportDict, BandOfReport;
    match maker
    case Base => DefineEachEffect(e, items, rptid, ceid);
    case Nexgen(p) =>
      NexgenDefineEachEffect(e, ReportDict(items), rptid, ceid);
      var d := ReportDict(items);
      forall i | 0 <= i < |d| ensures exists j :: 0 <= j < |items| && items[j] == d[i] {
        assert d[i] in items;
      }
  }

  /** A link message that lists something changes only the links it lists. */
  lemma LinkEffect(maker: Maker, e: State, items: seq<LinkItem>, ceid: nat)
    requires items != []
    ensures var f := Respond(maker, e, S2F35(items)).state;
      && ((forall i :: 0 <= i < |items| ==> items[i].ceid != ceid) ==>
          (ceid in f.links <==> ceid in e.links) && (ceid in e.links ==> f.links[ceid] == e.links[ceid]))
      && f == e.(links := f.links)
  {
    hide LinkEach, LinkDict, Unknown;
    match maker
    case Base => LinkEachEffect(e, items, ceid);
    case Nexgen(p) =>
      var d := LinkDict(items);
      LinkEachEffect(e, d, ceid);
      forall i | 0 <= i < |d| ensures exists j :: 0 <= j < |items| && items[j] == d[i] {
        assert d[i] in items;
      }
  }

  /** Enabling listed events enables them and no others, but for those the tool refuses. */
  lemma EnableEffect(maker: Maker, e: State, ceids: seq<nat>, ceid: nat)
    requires ceids != []
    ensures var f := Respond(maker, e, S2F37(true, ceids)).state;
      && f.reports == e.reports && f.links == e.links && f.configured
      && (!RefusesEvent(maker, ceid) ==> Stored(f, ceid) == Commanded(Stored(e, ceid), true, ceids, ceid))
  {
  }

  // ---------- one band against the others ----------

  ghost predicate ReportIn(cfg: Config, band: string, rptid: nat) {
    exists j :: 0 <= j < |cfg.reports| && cfg.reports[j].rptid == rptid && cfg.reports[j].band == band
  }

  ghost predicate EventIn(cfg: Config, band: string, ceid: nat) {
    exists j :: 0 <= j < |cfg.events| && cfg.events[j].ceid == ceid && cfg.events[j].band == band
  }

  /** A message that lists something, and only identifiers of the band. */
  ghost predicate Own(cfg: Config, band: string, m: Message) {
    match m
    case S2F33(items) => items != [] && forall i :: 0 <= i < |items| ==> ReportIn(cfg, band, items[i].rptid)
    case S2F35(items) => items != [] && forall i :: 0 <= i < |items| ==> EventIn(cfg, band, items[i].ceid)
    case S2F37(ceed, ceids) => ceed && ceids != []
  }

  /** A band's own messages leave every other band in place. */
  lemma OthersStayInPlace(maker: Maker, cfg: Config, band: string, other: string, e: State, m: Message)
    requires WellFormed(cfg) && Separated(cfg) && Own(cfg, band, m) && other != band
    requires BandInPlace(maker, e, cfg, other)
    ensures BandInPlace(maker, Respond(maker, e, m).state, cfg, other)
  {
    hide Respond, Stored, RefusesEvent;
    var f := Respond(maker, e, m).state;
    forall i | 0 <= i < |cfg.reports| && cfg.reports[i].band == other
      ensures ReportInPlace(f, cfg.reports[i])
    {
      var r := cfg.reports[i];
      assert ReportInPlace(e, r);
      assert !ReportIn(cfg, band, r.rptid);
      match m
      case S2F33(items) => DefineEffect(maker, e, items, r.rptid, 0);
      case S2F35(items) => LinkEffect(maker, e, items, 0);
      case S2F37(_, ceids) => EnableEffect(maker, e, ceids, 0);
    }
    forall i | 0 <= i < |cfg.events| && cfg.events[i].band == other
      ensures LinkInPlace(f, cfg.events[i]) && EnableInPlace(maker, f, cfg.events[i])
    {
      EventStaysInPlace(maker, cfg, band, cfg.events[i], e, m);
    }
  }

  lemma EventStaysInPlace(maker: Maker, cfg: Config, band: string, v: EventDef, e: State, m: Message)
    requires WellFormed(cfg) && Separated(cfg) && Own(cfg, band, m) && v in cfg.events && v.band != band
    requires LinkInPlace(e, v) && EnableInPlace(maker, e, v)
    ensures var f := Respond(maker, e, m).state; LinkInPlace(f, v) && EnableInPlace(maker, f, v)
  {
    hide Respond, RefusesEvent;
    assert !EventIn(cfg, band, v.ceid);
    match m
    case S2F33(items) =>
      forall k | 0 <= k < |items| ensures items[k].rptid !in v.rptids {
        assert ReportIn(cfg, band, items[k].rptid);
      }
      DefineEffect(maker, e, items, 0, v.ceid);
    case S2F35(items) => LinkEffect(maker, e, items, v.ceid);
    case S2F37(_, ceids) => EnableEffect(maker, e, ceids, v.ceid);
  }

  /** Whatever becomes of the message, the tool handled it or is as it was. */
  lemma SendEither(l: Line, m: Message, net: Network)
    ensures var x := Send(l, m, net);
      && (x.line.tool == l.tool || x.line.tool == Respond(net.tool, l.tool, m).state)
      && (x.ack == 0 ==>
          x.line.tool == Respond(net.tool, l.tool, m).state && Respond(net.tool, l.tool, m).ack == 0)
      && x.line.sent == l.sent + [m]
  {
    hide Respond;
  }

  /** From `l` to `k` only messages of the band were sent, and the other band stayed in place. */
  ghost predicate Contained(maker: Maker, cfg: Config, band: string, l: Line, k: Line) {
    && |l.sent| <= |k.sent| && k.sent[..|l.sent|] == l.sent
    && (forall i :: |l.sent| <= i < |k.sent| ==> Own(cfg, band, k.sent[i]))
    && (forall other :: other != band && BandInPlace(maker, l.tool, cfg, other) ==> BandInPlace(maker, k.tool, cfg, other))
  }

  lemma ContainedTrans(maker: Maker, cfg: Config, band: string, l: Line, k: Line, j: Line)
    requires Contained(maker, cfg, band, l, k) && Contained(maker, cfg, band, k, j)
    ensures Contained(maker, cfg, band, l, j)
  {
  }

  lemma SendContained(cfg: Config, band: string, l: Line, m: Message, net: Network)
    requires WellFormed(cfg) && Separated(cfg) && Own(cfg, band, m)
    ensures Contained(net.tool, cfg, band, l, Send(l, m, net).line)
  {
    hide Respond, BandInPlace, Own, WellFormed, Separated;
    SendEither(l, m, net);
    forall other | other != band && BandInPlace(net.tool, l.tool, cfg, other)
      ensures BandInPlace(net.tool, Respond(net.tool, l.tool, m).state, cfg, other)
    {
      OthersStayInPlace(net.tool, cfg, band, other, l.tool, m);
    }
  }

  // ---------- what an accepted step leaves ----------

  /** The configuration's reports of a band, as `setup_subscriptions` passes them. */
  ghost predicate BandReports(cfg: Config, band: string, reports: seq<ReportDef>) {
    && (forall r :: r in reports <==> r in cfg.reports && r.band == band)
    && UniqueReports(reports)
  }

  ghost predicate UniqueReports(reports: seq<ReportDef>) {
    forall i, j :: 0 <= i < j < |reports| ==> reports[i].rptid != reports[j].rptid
  }

  lemma UniqueSnoc(reports: seq<ReportDef>, r: ReportDef)
    requires UniqueReports(reports) && forall i :: 0 <= i < |reports| ==> reports[i].rptid != r.rptid
    ensures UniqueReports(reports + [r])
  {
  }

  lemma {:induction false} ReportsOfUnique(reports: seq<ReportDef>, band: string)
    requires UniqueReports(reports)
    ensures UniqueReports(ReportsOf(reports, band))
  {
    if reports != [] {
      var n := |reports| - 1;
      ReportsOfUnique(reports[..n], band);
      var rs := ReportsOf(reports[..n], band);
      forall i | 0 <= i < |rs| ensures rs[i].rptid != reports[n].rptid {
        ReportsOfExactly(reports[..n], band, rs[i]);
      }
      UniqueSnoc(rs, reports[n]);
    }
  }

  lemma BandReportsHold(cfg: Config, band: string)
    requires WellFormed(cfg)
    ensures BandReports(cfg, band, ReportsOf(cfg.reports, band))
  {
    ReportsOfUnique(cfg.reports, band);
    forall r ensures r in ReportsOf(cfg.reports, band) <==> r in cfg.reports && r.band == band {
      ReportsOfExactly(cfg.reports, band, r);
    }
  }

  lemma DefinitionsOwn(cfg: Config, band: string, reports: seq<ReportDef>)
    requires BandReports(cfg, band, reports) && reports != []
    ensures Own(cfg, band, S2F33(Definitions(reports))) && Own(cfg, band, S2F33(Deletions(reports)))
  {
  }

  ghost predicate ReportsInPlace(e: State, reports: seq<ReportDef>) {
    forall i :: 0 <= i < |reports| ==> ReportInPlace(e, reports[i])
  }

  /** An acknowledged define message defines its reports exactly. */
  lemma AckedDefine(maker: Maker, cfg: Config, band: string, e: State, reports: seq<ReportDef>)
    requires WellFormed(cfg) && BandReports(cfg, band, reports) && reports != []
    requires Respond(maker, e, S2F33(Definitions(reports))).ack == 0
    ensures ReportsInPlace(Respond(maker, e, S2F33(Definitions(reports))).state, reports)
  {
    hide DefineEach, NexgenDefineEach, ReportDict, BandOfReport;
    var items := Definitions(reports);
    forall i | 0 <= i < |reports|
      ensures ReportInPlace(Respond(maker, e, S2F33(items)).state, reports[i])
    {
      assert reports[i] in cfg.reports;
      match maker
      case Base => DefineEachDefines(e, items, i);
      case Nexgen(p) =>
        assert items[i] in items;
        ReportDictCovers(items, items[i]);
        var d := ReportDict(items);
        var k :| 0 <= k < |d| && d[k].rptid == items[i].rptid;
        assert d[k] in items;
        var j :| 0 <= j < |items| && items[j] == d[k];
        NexgenDefineEachDefines(e, d, k);
    }
  }

  lemma DefineReportsStep(l: Line, cfg: Config, band: string, net: Network)
    requires WellFormed(cfg) && Separated(cfg)
    ensures var reports := ReportsOf(cfg.reports, band);
      var d := DefineReports(l, reports, net);
      Contained(net.tool, cfg, band, l, d.line) && (d.ok ==> ReportsInPlace(d.line.tool, reports))
  {
    hide WellFormed, Separated, Own, Respond, BandInPlace, BandReports, Send, Contained;
    var reports := ReportsOf(cfg.reports, band);
    BandReportsHold(cfg, band);
    if reports == [] {
      NothingSent(net.tool, cfg, band, l);
    } else {
      var define, delete := S2F33(Definitions(reports)), S2F33(Deletions(reports));
      DefinitionsOwn(cfg, band, reports);
      var first := Send(l, define, net);
      SendContained(cfg, band, l, define, net);
      SendEither(l, define, net);
      if first.ack == 0 {
        AckedDefine(net.tool, cfg, band, l.tool, reports);
      } else if first.ack == 3 {
        var deleted := Send(first.line, delete, net);
        SendContained(cfg, band, first.line, delete, net);
        ContainedTrans(net.tool, cfg, band, l, first.line, deleted.line);
        if deleted.ack == 0 {
          var again := Send(deleted.line, define, net);
          SendContained(cfg, band, deleted.line, define, net);
          SendEither(deleted.line, define, net);
          ContainedTrans(net.tool, cfg, band, l, deleted.line, again.line);
          if again.ack == 0 {
            AckedDefine(net.tool, cfg, band, deleted.line.tool, reports);
          }
        }
      }
    }
  }

  lemma NothingSent(maker: Maker, cfg: Config, band: string, l: Line)
    ensures Contained(maker, cfg, band, l, l)
  {
  }

  /** Events of a band, each once. */
  ghost predicate BandEvents(cfg: Config, band: string, events: seq<EventDef>) {
    forall v :: v in events <==> v in cfg.events && v.band == band
  }

  lemma BandEventsHold(cfg: Config, band: string)
    ensures BandEvents(cfg, band, EventsOf(cfg.events, band))
  {
    forall v ensures v in EventsOf(cfg.events, band) <==> v in cfg.events && v.band == band {
      EventsOfExactly(cfg.events, band, v);
    }
  }

  lemma LinksOwn(cfg: Config, band: string, events: seq<EventDef>)
    requires BandEvents(cfg, band, events) && Links(events) != []
    ensures Own(cfg, band, S2F35(Links(events)))
  {
    forall i | 0 <= i < |Links(events)| ensures EventIn(cfg, band, Links(events)[i].ceid) {
      LinksExactly(events, Links(events)[i]);
      var k :| 0 <= k < |events| && events[k].ceid == Links(events)[i].ceid;
      assert events[k] in cfg.events;
    }
  }

  ghost predicate LinksInPlace(e: State, events: seq<EventDef>) {
    forall i :: 0 <= i < |events| ==> LinkInPlace(e, events[i])
  }

  /** An acknowledged link message links its events exactly. */
  lemma AckedLink(maker: Maker, cfg: Config, band: string, e: State, events: seq<EventDef>)
    requires WellFormed(cfg) && BandEvents(cfg, band, events)
    requires Links(events) != [] ==> Respond(maker, e, S2F35(Links(events))).ack == 0
    ensures LinksInPlace(if Links(events) == [] then e else Respond(maker, e, S2F35(Links(events))).state, events)
  {
    hide LinkEach, LinkDict, Links, Unknown;
    var items := Links(events);
    forall i | 0 <= i < |events| && events[i].rptids != []
      ensures items != [] && LinkInPlace(Respond(maker, e, S2F35(items)).state, events[i])
    {
      var x := LinkItem(events[i].ceid, events[i].rptids);
      LinksExactly(events, x);
      assert events[i] in cfg.events;
      forall j | 0 <= j < |items| && items[j].ceid == x.ceid ensures items[j] == x {
        LinksExactly(events, items[j]);
        var k :| 0 <= k < |events| && events[k].ceid == items[j].ceid && events[k].rptids == items[j].rptids;
        assert events[k] in cfg.events;
      }
      match maker
      case Base => LinkEachLinks(e, items, x);
      case Nexgen(p) =>
        LinkDictCovers(items, x);
        var d := LinkDict(items);
        forall j | 0 <= j < |d| && d[j].ceid == x.ceid ensures d[j] == x {
          assert d[j] in items;
        }
        LinkEachLinks(e, d, x);
    }
  }

  lemma LinkStep(l: Line, cfg: Config, band: string, net: Network)
    requires WellFormed(cfg) && Separated(cfg)
    ensures var events := EventsOf(cfg.events, band);
      var d := LinkEventReports(l, events, net);
      && Contained(net.tool, cfg, band, l, d.line)
      && d.line.tool.reports == l.tool.reports
      && (d.ok ==> LinksInPlace(d.line.tool, events))
  {
    hide WellFormed, Separated, Own, BandInPlace, BandEvents, Contained, Links, Respond;
    var events := EventsOf(cfg.events, band);
    BandEventsHold(cfg, band);
    var m := S2F35(Links(events));
    if Links(events) == [] {
      NothingSent(net.tool, cfg, band, l);
      AckedLink(net.tool, cfg, band, l.tool, events);
    } else {
      LinksOwn(cfg, band, events);
      SendContained(cfg, band, l, m, net);
      SendEither(l, m, net);
      LinkEffect(net.tool, l.tool, Links(events), 0);
      if Send(l, m, net).ack == 0 { AckedLink(net.tool, cfg, band, l.tool, events); }
    }
  }

  ghost predicate EnablesInPlace(maker: Maker, e: State, events: seq<EventDef>) {
    forall i :: 0 <= i < |events| ==> EnableInPlace(maker, e, events[i])
  }

  lemma EnableStep(l: Line, cfg: Config, band: string, net: Network)
    requires WellFormed(cfg) && Separated(cfg)
    ensures var events := EventsOf(cfg.events, band);
      var d := EnableEvents(l, true, events, net);
      && Contained(net.tool, cfg, band, l, d.line)
      && d.line.tool.reports == l.tool.reports && d.line.tool.links == l.tool.links
      && (d.ok ==> EnablesInPlace(net.tool, d.line.tool, events))
  {
    hide WellFormed, Separated, BandInPlace, Contained, EnabledCeids, Respond, RefusesEvent;
    var events := EventsOf(cfg.events, band);
    var m := S2F37(true, EnabledCeids(events));
    forall i | 0 <= i < |events| && events[i].enabled ensures events[i].ceid in EnabledCeids(events) {
      EnabledExactly(events, events[i].ceid);
    }
    if EnabledCeids(events) == [] {
      NothingSent(net.tool, cfg, band, l);
    } else {
      assert Own(cfg, band, m);
      SendContained(cfg, band, l, m, net);
      SendEither(l, m, net);
      EnableEffect(net.tool, l.tool, m.ceids, 0);
      forall i | 0 <= i < |events| {
        EnableEffect(net.tool, l.tool, m.ceids, events[i].ceid);
      }
    }
  }

  /** One band: its messages are its own, the others stay in place, and if it is accepted it is in place. */
  lemma BandStep(l: Line, cfg: Config, band: string, net: Network)
    requires WellFormed(cfg) && Separated(cfg)
    ensures var d := SetupBand(l, cfg, band, net);
      Contained(net.tool, cfg, band, l, d.line) && (d.ok ==> BandInPlace(net.tool, d.line.tool, cfg, band))
  {
    hide WellFormed, Separated, Contained, DefineReports, LinkEventReports, EnableEvents;
    var reports, events := ReportsOf(cfg.reports, band), EventsOf(cfg.events, band);
    var defined := DefineReports(l, reports, net);
    DefineReportsStep(l, cfg, band, net);
    if defined.ok {
      var linked := LinkEventReports(defined.line, events, net);
      LinkStep(defined.line, cfg, band, net);
      ContainedTrans(net.tool, cfg, band, l, defined.line, linked.line);
      if linked.ok {
        var enabled := EnableEvents(linked.line, true, events, net);
        EnableStep(linked.line, cfg, band, net);
        ContainedTrans(net.tool, cfg, band, l, linked.line, enabled.line);
        BandReportsHold(cfg, band);
        BandEventsHold(cfg, band);
        if enabled.ok {
          BandAssembled(net.tool, enabled.line.tool, cfg, band);
        }
      }
    }
  }

  lemma BandAssembled(maker: Maker, e: State, cfg: Config, band: string)
    requires WellFormed(cfg)
    requires ReportsInPlace(e, ReportsOf(cfg.reports, band))
    requires LinksInPlace(e, EventsOf(cfg.events, band)) && EnablesInPlace(maker, e, EventsOf(cfg.events, band))
    ensures BandInPlace(maker, e, cfg, band)
  {
    BandReportsHold(cfg, band);
    BandEventsHold(cfg, band);
    forall i | 0 <= i < |cfg.reports| && cfg.reports[i].band == band ensures ReportInPlace(e, cfg.reports[i]) {
      assert cfg.reports[i] in ReportsOf(cfg.reports, band);
    }
    forall i | 0 <= i < |cfg.events| && cfg.events[i].band == band
      ensures LinkInPlace(e, cfg.events[i]) && EnableInPlace(maker, e, cfg.events[i])
    {
      assert cfg.events[i] in EventsOf(cfg.events, band);
    }
  }

  // ---------- containment ----------

  /** A message that names what it is about, so that it deletes or disables nothing wholesale. */
  predicate Listed(m: Message) {
    match m
    case S2F33(items) => items != []
    case S2F35(items) => items != []
    case S2F37(ceed, ceids) => ceed && ceids != []
  }

  ghost predicate OnlyListed(l: Line, k: Line) {
    && |l.sent| <= |k.sent| && k.sent[..|l.sent|] == l.sent
    && forall i :: |l.sent| <= i < |k.sent| ==> Listed(k.sent[i])
  }

  lemma ContainedListed(maker: Maker, cfg: Config, band: string, s: Line, l: Line, k: Line)
    requires OnlyListed(s, l) && Contained(maker, cfg, band, l, k)
    ensures OnlyListed(s, k)
  {
  }

  lemma {:induction false} BandsContained(
    l: Line, cfg: Config, bands: seq<string>, go: nat -> bool, net: Network)
    requires WellFormed(cfg) && Separated(cfg)
    ensures var o := SetupBands(l, cfg, bands, go, net);
      && (forall b :: b in o.bandResults && o.bandResults[b] ==> BandInPlace(net.tool, o.line.tool, cfg, b))
      && (forall b :: b in o.bandResults ==> b in bands)
      && (!o.abandoned ==> forall b :: b in bands ==> b in o.bandResults)
      && OnlyListed(l, o.line)
  {
    hide WellFormed, Separated, BandInPlace, SetupBand;
    if bands != [] {
      var n := |bands| - 1;
      var before := SetupBands(l, cfg, bands[..n], go, net);
      BandsContained(l, cfg, bands[..n], go, net);
      assert bands == bands[..n] + [bands[n]];
      if !before.abandoned && go(n) {
        BandStep(before.line, cfg, bands[n], net);
        ContainedListed(net.tool, cfg, bands[n], l, before.line, SetupBand(before.line, cfg, bands[n], net).line);
      }
    }
  }

  /**
    Containment. From any leftover state of the tool, with a tool that may
    refuse any message and a line that may lose any reply, every band reported
    accepted is fully in place at the end, whatever became of the other bands;
    and after the reset no message deletes or disables wholesale.
   */
  lemma AcceptedBandsAreInPlace(
    l: Line, cfg: Config, resetFirst: bool, goReset: bool, go: nat -> bool, net: Network)
    requires WellFormed(cfg) && Separated(cfg)
    ensures var start := if resetFirst && goReset then ResetAll(l, net).line else l;
      var o := SetupSubscriptions(l, cfg, resetFirst, goReset, go, net);
      && start.sent == l.sent + (if resetFirst && goReset then RESET else [])
      && OnlyListed(start, o.line)
      && (forall b :: b in o.bandResults && o.bandResults[b] ==> BandInPlace(net.tool, o.line.tool, cfg, b))
  {
    hide WellFormed, Separated, BandInPlace, SetupBand, Respond;
    var start := if resetFirst && goReset then ResetAll(l, net).line else l;
    BandsContained(start, cfg, BandOrder(cfg.reports, cfg.events), go, net);
    assert l.sent + [RESET[0]] + [RESET[1]] + [RESET[2]] == l.sent + RESET;
  }

  /**
    So, whichever the tool and whatever the line does, the enabled events of a band
    reported accepted are sent at the end, all but those the tool itself refuses.
   */
  lemma AcceptedBandsAreSent(
    l: Line, cfg: Config, resetFirst: bool, goReset: bool, go: nat -> bool, net: Network, v: EventDef)
    requires WellFormed(cfg) && Separated(cfg) && v in cfg.events && v.enabled
    ensures var o := SetupSubscriptions(l, cfg, resetFirst, goReset, go, net);
      v.band in o.bandResults && o.bandResults[v.band] ==>
        (Sends(net.tool, o.line.tool, v.ceid) <==> !RefusesEvent(net.tool, v.ceid))
  {
    hide WellFormed, Separated, SetupSubscriptions, Sends, RefusesEvent, ReportInPlace, LinkInPlace, EnableInPlace;
    var o := SetupSubscriptions(l, cfg, resetFirst, goReset, go, net);
    AcceptedBandsAreInPlace(l, cfg, resetFirst, goReset, go, net);
    if v.band in o.bandResults && o.bandResults[v.band] {
      var i :| 0 <= i < |cfg.events| && cfg.events[i] == v;
      assert EnableInPlace(net.tool, o.line.tool, cfg.events[i]);
      InPlaceIsSent(net.tool, o.line.tool, v);
    }
  }

  // ---------- end to end ----------

  /** Every message is answered. */
  ghost predicate LosesNothing(net: Network) {
    forall n :: net.fate(n) == Answered
  }

  /** And the tool refuses no band. */
  ghost predicate Reliable(net: Network) {
    LosesNothing(net) && net.tool.Base?
  }

  /** A define is accepted at once or answered with code 3, and then delete and redefine are accepted. */
  lemma ReliableDefine(l: Line, cfg: Config, band: string, net: Network)
    requires WellFormed(cfg) && Reliable(net)
    ensures DefineReports(l, ReportsOf(cfg.reports, band), net).ok
  {
    hide DefineEach;
    var reports := ReportsOf(cfg.reports, band);
    BandReportsHold(cfg, band);
    var first := Send(l, S2F33(Definitions(reports)), net);
    if reports != [] && first.ack != 0 {
      var deleted := Send(first.line, S2F33(Deletions(reports)), net);
      assert !Collides(first.line.tool, Deletions(reports));
      forall i | 0 <= i < |reports| ensures reports[i].rptid !in deleted.line.tool.reports {
        DefineEachDefines(first.line.tool, Deletions(reports), i);
      }
      assert !Collides(deleted.line.tool, Definitions(reports));
    }
  }

  /** The reports of these events are all defined at the tool. */
  ghost predicate LinkedAreDefined(e: State, events: seq<EventDef>) {
    forall v, r :: v in events && r in v.rptids ==> r in e.reports
  }

  /** When its reply arrives, a link message is accepted exactly if every report it names is defined. */
  lemma LinksAcceptedExactly(l: Line, events: seq<EventDef>, net: Network)
    requires net.tool.Base? && net.fate(|l.sent|) == Answered
    ensures LinkEventReports(l, events, net).ok <==> LinkedAreDefined(l.tool, events)
  {
    hide LinkEach, Links;
    var items := Links(events);
    forall v, r | v in events && r in v.rptids
      ensures exists i, j :: 0 <= i < |items| && 0 <= j < |items[i].rptids| && items[i].rptids[j] == r
    {
      LinksExactly(events, LinkItem(v.ceid, v.rptids));
      assert Wants(v, LinkItem(v.ceid, v.rptids));
      var i :| 0 <= i < |items| && items[i] == LinkItem(v.ceid, v.rptids);
      var j :| 0 <= j < |v.rptids| && v.rptids[j] == r;
      assert items[i].rptids[j] == r;
    }
    forall i | 0 <= i < |items| ensures exists v :: v in events && v.rptids == items[i].rptids {
      LinksExactly(events, items[i]);
      var v :| v in events && Wants(v, items[i]);
    }
  }

  /** With a band's reports in place, everything its events link is defined. */
  lemma BandedIsDefined(e: State, cfg: Config, band: string)
    requires WellFormed(cfg) && Banded(cfg) && ReportsInPlace(e, ReportsOf(cfg.reports, band))
    ensures LinkedAreDefined(e, EventsOf(cfg.events, band))
  {
    hide ReportsOf, EventsOf;
    var events := EventsOf(cfg.events, band);
    BandReportsHold(cfg, band);
    BandEventsHold(cfg, band);
    forall v, r | v in events && r in v.rptids ensures r in e.reports {
      var n :| 0 <= n < |cfg.events| && cfg.events[n] == v;
      assert r in cfg.events[n].rptids;
      var d :| 0 <= d < |cfg.reports| && cfg.reports[d].rptid == r && cfg.reports[d].band == band;
      assert cfg.reports[d] in ReportsOf(cfg.reports, band);
    }
  }

  lemma ReliableLink(l: Line, cfg: Config, band: string, net: Network)
    requires WellFormed(cfg) && Banded(cfg) && Reliable(net)
    requires ReportsInPlace(l.tool, ReportsOf(cfg.reports, band))
    ensures LinkEventReports(l, EventsOf(cfg.events, band), net).ok
  {
    hide WellFormed, Banded, ReportsInPlace, LinkedAreDefined, LinkEventReports;
    BandedIsDefined(l.tool, cfg, band);
    LinksAcceptedExactly(l, EventsOf(cfg.events, band), net);
  }

  lemma ReliableBand(l: Line, cfg: Config, band: string, net: Network)
    requires WellFormed(cfg) && Separated(cfg) && Banded(cfg) && Reliable(net)
    ensures SetupBand(l, cfg, band, net).ok
  {
    hide WellFormed, Separated, Banded, Contained, DefineReports, LinkEventReports;
    var defined := DefineReports(l, ReportsOf(cfg.reports, band), net);
    ReliableDefine(l, cfg, band, net);
    DefineReportsStep(l, cfg, band, net);
    ReliableLink(defined.line, cfg, band, net);
  }

  lemma {:induction false} ReliableBands(l: Line, cfg: Config, bands: seq<string>, net: Network)
    requires WellFormed(cfg) && Separated(cfg) && Banded(cfg) && Reliable(net)
    ensures var o := SetupBands(l, cfg, bands, _ => true, net);
      !o.abandoned && forall b :: b in o.bandResults ==> o.bandResults[b]
  {
    hide WellFormed, Separated, Banded, SetupBand;
    if bands != [] {
      var n := |bands| - 1;
      ReliableBands(l, cfg, bands[..n], net);
      ReliableBand(SetupBands(l, cfg, bands[..n], _ => true, net).line, cfg, bands[n], net);
    }
  }

  lemma BandedSeparates(cfg: Config)
    requires WellFormed(cfg) && Banded(cfg)
    ensures Separated(cfg)
  {
  }

  ghost predicate AllInPlace(maker: Maker, e: State, cfg: Config) {
    && (forall i :: 0 <= i < |cfg.reports| ==> ReportInPlace(e, cfg.reports[i]))
    && (forall i :: 0 <= i < |cfg.events| ==> LinkInPlace(e, cfg.events[i]) && EnableInPlace(maker, e, cfg.events[i]))
  }

  /**
    End to end. From any leftover state of the tool, reset or not, the sequence
    ends with every configured report defined exactly, every event with reports
    linked exactly and every enabled event enabled.
   */
  lemma SetupPutsEverythingInPlace(l: Line, cfg: Config, resetFirst: bool, net: Network)
    requires WellFormed(cfg) && Banded(cfg) && Reliable(net)
    ensures AllInPlace(net.tool, SetupSubscriptions(l, cfg, resetFirst, true, _ => true, net).line.tool, cfg)
  {
    hide WellFormed, Separated, Banded, SetupBand, BandOrder;
    BandedSeparates(cfg);
    var start := if resetFirst then ResetAll(l, net).line else l;
    var bands := BandOrder(cfg.reports, cfg.events);
    ReliableBands(start, cfg, bands, net);
    BandsContained(start, cfg, bands, _ => true, net);
    var e := SetupBands(start, cfg, bands, _ => true, net).line.tool;
    forall i | 0 <= i < |cfg.reports| ensures ReportInPlace(e, cfg.reports[i]) {
      BandOrderExactly(cfg.reports, cfg.events, cfg.reports[i].band);
      assert cfg.reports[i] in cfg.reports;
      assert BandInPlace(net.tool, e, cfg, cfg.reports[i].band);
    }
    forall i | 0 <= i < |cfg.events| ensures LinkInPlace(e, cfg.events[i]) && EnableInPlace(net.tool, e, cfg.events[i]) {
      BandOrderExactly(cfg.reports, cfg.events, cfg.events[i].band);
      assert cfg.events[i] in cfg.events;
      assert BandInPlace(net.tool, e, cfg, cfg.events[i].band);
    }
  }

  // ---------- nothing but the configuration ----------

  ghost predicate ReportListed(cfg: Config, rptid: nat) {
    exists r :: r in cfg.reports && r.rptid == rptid
  }

  ghost predicate LinkListed(cfg: Config, ceid: nat) {
    exists v :: v in cfg.events && v.ceid == ceid && v.rptids != []
  }

  ghost predicate EnableListed(cfg: Config, ceid: nat) {
    exists v :: v in cfg.events && v.ceid == ceid && v.enabled
  }

  /** The tool holds no report, link or enabled event the configuration does not list. */
  ghost predicate NothingElse(e: State, cfg: Config) {
    && (forall r :: r in e.reports ==> ReportListed(cfg, r))
    && (forall c :: c in e.links ==> LinkListed(cfg, c))
    && (forall c :: c in e.enabled ==> EnableListed(cfg, c))
    && !e.allEnabled && e.configured
  }

  ghost predicate FromConfig(cfg: Config, m: Message) {
    match m
    case S2F33(items) => forall i :: 0 <= i < |items| ==> ReportListed(cfg, items[i].rptid)
    case S2F35(items) => forall i :: 0 <= i < |items| ==> LinkListed(cfg, items[i].ceid)
    case S2F37(ceed, ceids) => ceed && ceids != [] && forall i :: 0 <= i < |ceids| ==> EnableListed(cfg, ceids[i])
  }

  lemma {:induction false} DefineKeepsNothingElse(e: State, items: seq<ReportItem>, cfg: Config)
    requires NothingElse(e, cfg) && FromConfig(cfg, S2F33(items))
    ensures NothingElse(DefineEach(e, items), cfg)
  {
    hide ReportListed, LinkListed, EnableListed;
    if items != [] {
      var n := |items| - 1;
      assert forall i :: 0 <= i < n ==> items[..n][i] == items[i];
      DefineKeepsNothingElse(e, items[..n], cfg);
    }
  }

  lemma {:induction false} LinkKeepsNothingElse(e: State, items: seq<LinkItem>, cfg: Config)
    requires NothingElse(e, cfg) && FromConfig(cfg, S2F35(items))
    ensures NothingElse(LinkEach(e, items), cfg)
  {
    hide ReportListed, LinkListed, EnableListed;
    if items != [] {
      var n := |items| - 1;
      assert forall i :: 0 <= i < n ==> items[..n][i] == items[i];
      LinkKeepsNothingElse(e, items[..n], cfg);
    }
  }

  lemma SendKeepsNothingElse(l: Line, m: Message, net: Network, cfg: Config)
    requires NothingElse(l.tool, cfg) && FromConfig(cfg, m)
    ensures NothingElse(Send(l, m, net).line.tool, cfg)
  {
    hide Respond, NothingElse;
    RespondKeepsNothingElse(net.tool, l.tool, m, cfg);
  }

  lemma RespondKeepsNothingElse(maker: Maker, e: State, m: Message, cfg: Config)
    requires NothingElse(e, cfg) && FromConfig(cfg, m)
    ensures NothingElse(Respond(maker, e, m).state, cfg)
  {
    hide ReportListed, LinkListed, EnableListed, DefineEach, LinkEach, NexgenDefineEach, ReportDict, LinkDict, Unknown,
      BandOfReport;
    match m
    case S2F33(items) =>
      var d := ReportDict(items);
      forall i | 0 <= i < |d| ensures ReportListed(cfg, d[i].rptid) {
        assert d[i] in items;
      }
      DefineKeepsNothingElse(e, items, cfg);
      NexgenDefineKeepsNothingElse(e, d, cfg);
    case S2F35(items) =>
      var d := LinkDict(items);
      forall i | 0 <= i < |d| ensures LinkListed(cfg, d[i].ceid) {
        assert d[i] in items;
      }
      LinkKeepsNothingElse(e, items, cfg);
      LinkKeepsNothingElse(e, d, cfg);
    case S2F37(_, _) =>
  }

  lemma {:induction false} NexgenDefineKeepsNothingElse(e: State, items: seq<ReportItem>, cfg: Config)
    requires NothingElse(e, cfg) && FromConfig(cfg, S2F33(items))
    ensures NothingElse(NexgenDefineEach(e, items), cfg)
  {
    hide ReportListed, LinkListed, EnableListed;
    if items != [] {
      var n := |items| - 1;
      assert forall i :: 0 <= i < n ==> items[..n][i] == items[i];
      NexgenDefineKeepsNothingElse(e, items[..n], cfg);
    }
  }

  lemma BandIsFromConfig(cfg: Config, band: string)
    ensures var reports, events := ReportsOf(cfg.reports, band), EventsOf(cfg.events, band);
      && FromConfig(cfg, S2F33(Definitions(reports))) && FromConfig(cfg, S2F33(Deletions(reports)))
      && FromConfig(cfg, S2F35(Links(events)))
      && (EnabledCeids(events) != [] ==> FromConfig(cfg, S2F37(true, EnabledCeids(events))))
  {
    hide ReportsOf, EventsOf, Links, EnabledCeids;
    var reports, events := ReportsOf(cfg.reports, band), EventsOf(cfg.events, band);
    forall i | 0 <= i < |reports| ensures ReportListed(cfg, reports[i].rptid) {
      ReportsOfExactly(cfg.reports, band, reports[i]);
    }
    forall i | 0 <= i < |Links(events)| ensures LinkListed(cfg, Links(events)[i].ceid) {
      var x := Links(events)[i];
      LinksExactly(events, x);
      var v :| v in events && Wants(v, x);
      EventsOfExactly(cfg.events, band, v);
    }
    forall i | 0 <= i < |EnabledCeids(events)| ensures EnableListed(cfg, EnabledCeids(events)[i]) {
      EnabledExactly(events, EnabledCeids(events)[i]);
      var k :| 0 <= k < |events| && events[k].enabled && events[k].ceid == EnabledCeids(events)[i];
      EventsOfExactly(cfg.events, band, events[k]);
    }
  }

  lemma DefinesKeepNothingElse(l: Line, cfg: Config, band: string, net: Network)
    requires NothingElse(l.tool, cfg)
    ensures NothingElse(DefineReports(l, ReportsOf(cfg.reports, band), net).line.tool, cfg)
  {
    hide NothingElse, FromConfig, Send, ReportsOf, EventsOf, Links, EnabledCeids, Definitions, Deletions;
    BandIsFromConfig(cfg, band);
    var reports := ReportsOf(cfg.reports, band);
    var first := Send(l, S2F33(Definitions(reports)), net);
    SendKeepsNothingElse(l, S2F33(Definitions(reports)), net, cfg);
    var deleted := Send(first.line, S2F33(Deletions(reports)), net);
    SendKeepsNothingElse(first.line, S2F33(Deletions(reports)), net, cfg);
    SendKeepsNothingElse(deleted.line, S2F33(Definitions(reports)), net, cfg);
  }

  lemma SetupBandKeepsNothingElse(l: Line, cfg: Config, band: string, net: Network)
    requires NothingElse(l.tool, cfg)
    ensures NothingElse(SetupBand(l, cfg, band, net).line.tool, cfg)
  {
    hide NothingElse, FromConfig, Send, DefineReports, ReportsOf, EventsOf, Links, EnabledCeids;
    BandIsFromConfig(cfg, band);
    DefinesKeepNothingElse(l, cfg, band, net);
    var events := EventsOf(cfg.events, band);
    var d := DefineReports(l, ReportsOf(cfg.reports, band), net).line;
    SendKeepsNothingElse(d, S2F35(Links(events)), net, cfg);
    var k := LinkEventReports(d, events, net).line;
    if EnabledCeids(events) != [] {
      SendKeepsNothingElse(k, S2F37(true, EnabledCeids(events)), net, cfg);
    }
  }

  lemma {:induction false} BandsKeepNothingElse(
    l: Line, cfg: Config, bands: seq<string>, go: nat -> bool, net: Network)
    requires NothingElse(l.tool, cfg)
    ensures NothingElse(SetupBands(l, cfg, bands, go, net).line.tool, cfg)
  {
    hide NothingElse, SetupBand;
    if bands != [] {
      var n := |bands| - 1;
      BandsKeepNothingElse(l, cfg, bands[..n], go, net);
      SetupBandKeepsNothingElse(SetupBands(l, cfg, bands[..n], go, net).line, cfg, bands[n], net);
    }
  }

  lemma ResetLeavesNothing(l: Line, cfg: Config, net: Network)
    requires ResetAll(l, net).ok
    ensures NothingElse(ResetAll(l, net).line.tool, cfg)
  {
  }

  /**
    After an acknowledged reset the tool holds nothing but what the configuration
    lists, whatever becomes of the bands.
   */
  lemma AcknowledgedResetStartsClean(l: Line, cfg: Config, go: nat -> bool, net: Network)
    requires ResetAll(l, net).ok
    ensures NothingElse(SetupSubscriptions(l, cfg, true, true, go, net).line.tool, cfg)
  {
    hide NothingElse, SetupBands, ResetAll, BandOrder;
    ResetLeavesNothing(l, cfg, net);
    BandsKeepNothingElse(ResetAll(l, net).line, cfg, BandOrder(cfg.reports, cfg.events), go, net);
  }

  /** Reports, links and enabled events are those of the configuration, no more and no less. */
  ghost predicate Exactly(e: State, cfg: Config) {
    && AllInPlace(Base, e, cfg)
    && (forall r :: r in e.reports <==> ReportListed(cfg, r))
    && (forall c :: c in e.links <==> LinkListed(cfg, c))
    && (forall c :: IsEventEnabled(e, c) <==> EnableListed(cfg, c))
  }

  lemma InPlaceAndNothingElse(e: State, cfg: Config)
    requires AllInPlace(Base, e, cfg) && NothingElse(e, cfg)
    ensures Exactly(e, cfg)
  {
    forall r ensures ReportListed(cfg, r) ==> r in e.reports {
      if ReportListed(cfg, r) {
        var d :| d in cfg.reports && d.rptid == r;
        assert ReportInPlace(e, d);
      }
    }
    forall c ensures (LinkListed(cfg, c) ==> c in e.links) && (EnableListed(cfg, c) ==> c in e.enabled) {
      if LinkListed(cfg, c) {
        var v :| v in cfg.events && v.ceid == c && v.rptids != [];
        assert LinkInPlace(e, v);
      }
      if EnableListed(cfg, c) {
        var v :| v in cfg.events && v.ceid == c && v.enabled;
        assert EnableInPlace(Base, e, v);
      }
    }
  }

  /**
    With a reset first and a cooperative tool, any leftover state ends as exactly the
    configuration: the same reports, the same links, the same enabled events.
   */
  lemma ResetAndSetupIsExact(l: Line, cfg: Config, net: Network)
    requires WellFormed(cfg) && Banded(cfg) && Reliable(net)
    ensures Exactly(SetupSubscriptions(l, cfg, true, true, _ => true, net).line.tool, cfg)
  {
    hide NothingElse, AllInPlace, Exactly, SetupSubscriptions, WellFormed, Banded;
    ReliableReset(l, net);
    AcknowledgedResetStartsClean(l, cfg, _ => true, net);
    SetupPutsEverythingInPlace(l, cfg, true, net);
    InPlaceAndNothingElse(SetupSubscriptions(l, cfg, true, true, _ => true, net).line.tool, cfg);
  }

  // ---------- configurations with links to nobody's report ----------

  /** The reports the events of the band are linked to are configured, in whatever band. */
  ghost predicate LinksConfigured(cfg: Config, band: string) {
    forall i, r :: 0 <= i < |cfg.events| && cfg.events[i].band == band && r in cfg.events[i].rptids ==>
      ReportListed(cfg, r)
  }

  /** On a tool that holds nothing else, the defined reports of a band are the linked ones if those are configured. */
  lemma DefinedExactlyWhenConfigured(e: State, cfg: Config, band: string)
    requires Separated(cfg) && NothingElse(e, cfg) && ReportsInPlace(e, ReportsOf(cfg.reports, band))
    ensures LinkedAreDefined(e, EventsOf(cfg.events, band)) <==> LinksConfigured(cfg, band)
  {
    hide ReportsOf, EventsOf;
    BandEventsHold(cfg, band);
    var events := EventsOf(cfg.events, band);
    if LinkedAreDefined(e, events) {
      forall i, r | 0 <= i < |cfg.events| && cfg.events[i].band == band && r in cfg.events[i].rptids
        ensures ReportListed(cfg, r)
      {
        assert cfg.events[i] in events;
      }
    }
    if LinksConfigured(cfg, band) {
      forall v, r | v in events && r in v.rptids ensures r in e.reports {
        assert v in cfg.events && v.band == band;
        var i :| 0 <= i < |cfg.events| && cfg.events[i] == v;
        assert r in cfg.events[i].rptids && ReportListed(cfg, r);
        var d :| d in cfg.reports && d.rptid == r;
        ReportsOfExactly(cfg.reports, band, d);
        var k :| 0 <= k < |ReportsOf(cfg.reports, band)| && ReportsOf(cfg.reports, band)[k] == d;
        assert ReportInPlace(e, ReportsOf(cfg.reports, band)[k]);
      }
    }
  }

  lemma BandAcceptedExactly(l: Line, cfg: Config, band: string, net: Network)
    requires WellFormed(cfg) && Separated(cfg) && Reliable(net) && NothingElse(l.tool, cfg)
    ensures SetupBand(l, cfg, band, net).ok <==> LinksConfigured(cfg, band)
  {
    hide WellFormed, Separated, NothingElse, Contained, LinksConfigured, DefineReports, LinkEventReports,
      LinkedAreDefined, ReportsInPlace;
    var defined := DefineReports(l, ReportsOf(cfg.reports, band), net);
    ReliableDefine(l, cfg, band, net);
    DefineReportsStep(l, cfg, band, net);
    DefinesKeepNothingElse(l, cfg, band, net);
    DefinedExactlyWhenConfigured(defined.line.tool, cfg, band);
    LinksAcceptedExactly(defined.line, EventsOf(cfg.events, band), net);
  }

  lemma {:induction false} BandsAcceptedExactly(l: Line, cfg: Config, bands: seq<string>, net: Network)
    requires WellFormed(cfg) && Separated(cfg) && Reliable(net) && NothingElse(l.tool, cfg)
    ensures var o := SetupBands(l, cfg, bands, _ => true, net);
      && !o.abandoned
      && (forall b :: b in o.bandResults <==> b in bands)
      && (forall b :: b in o.bandResults ==> (o.bandResults[b] <==> LinksConfigured(cfg, b)))
  {
    hide WellFormed, Separated, NothingElse, LinksConfigured, SetupBand;
    if bands != [] {
      var n := |bands| - 1;
      BandsAcceptedExactly(l, cfg, bands[..n], net);
      BandsKeepNothingElse(l, cfg, bands[..n], _ => true, net);
      BandAcceptedExactly(SetupBands(l, cfg, bands[..n], _ => true, net).line, cfg, bands[n], net);
      assert bands == bands[..n] + [bands[n]];
    }
  }

  /**
    With a reset first and a cooperative tool, a configuration whose bands are merely
    kept apart has exactly those bands accepted all of whose linked reports are
    configured: a link to a report nobody configured costs its band.
   */
  lemma AcceptedExactlyWhenConfigured(l: Line, cfg: Config, net: Network)
    requires WellFormed(cfg) && Separated(cfg) && Reliable(net)
    ensures var o := SetupSubscriptions(l, cfg, true, true, _ => true, net);
      && (forall b :: b in o.bandResults <==> b in BandOrder(cfg.reports, cfg.events))
      && (forall b :: b in o.bandResults ==> (o.bandResults[b] <==> LinksConfigured(cfg, b)))
  {
    hide NothingElse, SetupBands, ResetAll, BandOrder, WellFormed, Separated, LinksConfigured;
    ReliableReset(l, net);
    ResetLeavesNothing(l, cfg, net);
    BandsAcceptedExactly(ResetAll(l, net).line, cfg, BandOrder(cfg.reports, cfg.events), net);
  }

  lemma ReliableReset(l: Line, net: Network)
    requires Reliable(net)
    ensures ResetAll(l, net).ok
  {
  }
}
