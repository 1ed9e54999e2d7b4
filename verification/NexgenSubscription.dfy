/**
  The host's sequence against the NexGen tool, which may refuse one band: which bands
  it accepts, and when an accepted band stays silent.
 */
module NexgenSubscription {
  import opened Equipment
  import opened Subscription

  /** A line to the NexGen tool that loses nothing. */
  ghost predicate ReliableNexgen(net: Network, p: Policy) {
    LosesNothing(net) && net.tool == Nexgen(p)
  }

  predicate RefusesReport(p: Policy, rptid: nat) {
    p.refuseBand != "" && BandOfReport(p, rptid) == p.refuseBand
  }

  ghost predicate NoReportRefused(p: Policy, reports: seq<ReportDef>) {
    forall r :: r in reports ==> !RefusesReport(p, r.rptid)
  }

  ghost predicate NoLinkRefused(p: Policy, events: seq<EventDef>) {
    forall v :: v in events && v.rptids != [] ==> !RefusesEvent(Nexgen(p), v.ceid)
  }

  // ---------- lists without repetitions ----------

  ghost predicate UniqueEvents(events: seq<EventDef>) {
    forall i, j :: 0 <= i < j < |events| ==> events[i].ceid != events[j].ceid
  }

  lemma {:induction false} ReportDictOfUnique(items: seq<ReportItem>)
    requires forall i, j :: 0 <= i < j < |items| ==> items[i].rptid != items[j].rptid
    ensures ReportDict(items) == items
  {
    if items != [] {
      ReportDictOfUnique(items[..|items| - 1]);
    }
  }

  lemma {:induction false} LinkDictOfUnique(items: seq<LinkItem>)
    requires forall i, j :: 0 <= i < j < |items| ==> items[i].ceid != items[j].ceid
    ensures LinkDict(items) == items
  {
    if items != [] {
      LinkDictOfUnique(items[..|items| - 1]);
    }
  }

  lemma UniqueEventsSnoc(events: seq<EventDef>, v: EventDef)
    requires UniqueEvents(events) && forall i :: 0 <= i < |events| ==> events[i].ceid != v.ceid
    ensures UniqueEvents(events + [v])
  {
  }

  lemma {:induction false} EventsOfUnique(events: seq<EventDef>, band: string)
    requires UniqueEvents(events)
    ensures UniqueEvents(EventsOf(events, band))
  {
    if events != [] {
      var n := |events| - 1;
      EventsOfUnique(events[..n], band);
      var es := EventsOf(events[..n], band);
      forall i | 0 <= i < |es| ensures es[i].ceid != events[n].ceid {
        EventsOfExactly(events[..n], band, es[i]);
      }
      UniqueEventsSnoc(es, events[n]);
    }
  }

  lemma {:induction false} LinksUnique(events: seq<EventDef>)
    requires UniqueEvents(events)
    ensures forall i, j :: 0 <= i < j < |Links(events)| ==> Links(events)[i].ceid != Links(events)[j].ceid
  {
    if events != [] {
      var n := |events| - 1;
      LinksUnique(events[..n]);
      var before := Links(events[..n]);
      forall i | 0 <= i < |before| ensures before[i].ceid != events[n].ceid {
        LinksExactly(events[..n], before[i]);
        var v :| v in events[..n] && Wants(v, before[i]);
      }
    }
  }

  // ---------- the steps of a band ----------

  /** A define is accepted exactly when it names no report of the refused band; it is never answered with code 3. */
  lemma DefineExactly(l: Line, cfg: Config, band: string, net: Network, p: Policy)
    requires WellFormed(cfg) && ReliableNexgen(net, p)
    ensures DefineReports(l, ReportsOf(cfg.reports, band), net).ok
      <==> NoReportRefused(p, ReportsOf(cfg.reports, band))
  {
    hide NexgenDefineEach, ReportDict, BandOfReport, ReportsOf;
    var reports := ReportsOf(cfg.reports, band);
    BandReportsHold(cfg, band);
    if reports != [] {
      var items := Definitions(reports);
      ReportDictOfUnique(items);
      forall i | 0 <= i < |items| ensures items[i].rptid == reports[i].rptid && reports[i] in reports {
      }
    }
  }

  lemma ItemsAreTheEvents(events: seq<EventDef>)
    ensures forall v :: v in events && v.rptids != [] ==> LinkItem(v.ceid, v.rptids) in Links(events)
    ensures forall x :: x in Links(events) ==> exists v :: v in events && Wants(v, x)
  {
    forall v | v in events && v.rptids != [] ensures LinkItem(v.ceid, v.rptids) in Links(events) {
      LinksExactly(events, LinkItem(v.ceid, v.rptids));
      assert Wants(v, LinkItem(v.ceid, v.rptids));
    }
    forall x | x in Links(events) ensures exists v :: v in events && Wants(v, x) {
      LinksExactly(events, x);
    }
  }

  lemma NamedExactly(e: State, events: seq<EventDef>)
    ensures Unknown(e, Links(events)) <==> !LinkedAreDefined(e, events)
  {
    hide LinkEach;
    if Links(events) != [] {
      LinksAcceptedExactly(Line(e, []), events, Network(_ => Answered, Base));
    } else {
      ItemsAreTheEvents(events);
    }
  }

  /** A link message is accepted exactly when it names no event of the refused band and no undefined report. */
  lemma LinkExactly(l: Line, cfg: Config, band: string, net: Network, p: Policy)
    requires WellFormed(cfg) && ReliableNexgen(net, p)
    ensures var events := EventsOf(cfg.events, band);
      LinkEventReports(l, events, net).ok <==> NoLinkRefused(p, events) && LinkedAreDefined(l.tool, events)
  {
    hide LinkEach, LinkDict, Links, EventsOf, Unknown;
    var events := EventsOf(cfg.events, band);
    var items := Links(events);
    EventsOfUnique(cfg.events, band);
    LinksUnique(events);
    LinkDictOfUnique(items);
    ItemsAreTheEvents(events);
    NamedExactly(l.tool, events);
    if items == [] {
      NothingToLink(events);
    } else {
      RefusedLinks(p, events);
    }
  }

  lemma NothingToLink(events: seq<EventDef>)
    requires Links(events) == []
    ensures forall v :: v in events ==> v.rptids == []
  {
    ItemsAreTheEvents(events);
  }

  lemma RefusedLinks(p: Policy, events: seq<EventDef>)
    ensures NoLinkRefused(p, events) <==>
      !(p.refuseBand != "" && exists i :: 0 <= i < |Links(events)| && Links(events)[i].ceid in RefusedCeids(p))
  {
    hide Links, RefusedCeids;
    var items := Links(events);
    if !NoLinkRefused(p, events) {
      var v :| v in events && v.rptids != [] && RefusesEvent(Nexgen(p), v.ceid);
      ItemsAreTheEvents(events);
      var i :| 0 <= i < |items| && items[i] == LinkItem(v.ceid, v.rptids);
      assert items[i].ceid in RefusedCeids(p);
    } else if p.refuseBand != "" {
      forall i | 0 <= i < |items| ensures items[i].ceid !in RefusedCeids(p) {
        LinksExactly(events, items[i]);
        var v :| v in events && Wants(v, items[i]);
        assert !RefusesEvent(Nexgen(p), v.ceid);
      }
    }
  }

  // ---------- which bands are accepted ----------

  /**
    One band against the NexGen tool, from any leftover state: accepted exactly when it
    names no report of the refused band, links no event of it, and links only reports
    that are defined once its own are.
   */
  lemma NexgenBandExactly(l: Line, cfg: Config, band: string, net: Network, p: Policy)
    requires WellFormed(cfg) && ReliableNexgen(net, p)
    ensures var reports, events := ReportsOf(cfg.reports, band), EventsOf(cfg.events, band);
      SetupBand(l, cfg, band, net).ok <==>
        && NoReportRefused(p, reports) && NoLinkRefused(p, events)
        && LinkedAreDefined(DefineReports(l, reports, net).line.tool, events)
  {
    hide WellFormed, DefineReports, LinkEventReports, NoReportRefused, NoLinkRefused, LinkedAreDefined;
    var d := DefineReports(l, ReportsOf(cfg.reports, band), net);
    DefineExactly(l, cfg, band, net, p);
    LinkExactly(d.line, cfg, band, net, p);
  }

  /** The tool refuses something of the band: one of its reports, or an event it links. */
  ghost predicate RefusesBand(p: Policy, cfg: Config, band: string) {
    !NoReportRefused(p, ReportsOf(cfg.reports, band)) || !NoLinkRefused(p, EventsOf(cfg.events, band))
  }

  lemma BandedBandExactly(l: Line, cfg: Config, band: string, net: Network, p: Policy)
    requires WellFormed(cfg) && Banded(cfg) && ReliableNexgen(net, p)
    ensures SetupBand(l, cfg, band, net).ok <==> !RefusesBand(p, cfg, band)
  {
    hide Banded, SetupBand, DefineReports, NoLinkRefused, LinkedAreDefined, Separated, ReportsInPlace, Contained,
      NoReportRefused, WellFormed;
    BandedSeparates(cfg);
    NexgenBandExactly(l, cfg, band, net, p);
    DefineExactly(l, cfg, band, net, p);
    DefineReportsStep(l, cfg, band, net);
    var d := DefineReports(l, ReportsOf(cfg.reports, band), net);
    if d.ok {
      BandedIsDefined(d.line.tool, cfg, band);
    }
  }

  lemma {:induction false} BandedBandsExactly(l: Line, cfg: Config, bands: seq<string>, net: Network, p: Policy)
    requires WellFormed(cfg) && Banded(cfg) && ReliableNexgen(net, p)
    ensures var o := SetupBands(l, cfg, bands, _ => true, net);
      && !o.abandoned
      && (forall b :: b in o.bandResults <==> b in bands)
      && (forall b :: b in o.bandResults ==> (o.bandResults[b] <==> !RefusesBand(p, cfg, b)))
  {
    hide WellFormed, Banded, SetupBand, RefusesBand;
    if bands != [] {
      var n := |bands| - 1;
      BandedBandsExactly(l, cfg, bands[..n], net, p);
      BandedBandExactly(SetupBands(l, cfg, bands[..n], _ => true, net).line, cfg, bands[n], net, p);
      assert bands == bands[..n] + [bands[n]];
    }
  }

  /**
    From any leftover state, reset or not, the NexGen tool accepts exactly the bands of
    which it refuses nothing. What an accepted band leaves there, over any line, is in
    `AcceptedBandsAreInPlace` and `AcceptedBandsAreSent`.
   */
  lemma NexgenAcceptsExactly(l: Line, cfg: Config, resetFirst: bool, net: Network, p: Policy)
    requires WellFormed(cfg) && Banded(cfg) && ReliableNexgen(net, p)
    ensures var o := SetupSubscriptions(l, cfg, resetFirst, true, _ => true, net);
      && (forall b :: b in o.bandResults <==> b in BandOrder(cfg.reports, cfg.events))
      && (forall b :: b in o.bandResults ==> (o.bandResults[b] <==> !RefusesBand(p, cfg, b)))
  {
    hide SetupBands, ResetAll, BandOrder, WellFormed, Banded, RefusesBand;
    var start := if resetFirst then ResetAll(l, net).line else l;
    BandedBandsExactly(start, cfg, BandOrder(cfg.reports, cfg.events), net, p);
  }

  /**
    So a band can be reported accepted and stay silent: one of the refused band's own
    events, enabled and without reports, is never refused and never sent.
   */
  lemma AcceptedButSilent(l: Line, p: Policy, ceid: nat, band: string, resetFirst: bool, net: Network)
    requires RefusesEvent(Nexgen(p), ceid) && ReliableNexgen(net, p)
    ensures var o := SetupSubscriptions(
        l, Config([], [EventDef(ceid, [], true, band)]), resetFirst, true, _ => true, net);
      band in o.bandResults && o.bandResults[band] && !Sends(net.tool, o.line.tool, ceid)
  {
    var v := EventDef(ceid, [], true, band);
    var cfg := Config([], [v]);
    assert cfg.events[0] == v && v in cfg.events;
    hide SetupSubscriptions, RefusesEvent, Sends;
    BandOrderExactly(cfg.reports, cfg.events, band);
    NexgenAcceptsExactly(l, cfg, resetFirst, net, p);
    AcceptedBandsAreSent(l, cfg, resetFirst, true, _ => true, net, v);
    OnlyEvent(v);
  }

  lemma OnlyEvent(v: EventDef)
    ensures EventsOf([v], v.band) == [v] && ReportsOf([], v.band) == []
  {
    assert EventsOf([v][..0], v.band) == [];
  }
}
