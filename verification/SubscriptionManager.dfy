/**
  `EventSubscriptionManager` in its own form: it sends message after message
  over the line, keeps its three flags and its per-band verdicts, and changes
  the tool. Each method is proved to compute the step of `Subscription`.
 */
module SubscriptionManager {
  import opened Equipment
  import opened Subscription

  /** The host's connection: the tool at the other end, the messages sent, and the network's whims. */
  class GatewayHost {
    const tool: EquipmentSimulator
    const fate: nat -> Fate
    var sent: seq<Message>

    constructor (tool: EquipmentSimulator, fate: nat -> Fate)
      ensures this.tool == tool && this.fate == fate && sent == []
    {
      this.tool, this.fate, sent := tool, fate, [];
    }

    function Net(): Network {
      Network(fate, Base)
    }

    function Abs(): Line
      reads this, tool
    {
      Line(tool.Abs(), sent)
    }

    method SendAndWait(m: Message) returns (ack: int)
      modifies this`sent, tool
      ensures Exchange(Abs(), ack) == Send(old(Abs()), m, Net())
    {
      var becomes := fate(|sent|);
      sent := sent + [m];
      match becomes {
        case Answered =>
          ack := tool.On(m);
        case Refused(code) =>
          ack := if code == 0 then -1 else code;
        case Silent(handled) =>
          ack := -1;
          if handled {
            var _ := tool.On(m);
          }
      }
    }
  }

  class EventSubscriptionManager {
    const host: GatewayHost
    const config: Config
    var reportsDefined: bool
    var eventsLinked: bool
    var eventsEnabled: bool
    var bandResults: map<string, bool>

    constructor (host: GatewayHost, config: Config)
      ensures this.host == host && this.config == config && bandResults == map[]
    {
      this.host, this.config := host, config;
      reportsDefined, eventsLinked, eventsEnabled := false, false, false;
      bandResults := map[];
    }

    predicate IsSubscribed()
      reads this
    {
      reportsDefined && eventsLinked && eventsEnabled
    }

    method Define(reports: seq<ReportDef>) returns (ok: bool)
      modifies this`reportsDefined, host`sent, host.tool
      ensures Done(host.Abs(), ok) == DefineReports(old(host.Abs()), reports, host.Net())
    {
      if reports == [] {
        return true;
      }
      var drack := host.SendAndWait(S2F33(Definitions(reports)));
      if drack == 0 {
        reportsDefined := true;
        return true;
      }
      if drack != 3 {
        return false;
      }
      var deleted := host.SendAndWait(S2F33(Deletions(reports)));
      if deleted != 0 {
        return false;
      }
      var retried := host.SendAndWait(S2F33(Definitions(reports)));
      if retried != 0 {
        return false;
      }
      reportsDefined := true;
      return true;
    }

    method Link(events: seq<EventDef>) returns (ok: bool)
      modifies this`eventsLinked, host`sent, host.tool
      ensures Done(host.Abs(), ok) == LinkEventReports(old(host.Abs()), events, host.Net())
    {
      var links: seq<LinkItem> := [];
      var i := 0;
      while i < |events|
        modifies {}
        invariant i <= |events|
        invariant links == Links(events[..i])
      {
        assert events[..i + 1][..i] == events[..i];
        if events[i].rptids != [] {
          links := links + [LinkItem(events[i].ceid, events[i].rptids)];
        }
        i := i + 1;
      }
      assert events[..|events|] == events;
      if links == [] {
        eventsLinked := eventsLinked || events != [];
        return true;
      }
      var lrack := host.SendAndWait(S2F35(links));
      if lrack == 0 {
        eventsLinked := true;
      }
      return lrack == 0;
    }

    method Enable(enable: bool, events: seq<EventDef>) returns (ok: bool)
      modifies this`eventsEnabled, host`sent, host.tool
      ensures Done(host.Abs(), ok) == EnableEvents(old(host.Abs()), enable, events, host.Net())
    {
      var ceids: seq<nat> := [];
      var i := 0;
      while i < |events|
        modifies {}
        invariant i <= |events|
        invariant ceids == EnabledCeids(events[..i])
      {
        assert events[..i + 1][..i] == events[..i];
        if events[i].enabled {
          ceids := ceids + [events[i].ceid];
        }
        i := i + 1;
      }
      assert events[..|events|] == events;
      if ceids == [] {
        return true;
      }
      var erack := host.SendAndWait(S2F37(enable, ceids));
      if erack == 0 {
        eventsEnabled := enable;
      }
      return erack == 0;
    }

    method Reset() returns (ok: bool)
      modifies host`sent, host.tool
      ensures Done(host.Abs(), ok) == ResetAll(old(host.Abs()), host.Net())
    {
      var disabled := host.SendAndWait(RESET[0]);
      var unlinked := host.SendAndWait(RESET[1]);
      var deleted := host.SendAndWait(RESET[2]);
      return disabled == 0 && unlinked == 0 && deleted == 0;
    }

    method Bands() returns (order: seq<string>)
      ensures order == BandOrder(config.reports, config.events)
      ensures forall b :: b in order <==>
        (exists r :: r in config.reports && r.band == b) || (exists v :: v in config.events && v.band == b)
    {
      order := [];
      var i := 0;
      while i < |config.reports|
        invariant i <= |config.reports|
        invariant order == ReportBands(config.reports[..i])
      {
        assert config.reports[..i + 1][..i] == config.reports[..i];
        if config.reports[i].band !in order {
          order := order + [config.reports[i].band];
        }
        i := i + 1;
      }
      assert config.reports[..|config.reports|] == config.reports;
      i := 0;
      while i < |config.events|
        invariant i <= |config.events|
        invariant order == BandOrder(config.reports, config.events[..i])
      {
        assert config.events[..i + 1][..i] == config.events[..i];
        if config.events[i].band !in order {
          order := order + [config.events[i].band];
        }
        i := i + 1;
      }
      assert config.events[..|config.events|] == config.events;
      forall b {
        BandOrderExactly(config.reports, config.events, b);
      }
    }

    method OneBand(band: string) returns (ok: bool)
      modifies this`reportsDefined, this`eventsLinked, this`eventsEnabled, host`sent, host.tool
      ensures Done(host.Abs(), ok) == SetupBand(old(host.Abs()), config, band, host.Net())
    {
      hide DefineReports, LinkEventReports, EnableEvents;
      var reports, events := ReportsOf(config.reports, band), EventsOf(config.events, band);
      ok := Define(reports);
      if ok {
        ok := Link(events);
      }
      if ok {
        ok := Enable(true, events);
      }
    }

    /** The loop over the bands, abandoned when the session is no longer current. */
    method RunBands(bands: seq<string>, go: nat -> bool)
      modifies this, host`sent, host.tool
      ensures var o := SetupBands(old(host.Abs()), config, bands, go, host.Net());
        host.Abs() == o.line && bandResults == o.bandResults
    {
      hide SetupBand;
      ghost var start := host.Abs();
      bandResults := map[];
      var i := 0;
      while i < |bands| && go(i)
        invariant i <= |bands|
        invariant SetupBands(start, config, bands[..i], go, host.Net()) == Outcome(host.Abs(), bandResults, false)
      {
        assert bands[..i + 1][..i] == bands[..i];
        var ok := OneBand(bands[i]);
        bandResults := bandResults[bands[i] := ok];
        i := i + 1;
      }
      Abandoned(start, config, bands, i, go, host.Net());
    }

    method Setup(resetFirst: bool, goReset: bool, go: nat -> bool) returns (subscribed: bool)
      modifies this, host`sent, host.tool
      ensures var o := SetupSubscriptions(old(host.Abs()), config, resetFirst, goReset, go, host.Net());
        host.Abs() == o.line && bandResults == o.bandResults
      ensures subscribed == IsSubscribed()
      ensures subscribed <==> exists b :: b in bandResults && bandResults[b]
    {
      hide SetupBands, ResetAll, BandOrder;
      var bands := Bands();
      if resetFirst && goReset {
        var _ := Reset();
      }
      RunBands(bands, go);
      subscribed := exists b :: b in bandResults.Keys && bandResults[b];
      reportsDefined, eventsLinked, eventsEnabled := subscribed, subscribed, subscribed;
    }
  }

  /** Once a band was not started, none of the later ones is. */
  lemma {:induction false} Abandoned(
    l: Line, cfg: Config, bands: seq<string>, i: nat, go: nat -> bool, net: Network)
    requires i <= |bands| && !SetupBands(l, cfg, bands[..i], go, net).abandoned
    requires i < |bands| ==> !go(i)
    ensures SetupBands(l, cfg, bands, go, net)
      == SetupBands(l, cfg, bands[..i], go, net).(abandoned := i < |bands|)
  {
    hide SetupBand;
    if i == |bands| {
      assert bands[..i] == bands;
    } else {
      var n := |bands| - 1;
      if i == n {
        assert bands[..n] == bands[..i];
      } else {
        assert bands[..n][..i] == bands[..i];
        Abandoned(l, cfg, bands[..n], i, go, net);
      }
    }
  }
}
