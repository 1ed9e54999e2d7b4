/**
  What is said to the tool for one band: a fixed list of messages, sent up to the
  first one that is not acknowledged. With it comes when a collision is answered by
  deleting and defining again, and what a refusal or a lost reply leaves behind.
 */
module SubscriptionPlan {
  import opened Equipment
  import opened Subscription

  /** The first number below `n` that does not hold, or `n` when all do. */
  function Until(n: nat, holds: nat -> bool): (b: nat)
    ensures b <= n
    ensures forall i :: 0 <= i < b ==> holds(i)
    ensures b < n ==> !holds(b)
  {
    if n == 0 then 0
    else
      var b := Until(n - 1, holds);
      if b < n - 1 || !holds(n - 1) then b else n
  }

  // ---------- sending a list of messages ----------

  function LineAfter(l: Line, ms: seq<Message>, net: Network): Line {
    if ms == [] then l
    else
      var n := |ms| - 1;
      Send(LineAfter(l, ms[..n], net), ms[n], net).line
  }

  /** The code that message `i` of the list is answered with, -1 for no reply. */
  function AckOf(l: Line, ms: seq<Message>, i: nat, net: Network): int
    requires i < |ms|
  {
    Send(LineAfter(l, ms[..i], net), ms[i], net).ack
  }

  /** Acknowledged; a define that opens the list also goes on when the tool has one of its reports already. */
  predicate Passes(l: Line, ms: seq<Message>, i: nat, net: Network) {
    i < |ms| && (AckOf(l, ms, i, net) == 0 || (i == 0 && ms[0].S2F33? && AckOf(l, ms, i, net) == 3))
  }

  /** The first message that does not pass, or their number when all do. */
  function FirstFailed(l: Line, ms: seq<Message>, net: Network): (n: nat)
    ensures n <= |ms|
    ensures forall i :: 0 <= i < n ==> Passes(l, ms, i, net)
    ensures n < |ms| ==> !Passes(l, ms, n, net)
  {
    var passes := (i: nat) => Passes(l, ms, i, net);
    assert forall i: nat :: passes(i) == Passes(l, ms, i, net);
    Until(|ms|, passes)
  }

  /** The messages of a list that are sent: up to the first that does not pass. */
  function SentOf(l: Line, ms: seq<Message>, net: Network): seq<Message> {
    var n := FirstFailed(l, ms, net);
    if n < |ms| then ms[..n + 1] else ms
  }

  lemma {:induction false} LineAfterSends(l: Line, ms: seq<Message>, net: Network)
    ensures LineAfter(l, ms, net).sent == l.sent + ms
  {
    if ms != [] {
      var n := |ms| - 1;
      LineAfterSends(l, ms[..n], net);
      SendEither(LineAfter(l, ms[..n], net), ms[n], net);
      assert ms == ms[..n] + [ms[n]];
    }
  }

  // ---------- the plan of one band ----------

  /** The tool answers the band's first message by saying that it has one of the reports. */
  predicate Collision(l: Line, reports: seq<ReportDef>, net: Network) {
    reports != [] && Send(l, S2F33(Definitions(reports)), net).ack == 3
  }

  /** Define; delete and define again on a collision; link what has reports; enable what is enabled. */
  function Plan(reports: seq<ReportDef>, events: seq<EventDef>, collision: bool): seq<Message> {
    (if reports == [] then [] else [S2F33(Definitions(reports))])
      + (if collision then [S2F33(Deletions(reports)), S2F33(Definitions(reports))] else [])
      + (if Links(events) == [] then [] else [S2F35(Links(events))])
      + (if EnabledCeids(events) == [] then [] else [S2F37(true, EnabledCeids(events))])
  }

  /** `d` came of sending the first `p` messages of the list, or of the first one that did not pass. */
  ghost predicate Follows(l: Line, ms: seq<Message>, p: nat, d: Done, net: Network) {
    var n := FirstFailed(l, ms, net);
    if d.ok then p <= |ms| && p <= n && d.line == LineAfter(l, ms[..p], net)
    else n < p && n < |ms| && d.line == LineAfter(l, ms[..n + 1], net)
  }

  /** The next message is sent, and the sending goes on if it passes. */
  lemma OneMore(l: Line, ms: seq<Message>, p: nat, k: Line, net: Network)
    requires p < |ms| && Follows(l, ms, p, Done(k, true), net)
    ensures var x := Send(k, ms[p], net);
      && x.ack == AckOf(l, ms, p, net)
      && Follows(l, ms, p + 1, Done(x.line, Passes(l, ms, p, net)), net)
  {
    hide Send;
    assert ms[..p + 1][..p] == ms[..p];
  }

  lemma Unsent(l: Line, ms: seq<Message>, net: Network)
    ensures Follows(l, ms, 0, Done(l, true), net)
  {
    assert ms[..0] == [];
  }

  /** How many messages of the plan define reports. */
  function Defines(reports: seq<ReportDef>, collision: bool): nat {
    (if reports == [] then 0 else 1) + (if collision then 2 else 0)
  }

  lemma DefineFollows(l: Line, reports: seq<ReportDef>, events: seq<EventDef>, net: Network)
    ensures var collision := Collision(l, reports, net);
      Follows(l, Plan(reports, events, collision), Defines(reports, collision), DefineReports(l, reports, net), net)
  {
    hide Send, Follows, FirstFailed, LineAfter, AckOf, Links, EnabledCeids, Definitions, Deletions;
    var plan := Plan(reports, events, Collision(l, reports, net));
    Unsent(l, plan, net);
    if reports != [] {
      OneMore(l, plan, 0, l, net);
      if Collision(l, reports, net) {
        var first := Send(l, plan[0], net);
        OneMore(l, plan, 1, first.line, net);
        var deleted := Send(first.line, plan[1], net);
        if deleted.ack == 0 {
          OneMore(l, plan, 2, deleted.line, net);
        } else {
          Stopped(l, plan, 2, 3, deleted.line, net);
        }
      }
    }
  }

  lemma Stopped(l: Line, ms: seq<Message>, p: nat, q: nat, k: Line, net: Network)
    requires p <= q && Follows(l, ms, p, Done(k, false), net)
    ensures Follows(l, ms, q, Done(k, false), net)
  {
  }

  lemma LinkFollows(l: Line, reports: seq<ReportDef>, events: seq<EventDef>, k: Line, net: Network)
    requires var collision := Collision(l, reports, net);
      Follows(l, Plan(reports, events, collision), Defines(reports, collision), Done(k, true), net)
    ensures var collision := Collision(l, reports, net);
      Follows(l, Plan(reports, events, collision), Defines(reports, collision) + Linking(events),
        LinkEventReports(k, events, net), net)
  {
    hide Send, Follows, FirstFailed, LineAfter, AckOf, Links, EnabledCeids, Definitions, Deletions, Collision;
    var collision := Collision(l, reports, net);
    if Links(events) != [] {
      NoneNoCollision(l, reports, net);
      OneMore(l, Plan(reports, events, collision), Defines(reports, collision), k, net);
    }
  }

  lemma EnableFollows(l: Line, reports: seq<ReportDef>, events: seq<EventDef>, k: Line, net: Network)
    requires var collision := Collision(l, reports, net);
      Follows(l, Plan(reports, events, collision), Defines(reports, collision) + Linking(events), Done(k, true), net)
    ensures var collision := Collision(l, reports, net);
      var plan := Plan(reports, events, collision);
      Follows(l, plan, |plan|, EnableEvents(k, true, events, net), net)
  {
    hide Send, Follows, FirstFailed, LineAfter, AckOf, Links, EnabledCeids, Definitions, Deletions, Collision;
    var collision := Collision(l, reports, net);
    NoneNoCollision(l, reports, net);
    if EnabledCeids(events) != [] {
      OneMore(l, Plan(reports, events, collision), Defines(reports, collision) + Linking(events), k, net);
    }
  }

  function Linking(events: seq<EventDef>): nat {
    if Links(events) == [] then 0 else 1
  }

  lemma NoneNoCollision(l: Line, reports: seq<ReportDef>, net: Network)
    ensures Collision(l, reports, net) ==> reports != []
  {
  }

  /**
    For each band the host sends its plan up to the first message that does not pass, and
    the band is accepted exactly when every message of the plan passes.
   */
  lemma BandFollowsItsPlan(l: Line, cfg: Config, band: string, net: Network)
    ensures var reports, events := ReportsOf(cfg.reports, band), EventsOf(cfg.events, band);
      var plan := Plan(reports, events, Collision(l, reports, net));
      var d := SetupBand(l, cfg, band, net);
      && d.line == LineAfter(l, SentOf(l, plan, net), net)
      && d.line.sent == l.sent + SentOf(l, plan, net)
      && (d.ok <==> FirstFailed(l, plan, net) == |plan|)
  {
    hide DefineReports, LinkEventReports, EnableEvents, Plan, Defines, Linking, Collision, LineAfter, FirstFailed;
    var reports, events := ReportsOf(cfg.reports, band), EventsOf(cfg.events, band);
    var plan := Plan(reports, events, Collision(l, reports, net));
    var defined := DefineReports(l, reports, net);
    DefineFollows(l, reports, events, net);
    LineAfterSends(l, SentOf(l, plan, net), net);
    if defined.ok {
      LinkFollows(l, reports, events, defined.line, net);
      var linked := LinkEventReports(defined.line, events, net);
      if linked.ok {
        EnableFollows(l, reports, events, linked.line, net);
      }
    }
    assert plan[..|plan|] == plan;
  }

  // ---------- what the plan means for the tool ----------

  /**
    A band whose first S2F33 is answered with a code other than 0 and 3, or not at all, is
    refused after that one message; the tool that refused it is as it was, and so is one
    that never handled it.
   */
  lemma RefusedAtOnce(l: Line, cfg: Config, band: string, net: Network)
    requires ReportsOf(cfg.reports, band) != []
    requires Send(l, S2F33(Definitions(ReportsOf(cfg.reports, band))), net).ack !in {0, 3}
    ensures var define := S2F33(Definitions(ReportsOf(cfg.reports, band)));
      var d := SetupBand(l, cfg, band, net);
      && !d.ok
      && d.line.sent == l.sent + [define]
      && (net.fate(|l.sent|) != Silent(true) ==> d.line.tool == l.tool)
  {
    hide Definitions, Plan, DefineEach, NexgenDefineEach, ReportDict, BandOfReport;
    var define := S2F33(Definitions(ReportsOf(cfg.reports, band)));
    NackLeavesTool(net.tool, l.tool, define);
  }

  lemma NackLeavesTool(maker: Maker, e: State, m: Message)
    ensures Respond(maker, e, m).ack != 0 ==> Respond(maker, e, m).state == e
  {
    match maker
    case Base => NackChangesNothing(e, m);
    case Nexgen(p) => NexgenNackChangesNothing(p, e, m);
  }

  predicate Deletes(m: Message) {
    m.S2F33? && exists i :: 0 <= i < |m.reports| && m.reports[i].vids == []
  }

  /** A message with an empty list speaks of everything the tool has. */
  predicate ForAll(m: Message) {
    match m
    case S2F33(items) => items == []
    case S2F35(items) => items == []
    case S2F37(_, ceids) => ceids == []
  }

  lemma PlanDeletes(cfg: Config, band: string, collision: bool)
    requires WellFormed(cfg) && (collision ==> ReportsOf(cfg.reports, band) != [])
    ensures var reports, events := ReportsOf(cfg.reports, band), EventsOf(cfg.events, band);
      var plan := Plan(reports, events, collision);
      && (forall i :: 0 <= i < |plan| ==> (Deletes(plan[i]) <==> collision && i == 1))
      && (forall i :: 0 <= i < |plan| ==> !ForAll(plan[i]))
  {
    hide Links, EnabledCeids, Definitions, Deletions, WellFormed, ReportsOf;
    var reports := ReportsOf(cfg.reports, band);
    if reports != [] {
      DefineOrDelete(cfg, band);
    }
  }

  /** With no empty report configured, defining deletes nothing; the delete message deletes. */
  lemma DefineOrDelete(cfg: Config, band: string)
    requires WellFormed(cfg) && ReportsOf(cfg.reports, band) != []
    ensures var reports := ReportsOf(cfg.reports, band);
      && !Deletes(S2F33(Definitions(reports))) && Deletes(S2F33(Deletions(reports)))
      && Definitions(reports) != [] && Deletions(reports) != []
  {
    var reports := ReportsOf(cfg.reports, band);
    forall i | 0 <= i < |reports| ensures Definitions(reports)[i].vids != [] {
      ReportsOfExactly(cfg.reports, band, reports[i]);
    }
    assert Deletions(reports)[0].vids == [];
  }

  /** Reports are deleted for a band exactly when the tool answered its first S2F33 with code 3. */
  lemma DeletesOnCollisionExactly(l: Line, cfg: Config, band: string, net: Network)
    requires WellFormed(cfg)
    ensures var d := SetupBand(l, cfg, band, net);
      (exists i :: |l.sent| <= i < |d.line.sent| && Deletes(d.line.sent[i]))
        <==> Collision(l, ReportsOf(cfg.reports, band), net)
  {
    hide Collision, Plan, SetupBand, SentOf, Deletes, WellFormed;
    var reports, events := ReportsOf(cfg.reports, band), EventsOf(cfg.events, band);
    var collision := Collision(l, reports, net);
    var plan := Plan(reports, events, collision);
    var d := SetupBand(l, cfg, band, net);
    BandFollowsItsPlan(l, cfg, band, net);
    SentIsPrefix(l, plan, net);
    NoneNoCollision(l, reports, net);
    PlanDeletes(cfg, band, collision);
    forall i | |l.sent| <= i < |d.line.sent| ensures d.line.sent[i] == plan[i - |l.sent|] {
      assert d.line.sent[i] == SentOf(l, plan, net)[i - |l.sent|];
    }
    if collision {
      CollisionPasses(l, reports, events, net);
      assert Deletes(d.line.sent[|l.sent| + 1]);
    }
  }

  lemma SentIsPrefix(l: Line, ms: seq<Message>, net: Network)
    ensures SentOf(l, ms, net) <= ms
  {
  }

  /** On a collision at least the delete follows. */
  lemma CollisionPasses(l: Line, reports: seq<ReportDef>, events: seq<EventDef>, net: Network)
    requires Collision(l, reports, net)
    ensures |SentOf(l, Plan(reports, events, true), net)| >= 2
  {
    hide Send, Links, EnabledCeids, Definitions, Deletions;
    var plan := Plan(reports, events, true);
    assert plan[..0] == [];
    assert Passes(l, plan, 0, net);
  }

  /** A band is accepted only if every one of its messages was answered: silence is no acknowledgement. */
  lemma SilenceIsNeverAccepted(l: Line, cfg: Config, band: string, net: Network)
    requires SetupBand(l, cfg, band, net).ok
    ensures forall i :: |l.sent| <= i < |SetupBand(l, cfg, band, net).line.sent| ==> !net.fate(i).Silent?
  {
    hide Links, EnabledCeids, Definitions, Deletions, Plan, Respond, LineAfter, FirstFailed, DefineReports,
      LinkEventReports, EnableEvents;
    var reports, events := ReportsOf(cfg.reports, band), EventsOf(cfg.events, band);
    var plan := Plan(reports, events, Collision(l, reports, net));
    var d := SetupBand(l, cfg, band, net);
    BandFollowsItsPlan(l, cfg, band, net);
    forall i | |l.sent| <= i < |d.line.sent| ensures !net.fate(i).Silent? {
      var k := i - |l.sent|;
      assert Passes(l, plan, k, net);
      LineAfterSends(l, plan[..k], net);
    }
  }

  // ---------- all bands ----------

  /** Exactly the bands up to the first stop have a verdict. */
  lemma {:induction false} BandsAttemptedExactly(l: Line, cfg: Config, bands: seq<string>, go: nat -> bool, net: Network)
    ensures var o, b := SetupBands(l, cfg, bands, go, net), Until(|bands|, go);
      && (o.abandoned <==> b < |bands|)
      && (forall band :: band in o.bandResults <==> band in bands[..b])
  {
    hide SetupBand;
    if bands == [] {
      assert bands[..0] == [];
    } else {
      var n := |bands| - 1;
      var b := Until(n, go);
      BandsAttemptedExactly(l, cfg, bands[..n], go, net);
      assert bands[..n][..b] == bands[..b];
      assert bands[..|bands|] == bands && bands[..|bands|] == bands[..n] + [bands[n]];
    }
  }

  /** The verdict on a band is that of setting it up on the line the bands before it left. */
  lemma {:induction false} VerdictIsTheBands(
    l: Line, cfg: Config, bands: seq<string>, go: nat -> bool, net: Network, i: nat)
    requires forall j, k :: 0 <= j < k < |bands| ==> bands[j] != bands[k]
    requires i < Until(|bands|, go)
    ensures var o, before := SetupBands(l, cfg, bands, go, net), SetupBands(l, cfg, bands[..i], go, net);
      && bands[i] in o.bandResults
      && o.bandResults[bands[i]] == SetupBand(before.line, cfg, bands[i], net).ok
  {
    hide SetupBand;
    var n := |bands| - 1;
    if i < n {
      assert bands[..n][..i] == bands[..i];
      VerdictIsTheBands(l, cfg, bands[..n], go, net, i);
    } else {
      BandsAttemptedExactly(l, cfg, bands[..n], go, net);
    }
  }

  lemma {:induction false} BandsSpeakOfTheirOwn(
    l: Line, cfg: Config, bands: seq<string>, go: nat -> bool, net: Network)
    requires WellFormed(cfg)
    ensures var o := SetupBands(l, cfg, bands, go, net);
      && l.sent <= o.line.sent
      && forall i :: |l.sent| <= i < |o.line.sent| ==> !ForAll(o.line.sent[i])
  {
    hide SetupBand, WellFormed, ForAll;
    if bands != [] {
      var n := |bands| - 1;
      var before := SetupBands(l, cfg, bands[..n], go, net);
      BandsSpeakOfTheirOwn(l, cfg, bands[..n], go, net);
      if !before.abandoned && go(n) {
        BandSpeaksOfItsOwn(before.line, cfg, bands[n], net);
      }
    }
  }

  lemma BandSpeaksOfItsOwn(l: Line, cfg: Config, band: string, net: Network)
    requires WellFormed(cfg)
    ensures var d := SetupBand(l, cfg, band, net);
      && l.sent <= d.line.sent
      && forall i :: |l.sent| <= i < |d.line.sent| ==> !ForAll(d.line.sent[i])
  {
    hide Send, Links, EnabledCeids, Definitions, Deletions, WellFormed, ForAll, Deletes, LineAfter, FirstFailed, Plan,
      SetupBand;
    BandFollowsItsPlan(l, cfg, band, net);
    PlanDeletes(cfg, band, Collision(l, ReportsOf(cfg.reports, band), net));
  }

  /** The tool is told to forget everything exactly when a reset was asked for and the session is still current. */
  lemma ResetSentExactly(
    l: Line, cfg: Config, resetFirst: bool, goReset: bool, go: nat -> bool, net: Network)
    requires WellFormed(cfg)
    ensures var o := SetupSubscriptions(l, cfg, resetFirst, goReset, go, net);
      (exists i :: |l.sent| <= i < |o.line.sent| && ForAll(o.line.sent[i])) <==> resetFirst && goReset
  {
    hide SetupBands, WellFormed, Respond;
    var start := if resetFirst && goReset then ResetAll(l, net).line else l;
    BandsSpeakOfTheirOwn(start, cfg, BandOrder(cfg.reports, cfg.events), go, net);
    var o := SetupSubscriptions(l, cfg, resetFirst, goReset, go, net);
    if resetFirst && goReset {
      assert start.sent == l.sent + [RESET[0], RESET[1], RESET[2]];
      assert o.line.sent[|l.sent|] == RESET[0] && ForAll(RESET[0]);
    }
  }
}
