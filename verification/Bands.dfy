/**
  `_apply_bands` of scripts/gen_davinci_full_subscription.py, which derives the
  band of every event and report and refuses a file whose bands would let one
  band's messages touch another's. Its success is the banding condition that
  the subscription theorems start from.
 */
module Bands {
  import opened Subscription

  /** `DAVINCI_BANDS.get(ceid // 1000, "other")`; the table is data. */
  type BandOf = nat -> string

  /** Two events in different bands both link the report. */
  ghost predicate LinkedAcrossBands(events: seq<EventDef>, bandOf: BandOf, rptid: nat) {
    exists i, j ::
      && 0 <= i < |events| && 0 <= j < |events|
      && rptid in events[i].rptids && rptid in events[j].rptids
      && bandOf(events[i].ceid) != bandOf(events[j].ceid)
  }

  ghost predicate LinkedBy(events: seq<EventDef>, rptid: nat) {
    exists i :: 0 <= i < |events| && rptid in events[i].rptids
  }

  ghost predicate Derivable(events: seq<EventDef>, reports: seq<ReportDef>, bandOf: BandOf) {
    && (forall rptid :: !LinkedAcrossBands(events, bandOf, rptid))
    && (forall i :: 0 <= i < |reports| ==> LinkedBy(events, reports[i].rptid))
  }

  /** `linked` holds, for each report the events link, the band of one of the events linking it. */
  ghost predicate FirstBands(events: seq<EventDef>, bandOf: BandOf, linked: map<nat, string>) {
    && (forall r :: r in linked <==> LinkedBy(events, r))
    && (forall r :: r in linked ==> LinkedIn(events, bandOf, r, linked[r]))
  }

  ghost predicate LinkedIn(events: seq<EventDef>, bandOf: BandOf, rptid: nat, band: string) {
    exists i :: 0 <= i < |events| && rptid in events[i].rptids && bandOf(events[i].ceid) == band
  }

  ghost predicate Clash(events: seq<EventDef>, bandOf: BandOf) {
    exists r :: LinkedAcrossBands(events, bandOf, r)
  }

  /** The events as the loop leaves them after `n` records. */
  function Rebanded(events: seq<EventDef>, bandOf: BandOf, n: nat): seq<EventDef> {
    seq(|events|, i requires 0 <= i < |events| =>
      if i < n then events[i].(band := bandOf(events[i].ceid)) else events[i])
  }

  /** One event joins: its reports are looked up, and new ones recorded under its band. */
  function Absorb(linked: map<nat, string>, rptids: seq<nat>, band: string): map<nat, string> {
    if rptids == [] then linked
    else
      var n := |rptids| - 1;
      var before := Absorb(linked, rptids[..n], band);
      if rptids[n] in before then before else before[rptids[n] := band]
  }

  predicate Disagrees(linked: map<nat, string>, rptids: seq<nat>, band: string) {
    exists k :: 0 <= k < |rptids| && rptids[k] in linked && linked[rptids[k]] != band
  }

  lemma {:induction false} AbsorbExactly(linked: map<nat, string>, rptids: seq<nat>, band: string)
    ensures var a := Absorb(linked, rptids, band);
      && (forall r :: r in a <==> r in linked || r in rptids)
      && (forall r :: r in linked ==> a[r] == linked[r])
      && (forall r :: r in a && r !in linked ==> a[r] == band)
  {
    if rptids != [] {
      var n := |rptids| - 1;
      AbsorbExactly(linked, rptids[..n], band);
      assert rptids == rptids[..n] + [rptids[n]];
    }
  }

  lemma LinkedSnoc(events: seq<EventDef>, n: nat, r: nat)
    requires n < |events|
    ensures LinkedBy(events[..n + 1], r) <==> LinkedBy(events[..n], r) || r in events[n].rptids
  {
  }

  lemma AbsorbKeepsFirstBands(events: seq<EventDef>, bandOf: BandOf, linked: map<nat, string>, n: nat)
    requires n < |events| && FirstBands(events[..n], bandOf, linked)
    ensures FirstBands(events[..n + 1], bandOf, Absorb(linked, events[n].rptids, bandOf(events[n].ceid)))
  {
    var band := bandOf(events[n].ceid);
    var a := Absorb(linked, events[n].rptids, band);
    AbsorbExactly(linked, events[n].rptids, band);
    forall r ensures r in a <==> LinkedBy(events[..n + 1], r) {
      LinkedSnoc(events, n, r);
    }
    forall r | r in a
      ensures LinkedIn(events[..n + 1], bandOf, r, a[r])
    {
      if r in linked {
        var i :| 0 <= i < n && r in events[..n][i].rptids && bandOf(events[..n][i].ceid) == linked[r];
        assert events[..n + 1][i] == events[i];
      } else {
        assert events[..n + 1][n] == events[n];
      }
    }
  }

  lemma ClashGrows(events: seq<EventDef>, bandOf: BandOf, n: nat)
    requires n < |events| && Clash(events[..n], bandOf)
    ensures Clash(events[..n + 1], bandOf)
  {
    var es := events[..n + 1];
    assert forall i :: 0 <= i < n ==> es[i] == events[..n][i];
    var r :| LinkedAcrossBands(events[..n], bandOf, r);
    var i, j :| 0 <= i < n && 0 <= j < n && r in events[..n][i].rptids && r in events[..n][j].rptids
      && bandOf(events[..n][i].ceid) != bandOf(events[..n][j].ceid);
    assert r in es[i].rptids && r in es[j].rptids;
    assert LinkedAcrossBands(es, bandOf, r);
  }

  lemma DisagreementIsAClash(events: seq<EventDef>, bandOf: BandOf, linked: map<nat, string>, n: nat)
    requires n < |events| && FirstBands(events[..n], bandOf, linked)
    requires Disagrees(linked, events[n].rptids, bandOf(events[n].ceid))
    ensures Clash(events[..n + 1], bandOf)
  {
    var es, band := events[..n + 1], bandOf(events[n].ceid);
    var k :| 0 <= k < |events[n].rptids| && events[n].rptids[k] in linked && linked[events[n].rptids[k]] != band;
    var r := events[n].rptids[k];
    assert LinkedIn(events[..n], bandOf, r, linked[r]);
    var i :| 0 <= i < n && r in events[..n][i].rptids && bandOf(events[..n][i].ceid) == linked[r];
    assert es[i] == events[..n][i] && es[n] == events[n];
    assert r in es[i].rptids && r in es[n].rptids;
    assert LinkedAcrossBands(es, bandOf, r);
  }

  /** Comparing with the first band recorded finds every disagreement there is. */
  lemma ClashSnoc(events: seq<EventDef>, bandOf: BandOf, linked: map<nat, string>, n: nat)
    requires n < |events| && FirstBands(events[..n], bandOf, linked)
    ensures Clash(events[..n + 1], bandOf) <==>
      Clash(events[..n], bandOf) || Disagrees(linked, events[n].rptids, bandOf(events[n].ceid))
  {
    hide FirstBands, Disagrees;
    var es := events[..n + 1];
    if Clash(events[..n], bandOf) {
      ClashGrows(events, bandOf, n);
    } else if Disagrees(linked, events[n].rptids, bandOf(events[n].ceid)) {
      DisagreementIsAClash(events, bandOf, linked, n);
    } else if Clash(es, bandOf) {
      var r :| LinkedAcrossBands(es, bandOf, r);
      var i, j :| 0 <= i <= n && 0 <= j <= n && r in es[i].rptids && r in es[j].rptids
        && bandOf(es[i].ceid) != bandOf(es[j].ceid);
      assert !LinkedAcrossBands(events[..n], bandOf, r);
      assert forall k :: 0 <= k < n ==> es[k] == events[..n][k];
      NewDisagreement(events, bandOf, linked, n, r, if i < n then i else j);
    }
  }

  lemma NewDisagreement(
    events: seq<EventDef>, bandOf: BandOf, linked: map<nat, string>, n: nat, r: nat, i: nat)
    requires n < |events| && i < n && FirstBands(events[..n], bandOf, linked)
    requires !Clash(events[..n], bandOf)
    requires r in events[i].rptids && r in events[n].rptids && bandOf(events[i].ceid) != bandOf(events[n].ceid)
    ensures Disagrees(linked, events[n].rptids, bandOf(events[n].ceid))
  {
    assert r in events[..n][i].rptids;
    assert LinkedBy(events[..n], r);
    var j :| 0 <= j < n && r in events[..n][j].rptids && bandOf(events[..n][j].ceid) == linked[r];
    assert !LinkedAcrossBands(events[..n], bandOf, r);
    var k :| 0 <= k < |events[n].rptids| && events[n].rptids[k] == r;
    assert events[n].rptids[k] in linked;
  }

  /**
    The script's loop. It returns normally exactly when no report is linked from
    two bands and none is orphaned, and then every report has the band of every
    event that links it. A refusal leaves the reports as they were.
   */
  method ApplyBands(events: array<EventDef>, reports: array<ReportDef>, bandOf: BandOf) returns (ok: bool)
    modifies events, reports
    ensures ok <==> Derivable(old(events[..]), old(reports[..]), bandOf)
    ensures events[..] == Rebanded(old(events[..]), bandOf, events.Length)
    ensures !ok ==> reports[..] == old(reports[..])
    ensures ok ==> forall k :: 0 <= k < reports.Length ==> reports[k] == old(reports[k]).(band := reports[k].band)
    ensures ok ==> Separated(Config(reports[..], events[..]))
  {
    hide Rebanded, FirstBands, LinkedAcrossBands;
    ghost var es := events[..];
    var linked, conflicts := DeriveEvents(events, bandOf);
    ghost var rs := reports[..];
    OrphansExactly(es, rs, bandOf, linked);
    var orphans := exists i :: 0 <= i < reports.Length && reports[i].rptid !in linked;
    if conflicts || orphans {
      return false;
    }
    var i := 0;
    while i < reports.Length
      modifies reports
      invariant i <= reports.Length
      invariant forall k :: 0 <= k < reports.Length ==>
        reports[k] == if k < i then rs[k].(band := linked[rs[k].rptid]) else rs[k]
    {
      reports[i] := reports[i].(band := linked[reports[i].rptid]);
      i := i + 1;
    }
    ok := true;
    DerivedBandsSeparate(es, rs, bandOf, linked, Config(reports[..], events[..]));
  }

  lemma OrphansExactly(es: seq<EventDef>, rs: seq<ReportDef>, bandOf: BandOf, linked: map<nat, string>)
    requires FirstBands(es, bandOf, linked)
    ensures Derivable(es, rs, bandOf) <==> !Clash(es, bandOf) && forall i :: 0 <= i < |rs| ==> rs[i].rptid in linked
  {
  }

  /** The loop over the events: it writes their bands and collects the bands of the reports. */
  method DeriveEvents(events: array<EventDef>, bandOf: BandOf)
    returns (linked: map<nat, string>, conflicts: bool)
    modifies events
    ensures events[..] == Rebanded(old(events[..]), bandOf, events.Length)
    ensures FirstBands(old(events[..]), bandOf, linked)
    ensures conflicts <==> Clash(old(events[..]), bandOf)
  {
    hide FirstBands, Clash;
    ghost var es := events[..];
    linked, conflicts := map[], false;
    NothingLinked(bandOf);
    var n := 0;
    while n < events.Length
      invariant n <= events.Length
      invariant forall k :: 0 <= k < events.Length ==>
        events[k] == if k < n then es[k].(band := bandOf(es[k].ceid)) else es[k]
      invariant FirstBands(es[..n], bandOf, linked)
      invariant conflicts <==> Clash(es[..n], bandOf)
    {
      var band := bandOf(events[n].ceid);
      AbsorbKeepsFirstBands(es, bandOf, linked, n);
      ClashSnoc(es, bandOf, linked, n);
      events[n] := events[n].(band := band);
      var disagrees;
      linked, disagrees := AbsorbEvent(linked, events[n].rptids, band);
      conflicts := conflicts || disagrees;
      n := n + 1;
    }
    assert es[..n] == es;
  }

  lemma NothingLinked(bandOf: BandOf)
    ensures FirstBands([], bandOf, map[]) && !Clash([], bandOf)
  {
  }

  /**
    A report met twice in one event agrees with itself: only a band recorded by
    an earlier event can disagree.
   */
  lemma DisagreesSnoc(before: map<nat, string>, rptids: seq<nat>, band: string, k: nat)
    requires k < |rptids|
    ensures var linked := Absorb(before, rptids[..k], band);
      Disagrees(before, rptids[..k + 1], band) <==>
        Disagrees(before, rptids[..k], band) || (rptids[k] in linked && linked[rptids[k]] != band)
  {
    AbsorbExactly(before, rptids[..k], band);
    var longer := rptids[..k + 1];
    assert forall j :: 0 <= j < k ==> longer[j] == rptids[..k][j];
    assert longer[k] == rptids[k];
    if Disagrees(before, rptids[..k], band) {
      var j :| 0 <= j < k && rptids[..k][j] in before && before[rptids[..k][j]] != band;
      assert longer[j] in before;
    }
  }

  lemma DisagreesNone(before: map<nat, string>, band: string)
    ensures !Disagrees(before, [], band)
  {
  }

  /** The inner loop over one event's reports. */
  method AbsorbEvent(before: map<nat, string>, rptids: seq<nat>, band: string)
    returns (linked: map<nat, string>, disagrees: bool)
    ensures linked == Absorb(before, rptids, band)
    ensures disagrees <==> Disagrees(before, rptids, band)
  {
    hide Disagrees;
    linked, disagrees := before, false;
    DisagreesNone(before, band);
    var k := 0;
    while k < |rptids|
      invariant k <= |rptids|
      invariant linked == Absorb(before, rptids[..k], band)
      invariant disagrees <==> Disagrees(before, rptids[..k], band)
    {
      assert rptids[..k + 1][..k] == rptids[..k];
      AbsorbExactly(before, rptids[..k], band);
      DisagreesSnoc(before, rptids, band, k);
      if rptids[k] !in linked {
        linked := linked[rptids[k] := band];
      } else if linked[rptids[k]] != band {
        disagrees := true;
      }
      k := k + 1;
    }
    assert rptids[..|rptids|] == rptids;
  }

  lemma DerivedBandsSeparate(
    es: seq<EventDef>, rs: seq<ReportDef>, bandOf: BandOf, linked: map<nat, string>, cfg: Config)
    requires FirstBands(es, bandOf, linked) && !Clash(es, bandOf)
    requires cfg.events == Rebanded(es, bandOf, |es|)
    requires |cfg.reports| == |rs|
    requires forall k :: 0 <= k < |rs| ==> rs[k].rptid in linked
    requires forall k :: 0 <= k < |rs| ==> cfg.reports[k] == rs[k].(band := linked[rs[k].rptid])
    ensures Separated(cfg)
  {
    forall i, j | 0 <= i < |cfg.events| && 0 <= j < |cfg.reports| && cfg.reports[j].rptid in cfg.events[i].rptids
      ensures cfg.reports[j].band == cfg.events[i].band
    {
      var r := rs[j].rptid;
      var k :| 0 <= k < |es| && r in es[k].rptids && bandOf(es[k].ceid) == linked[r];
      assert r in es[i].rptids;
      assert !LinkedAcrossBands(es, bandOf, r);
    }
  }

  /**
    What the script does not check is a link to a report nobody configured: the
    separated bands it derives are the banding the end-to-end theorem needs
    exactly when every linked report is configured.
   */
  lemma BandedExactlyWhenConfigured(cfg: Config)
    requires Separated(cfg)
    ensures Banded(cfg) <==>
      forall i, r :: 0 <= i < |cfg.events| && r in cfg.events[i].rptids ==>
        exists j :: 0 <= j < |cfg.reports| && cfg.reports[j].rptid == r
  {
  }

  const NOBODYS_REPORT := EventDef(1, [7], true, "")

  /** One event linked to a report nobody configured: the script derives its band without complaint. */
  lemma NobodysReportIsDerived(bandOf: BandOf)
    ensures var cfg := Config([], Rebanded([NOBODYS_REPORT], bandOf, 1));
      && Derivable([NOBODYS_REPORT], [], bandOf)
      && WellFormed(cfg) && Separated(cfg) && !Banded(cfg)
      && cfg.events[0].band in BandOrder(cfg.reports, cfg.events) && !LinksConfigured(cfg, cfg.events[0].band)
  {
    var cfg := Config([], Rebanded([NOBODYS_REPORT], bandOf, 1));
    assert cfg.events == [NOBODYS_REPORT.(band := bandOf(1))];
    assert cfg.events[0].rptids[0] == 7 && 7 in cfg.events[0].rptids && !ReportListed(cfg, 7);
    BandOrderExactly(cfg.reports, cfg.events, bandOf(1));
    assert cfg.events[0] in cfg.events;
  }
}
