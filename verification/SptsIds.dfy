/**
  The identifier arithmetic of eap_middleware/spts_module_vids.py: alarm ids and their
  collection events split back into station, type and offset, and module variable ids
  resolved for a layout of stations.
 */
module SptsIds {
  import opened Wrappers

  // ---------- alarms ----------

  const STATION_STRIDE := 10_000_000
  const TYPE_STRIDE := 100_000
  const CEID_BIAS := 10_000
  const OFF_BIAS := 1_000_000_000

  /** Transport, the load locks, the process modules and the cool station. */
  const STATION_NUMBERS: map<string, nat> := map[
    "Transport" := 0, "VCE A" := 1, "Process Module 1" := 2, "Process Module 2" := 3, "Process Module 3" := 4,
    "Process Module 4" := 5, "Process Module 5" := 6, "Process Module 6" := 7, "VCE B" := 8, "Cool Station" := 10]

  predicate Listed(station: int) {
    0 <= station <= 8 || station == 10
  }

  datatype Alarm = Alarm(station: int, kind: int, offset: int)

  function Alid(a: Alarm): int {
    a.station * STATION_STRIDE + a.kind * TYPE_STRIDE + a.offset
  }

  function OnCeid(a: Alarm): int {
    Alid(a) + CEID_BIAS
  }

  function OffCeid(a: Alarm): int {
    OnCeid(a) + OFF_BIAS
  }

  /** None is text that is not a number. */
  function Decode(id: Option<int>): Option<Alarm> {
    if id.None? || id.value < 0 then None
    else
      var value := if id.value >= OFF_BIAS then id.value - OFF_BIAS else id.value;
      var station, rest := value / STATION_STRIDE, value % STATION_STRIDE;
      var kind, low := rest / TYPE_STRIDE, rest % TYPE_STRIDE;
      var offset := if low >= CEID_BIAS then low - CEID_BIAS else low;
      if Listed(station) then Some(Alarm(station, kind, offset)) else None
  }

  /** A listed station, a type that fits its field, and an offset that fits its own. */
  predicate WellFormed(a: Alarm) {
    Listed(a.station) && 0 <= a.kind < 100 && 0 <= a.offset < TYPE_STRIDE
  }

  lemma ListedIsTheTable(n: int)
    ensures Listed(n) <==> exists s :: s in STATION_NUMBERS && STATION_NUMBERS[s] == n
  {
    if n == 0 { assert STATION_NUMBERS["Transport"] == n; }
    if n == 1 { assert STATION_NUMBERS["VCE A"] == n; }
    if n == 2 { assert STATION_NUMBERS["Process Module 1"] == n; }
    if n == 3 { assert STATION_NUMBERS["Process Module 2"] == n; }
    if n == 4 { assert STATION_NUMBERS["Process Module 3"] == n; }
    if n == 5 { assert STATION_NUMBERS["Process Module 4"] == n; }
    if n == 6 { assert STATION_NUMBERS["Process Module 5"] == n; }
    if n == 7 { assert STATION_NUMBERS["Process Module 6"] == n; }
    if n == 8 { assert STATION_NUMBERS["VCE B"] == n; }
    if n == 10 { assert STATION_NUMBERS["Cool Station"] == n; }
  }

  lemma SplitAlarm(station: int, kind: int, low: int)
    requires 0 <= kind < 100 && 0 <= low < TYPE_STRIDE
    ensures var value := station * STATION_STRIDE + kind * TYPE_STRIDE + low;
      && value / STATION_STRIDE == station && value % STATION_STRIDE == kind * TYPE_STRIDE + low
      && (value % STATION_STRIDE) / TYPE_STRIDE == kind && (value % STATION_STRIDE) % TYPE_STRIDE == low
  {
  }

  /** An alarm id decodes to its alarm exactly when the offset is below 10000. */
  lemma AlidRoundTrip(a: Alarm)
    requires WellFormed(a)
    ensures Decode(Some(Alid(a))) == Some(a) <==> a.offset < CEID_BIAS
  {
    SplitAlarm(a.station, a.kind, a.offset);
  }

  /** The two collection-event forms decode exactly when the biased offset still fits its field. */
  lemma CeidRoundTrips(a: Alarm)
    requires WellFormed(a)
    ensures Decode(Some(OnCeid(a))) == Some(a) <==> a.offset < TYPE_STRIDE - CEID_BIAS
    ensures Decode(Some(OffCeid(a))) == Some(a) <==> a.offset < TYPE_STRIDE - CEID_BIAS
  {
  }

  /** Whatever decodes was one of the alarm's forms, counting an alarm id with the off bias alone. */
  lemma DecodesOnlyForms(id: int, a: Alarm)
    requires Decode(Some(id)) == Some(a)
    ensures WellFormed(a) && a.offset < TYPE_STRIDE - CEID_BIAS
    ensures id == Alid(a) || id == OnCeid(a) || id == OffCeid(a) || id == Alid(a) + OFF_BIAS
  {
  }

  /** An alarm id with the off bias and without the on bias is taken for its alarm too. */
  lemma OffWithoutOnRoundTrip(a: Alarm)
    requires WellFormed(a)
    ensures Decode(Some(Alid(a) + OFF_BIAS)) == Some(a) <==> a.offset < CEID_BIAS
  {
    SplitAlarm(a.station, a.kind, a.offset);
  }

  /**
    Exactly what decodes to an alarm: its id, without or with the off bias, while the
    offset is below 10000, and its two event ids while the biased offset fits its field.
   */
  lemma DecodesExactly(id: int, a: Alarm)
    ensures Decode(Some(id)) == Some(a) <==>
      && WellFormed(a)
      && (|| (a.offset < CEID_BIAS && (id == Alid(a) || id == Alid(a) + OFF_BIAS))
          || (a.offset < TYPE_STRIDE - CEID_BIAS && (id == OnCeid(a) || id == OffCeid(a))))
  {
    hide Decode;
    if Decode(Some(id)) == Some(a) {
      DecodesOnlyForms(id, a);
    }
    if WellFormed(a) {
      AlidRoundTrip(a);
      CeidRoundTrips(a);
      OffWithoutOnRoundTrip(a);
    }
  }

  // ---------- module variables ----------

  datatype Variable = Variable(offset: nat, name: string)

  /** The manual's tables: station numbers, type offsets, and each family's variables in order. */
  datatype Tables = Tables(stations: map<string, nat>, types: map<string, nat>, families: map<string, seq<Variable>>)

  const TYPE_OFFSETS: map<string, nat> := map[
    "ForceFill" := 3, "SDep" := 4, "HSE" := 7, "HeatNT" := 9, "Etch" := 24, "Deposition" := 25, "Softetch" := 26,
    "C3M" := 46, "PrimaxxMonarch25" := 53, "ProCve" := 58]

  /** One entry of the layout: the family of modules a station holds. */
  datatype Placed = Placed(station: string, family: string)

  ghost predicate DistinctOffsets(vs: seq<Variable>) {
    forall j, k :: 0 <= j < k < |vs| ==> vs[j].offset != vs[k].offset
  }

  ghost predicate InBlock(base: nat, vs: seq<Variable>) {
    forall k :: 0 <= k < |vs| ==> base * 100 + vs[k].offset < 10_000
  }

  ghost predicate OneNumberEach(stations: map<string, nat>) {
    forall s, u :: s in stations && u in stations && stations[s] == stations[u] ==> s == u
  }

  /** Stations have distinct numbers, a family's offsets are distinct, and a family stays in its station's block. */
  ghost predicate Published(t: Tables) {
    && OneNumberEach(t.stations)
    && (forall f :: f in t.families ==> DistinctOffsets(t.families[f]))
    && (forall f :: f in t.families && f in t.types ==> InBlock(t.types[f], t.families[f]))
  }

  function Vid(t: Tables, p: Placed, offset: nat): nat
    requires p.station in t.stations && p.family in t.types
  {
    t.stations[p.station] * 10_000 + t.types[p.family] * 100 + offset + 10_000
  }

  predicate Known(t: Tables, p: Placed) {
    p.station in t.stations && p.family in t.types && p.family in t.families
  }

  /** The manual's station and type tables keep every family of at most 201 offsets in its block. */
  lemma ManualIsPublished(families: map<string, seq<Variable>>)
    requires forall f :: f in families ==>
      DistinctOffsets(families[f]) && forall k :: 0 <= k < |families[f]| ==> families[f][k].offset <= 200
    ensures Published(Tables(STATION_NUMBERS, TYPE_OFFSETS, families))
  {
    StationsAreDistinct();
    forall f | f in families && f in TYPE_OFFSETS ensures InBlock(TYPE_OFFSETS[f], families[f]) {
      TypesAreSmall(f);
    }
  }

  lemma StationsAreDistinct()
    ensures OneNumberEach(STATION_NUMBERS)
  {
  }

  lemma TypesAreSmall(f: string)
    requires f in TYPE_OFFSETS
    ensures TYPE_OFFSETS[f] <= 58
  {
  }

  /** The entry and the variable an id is computed from, for entries with distinct stations. */
  ghost predicate Claims(t: Tables, layout: seq<Placed>, i: nat, k: nat, vid: nat) {
    && i < |layout| && Known(t, layout[i]) && k < |t.families[layout[i].family]|
    && vid == Vid(t, layout[i], t.families[layout[i].family][k].offset)
  }

  ghost predicate DistinctStations(layout: seq<Placed>) {
    forall i, j :: 0 <= i < j < |layout| ==> layout[i].station != layout[j].station
  }

  /** Every id belongs to one variable of one station: each station has its own block of ids. */
  lemma OneClaim(t: Tables, layout: seq<Placed>, i: nat, k: nat, j: nat, l: nat, vid: nat)
    requires Published(t) && DistinctStations(layout)
    requires Claims(t, layout, i, k, vid) && Claims(t, layout, j, l, vid)
    ensures i == j && k == l
  {
  }

  /** Without the layout an id is ambiguous: two families of one station can claim it. */
  lemma FamiliesOverlap(families: map<string, seq<Variable>>)
    ensures var t := Tables(STATION_NUMBERS, TYPE_OFFSETS, families);
      Vid(t, Placed("Process Module 1", "Etch"), 100) == Vid(t, Placed("Process Module 1", "Deposition"), 0) == 32500
  {
  }

  datatype Resolved = Names(names: map<nat, string>) | UnknownFamily | UnknownStation | NoTypeOffset | Clash

  /** Before variable `m` of entry `n`, in the order the source walks them. */
  predicate Earlier(i: nat, k: nat, n: nat, m: nat) {
    i < n || (i == n && k < m)
  }

  ghost predicate Claimed(t: Tables, layout: seq<Placed>, n: nat, m: nat, vid: nat) {
    exists i: nat, k: nat :: Earlier(i, k, n, m) && Claims(t, layout, i, k, vid)
  }

  ghost predicate OnlyClaimed(t: Tables, layout: seq<Placed>, n: nat, m: nat, names: map<nat, string>) {
    forall vid :: vid in names ==> Claimed(t, layout, n, m, vid)
  }

  ghost predicate AllNamed(t: Tables, layout: seq<Placed>, n: nat, m: nat, names: map<nat, string>) {
    forall i: nat, k: nat, vid: nat :: Earlier(i, k, n, m) && Claims(t, layout, i, k, vid) ==>
      vid in names && names[vid] == t.families[layout[i].family][k].name
  }

  /** A new variable's id is not taken: the clash the source guards against cannot happen. */
  lemma NotTaken(t: Tables, layout: seq<Placed>, n: nat, m: nat, names: map<nat, string>, vid: nat)
    requires Published(t) && DistinctStations(layout) && Claims(t, layout, n, m, vid)
    requires OnlyClaimed(t, layout, n, m, names)
    ensures vid !in names
  {
  }

  lemma OneMoreVariable(t: Tables, layout: seq<Placed>, n: nat, m: nat, names: map<nat, string>, vid: nat)
    requires Published(t) && DistinctStations(layout) && Claims(t, layout, n, m, vid)
    requires OnlyClaimed(t, layout, n, m, names) && AllNamed(t, layout, n, m, names)
    ensures var more := names[vid := t.families[layout[n].family][m].name];
      OnlyClaimed(t, layout, n, m + 1, more) && AllNamed(t, layout, n, m + 1, more)
  {
  }

  /** Past its last variable an entry is done. */
  lemma EntryDone(t: Tables, layout: seq<Placed>, n: nat, m: nat, names: map<nat, string>)
    requires n < |layout| && layout[n].family in t.families && m == |t.families[layout[n].family]|
    requires OnlyClaimed(t, layout, n, m, names) && AllNamed(t, layout, n, m, names)
    ensures OnlyClaimed(t, layout, n + 1, 0, names) && AllNamed(t, layout, n + 1, 0, names)
  {
  }

  predicate Resolvable(t: Tables, p: Placed) {
    p.family in t.families && (t.families[p.family] == [] || Known(t, p))
  }

  /**
    Resolving a layout never clashes. It succeeds exactly when every entry is in the
    tables, and then names exactly the ids of the layout's variables, each rightly.
   */
  method Resolve(t: Tables, layout: seq<Placed>) returns (r: Resolved)
    requires Published(t) && DistinctStations(layout)
    ensures r != Clash
    ensures r.Names? <==> forall n :: 0 <= n < |layout| ==> Resolvable(t, layout[n])
    ensures r.Names? ==> OnlyClaimed(t, layout, |layout|, 0, r.names) && AllNamed(t, layout, |layout|, 0, r.names)
  {
    hide Published, DistinctStations, OnlyClaimed, AllNamed;
    var names: map<nat, string>, owner: map<nat, Placed> := map[], map[];
    var n := 0;
    assert OnlyClaimed(t, layout, 0, 0, names) && AllNamed(t, layout, 0, 0, names) by {
      NothingYet(t, layout);
    }
    while n < |layout|
      invariant n <= |layout| && names.Keys == owner.Keys
      invariant forall i :: 0 <= i < n ==> Resolvable(t, layout[i])
      invariant OnlyClaimed(t, layout, n, 0, names) && AllNamed(t, layout, n, 0, names)
    {
      var p := layout[n];
      if p.family !in t.families {
        return UnknownFamily;
      }
      var variables := t.families[p.family];
      var m := 0;
      while m < |variables|
        invariant m <= |variables| && names.Keys == owner.Keys
        invariant m > 0 ==> Known(t, p)
        invariant OnlyClaimed(t, layout, n, m, names) && AllNamed(t, layout, n, m, names)
      {
        if p.station !in t.stations {
          return UnknownStation;
        }
        if p.family !in t.types {
          return NoTypeOffset;
        }
        var vid := Vid(t, p, variables[m].offset);
        assert Claims(t, layout, n, m, vid);
        if vid in names && owner[vid] != p {
          NotTaken(t, layout, n, m, names, vid);
          return Clash;
        }
        OneMoreVariable(t, layout, n, m, names, vid);
        names := names[vid := variables[m].name];
        owner := owner[vid := p];
        m := m + 1;
      }
      EntryDone(t, layout, n, m, names);
      n := n + 1;
    }
    return Names(names);
  }

  lemma NothingYet(t: Tables, layout: seq<Placed>)
    ensures OnlyClaimed(t, layout, 0, 0, map[]) && AllNamed(t, layout, 0, 0, map[])
  {
  }
}
