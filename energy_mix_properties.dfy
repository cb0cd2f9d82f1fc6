/** What `async_get_energy_mix` returns, stated in terms of the entries the
    nine fetches deliver: one record per distinct timestamp, in strictly
    ascending order, whose volumes are the last volumes reported for that
    timestamp and whose shares follow from them. */
module EnergyMixProperties {
  import opened Lexicographic
  import opened EnergyData
  import opened EnergyShares
  import opened NedApiClient
  import opened MergeProperties

  /** The row of `energy_types` that holds a source. */
  function RowOf(s: Source): (i: nat)
    ensures i < |EnergyTypes| && EnergyTypes[i].source == s
  {
    match s
    case Solar => 0
    case Wind => 1
    case WindOffshore => 2
    case Coal => 3
    case Gas => 4
    case Nuclear => 5
    case Biomass => 6
    case Hydro => 7
    case Other => 8
  }

  /** The provider type id fetched for a source. */
  function TypeIdOf(s: Source): nat {
    EnergyTypes[RowOf(s)].typeId
  }

  /** The volume the fetch of source `s` reports last for timestamp `t`, or 0
      if it reports none. */
  function Reported(fetch: Fetch, s: Source, t: string): real {
    LastVolume(fetch(TypeIdOf(s)), t).GetOr(0.0)
  }

  /** Some fetch reports an entry recorded under `t`. */
  predicate Observed(fetch: Fetch, t: string) {
    exists s: Source :: Seen(fetch(TypeIdOf(s)), t)
  }

  /** Every source has a row of its own: the table lists nine distinct sources. */
  lemma TableDistinct()
    ensures DistinctSources(EnergyTypes)
  {
  }

  /** The merged `result`: a bucket for exactly the observed timestamps,
      holding for every source the volume that source reported last. */
  lemma MergedAt(fetch: Fetch, t: string)
    ensures t in Merged(fetch) <==> Observed(fetch, t)
    ensures t in Merged(fetch) ==>
      forall s :: s in Merged(fetch)[t] && Merged(fetch)[t][s] == Reported(fetch, s, t)
  {
    TableDistinct();
    MergeTypesAt(fetch, EnergyTypes, t);
    forall s: Source
      ensures LastVolume(fetch(TypeIdOf(s)), t).Some? <==> Seen(fetch(TypeIdOf(s)), t)
    {
      LastVolumeSeen(fetch(TypeIdOf(s)), t);
    }
    if t in Merged(fetch) {
      var i :| 0 <= i < |EnergyTypes| && LastVolume(fetch(EnergyTypes[i].typeId), t).Some?;
      assert RowOf(EnergyTypes[i].source) == i;
      assert Seen(fetch(TypeIdOf(EnergyTypes[i].source)), t);
      forall s: Source
        ensures s in Merged(fetch)[t] && Merged(fetch)[t][s] == Reported(fetch, s, t)
      {
        assert EnergyTypes[RowOf(s)].source == s;
      }
    }
    if Observed(fetch, t) {
      var s: Source :| Seen(fetch(TypeIdOf(s)), t);
      assert LastVolume(fetch(EnergyTypes[RowOf(s)].typeId), t).Some?;
    }
  }

  /** The records' timestamps are the observed timestamps, each once, in
      strictly ascending order. */
  lemma EnergyMixTimestamps(fetch: Fetch)
    ensures Ascending(Timestamps(EnergyMix(fetch)))
    ensures forall t :: t in Timestamps(EnergyMix(fetch)) <==> Observed(fetch, t)
  {
    MergedComplete(fetch);
    ProcessedTimestamps(Merged(fetch));
    forall t
      ensures t in Merged(fetch) <==> Observed(fetch, t)
    {
      MergedAt(fetch, t);
    }
  }

  /** The result is empty exactly when no fetched entry has a timestamp. */
  lemma EnergyMixEmpty(fetch: Fetch)
    ensures EnergyMix(fetch) == [] <==>
      forall s, e :: e in fetch(TypeIdOf(s)) ==> !HasTimestamp(e)
  {
    EnergyMixTimestamps(fetch);
    var ts := Timestamps(EnergyMix(fetch));
    if EnergyMix(fetch) != [] {
      assert ts[0] in ts;
      var s: Source :| Seen(fetch(TypeIdOf(s)), ts[0]);
    }
    if e, s :| e in fetch(TypeIdOf(s)) && HasTimestamp(e) {
      assert Observed(fetch, e.validfrom.value);
      assert e.validfrom.value in ts;
    }
  }

  /** The record of a bucket that holds the reported volumes. */
  lemma DeriveReported(fetch: Fetch, t: string, b: Bucket, r: MixRecord)
    requires Complete(b)
    requires forall s :: b[s] == Reported(fetch, s, t)
    requires r == Derive(t, b)
    ensures
      && r.timestamp == t
      && r.solarVolume == Reported(fetch, Solar, t)
      && r.windVolume == Reported(fetch, Wind, t) + Reported(fetch, WindOffshore, t)
      && r.totalVolume ==
           Reported(fetch, Solar, t) + Reported(fetch, Wind, t) + Reported(fetch, WindOffshore, t)
           + Reported(fetch, Coal, t) + Reported(fetch, Gas, t) + Reported(fetch, Nuclear, t)
           + Reported(fetch, Biomass, t) + Reported(fetch, Hydro, t) + Reported(fetch, Other, t)
      && (r.totalVolume <= 0.0 ==>
            r.greenPercentage == 0.0 && r.solarPercentage == 0.0 && r.windPercentage == 0.0)
      && (r.totalVolume > 0.0 ==>
            && r.solarPercentage * r.totalVolume == r.solarVolume * 100.0
            && r.windPercentage * r.totalVolume == r.windVolume * 100.0)
      && r.greenPercentage == r.solarPercentage + r.windPercentage
  {
    DeriveVolumes(t, b, r);
    DeriveShares(t, b, r);
  }

  /** Each record's volumes are the ones reported last for its timestamp:
      solar alone, onshore plus offshore wind, and the total over all nine
      sources; its shares are 0 unless that total is positive, otherwise
      the part times 100 over the total, and green is solar plus wind. */
  lemma EnergyMixRecord(fetch: Fetch, r: MixRecord)
    requires r in EnergyMix(fetch)
    ensures Observed(fetch, r.timestamp)
    ensures r.solarVolume == Reported(fetch, Solar, r.timestamp)
    ensures r.windVolume == Reported(fetch, Wind, r.timestamp) + Reported(fetch, WindOffshore, r.timestamp)
    ensures r.totalVolume ==
      Reported(fetch, Solar, r.timestamp) + Reported(fetch, Wind, r.timestamp)
      + Reported(fetch, WindOffshore, r.timestamp) + Reported(fetch, Coal, r.timestamp)
      + Reported(fetch, Gas, r.timestamp) + Reported(fetch, Nuclear, r.timestamp)
      + Reported(fetch, Biomass, r.timestamp) + Reported(fetch, Hydro, r.timestamp)
      + Reported(fetch, Other, r.timestamp)
    ensures r.totalVolume <= 0.0 ==>
      r.greenPercentage == 0.0 && r.solarPercentage == 0.0 && r.windPercentage == 0.0
    ensures r.totalVolume > 0.0 ==>
      && r.solarPercentage * r.totalVolume == r.solarVolume * 100.0
      && r.windPercentage * r.totalVolume == r.windVolume * 100.0
    ensures r.greenPercentage == r.solarPercentage + r.windPercentage
  {
    var result := Merged(fetch);
    MergedComplete(fetch);
    var t := r.timestamp;
    assert t in result && r == Derive(t, result[t]);
    MergedAt(fetch, t);
    DeriveReported(fetch, t, result[t], r);
  }

  /** When no volume that is reported last for a timestamp is negative,
      every share of every record lies in [0, 100], and neither solar nor
      wind exceeds green. Skipped and overwritten entries play no part. */
  lemma EnergyMixBoundedReported(fetch: Fetch)
    requires forall s, t :: Reported(fetch, s, t) >= 0.0
    ensures forall r :: r in EnergyMix(fetch) ==>
      && 0.0 <= r.solarPercentage <= r.greenPercentage <= 100.0
      && 0.0 <= r.windPercentage <= r.greenPercentage <= 100.0
  {
    var result := Merged(fetch);
    MergedComplete(fetch);
    forall r | r in EnergyMix(fetch)
      ensures 0.0 <= r.solarPercentage <= r.greenPercentage <= 100.0
      ensures 0.0 <= r.windPercentage <= r.greenPercentage <= 100.0
    {
      var t := r.timestamp;
      assert t in result && r == Derive(t, result[t]);
      MergedAt(fetch, t);
      DeriveBounded(t, result[t], r);
    }
  }

  /** When no fetched entry has a negative volume, every share of every
      record lies in [0, 100], and neither solar nor wind exceeds green. */
  lemma EnergyMixBounded(fetch: Fetch)
    requires forall s, e :: e in fetch(TypeIdOf(s)) ==> VolumeOf(e) >= 0.0
    ensures forall r :: r in EnergyMix(fetch) ==>
      && 0.0 <= r.solarPercentage <= r.greenPercentage <= 100.0
      && 0.0 <= r.windPercentage <= r.greenPercentage <= 100.0
  {
    forall s, t
      ensures Reported(fetch, s, t) >= 0.0
    {
      LastVolumeSeen(fetch(TypeIdOf(s)), t);
    }
    EnergyMixBoundedReported(fetch);
  }

  /** The record of a bucket with solar 50, onshore wind 150 and nothing else. */
  lemma DeriveExample(t: string, b: Bucket)
    requires Complete(b)
    requires forall s :: b[s] == ExampleVolume(s)
    ensures Derive(t, b) == MixRecord(t, 50.0, 150.0, 100.0, 25.0, 75.0, 200.0)
  {
    DeriveVolumes(t, b, Derive(t, b));
    assert b[Solar] == 50.0 && b[Wind] == 150.0 && b[WindOffshore] == 0.0;
    assert b[Coal] == 0.0 && b[Gas] == 0.0 && b[Nuclear] == 0.0;
    assert b[Biomass] == 0.0 && b[Hydro] == 0.0 && b[Other] == 0.0;
    assert Percentage(200.0, 200.0) == 100.0;
    assert Percentage(50.0, 200.0) == 25.0;
    assert Percentage(150.0, 200.0) == 75.0;
  }

  /** The volume each source reports in the stand-alone scenario. */
  function ExampleVolume(s: Source): real {
    if s == Solar then 50.0 else if s == Wind then 150.0 else 0.0
  }

  /** The timestamp of the stand-alone scenario. */
  const ExampleTime: string := "2024-01-01T10:00"

  /** The fetches of the stand-alone scenario: solar (type 2) reports 50 and
      onshore wind (type 1) reports 150 at `ExampleTime`; nothing else. */
  function ExampleFetch(id: nat): seq<Entry> {
    if id == 2 then [Entry(Some(ExampleTime), Some(50.0))]
    else if id == 1 then [Entry(Some(ExampleTime), Some(150.0))]
    else []
  }

  /** The scenario's fetches observe exactly one timestamp. */
  lemma ExampleKeys()
    ensures Merged(ExampleFetch).Keys == {ExampleTime}
  {
    forall u
      ensures u in Merged(ExampleFetch) <==> u == ExampleTime
    {
      MergedAt(ExampleFetch, u);
      if u in Merged(ExampleFetch) {
        var s: Source :| Seen(ExampleFetch(TypeIdOf(s)), u);
        var e :| e in ExampleFetch(TypeIdOf(s)) && HasTimestamp(e) && e.validfrom.value == u;
      }
      assert Entry(Some(ExampleTime), Some(50.0)) in ExampleFetch(TypeIdOf(Solar));
    }
  }

  /** What each source reports in the scenario at its timestamp. */
  lemma ExampleReported()
    ensures forall s :: Reported(ExampleFetch, s, ExampleTime) == ExampleVolume(s)
  {
    forall s
      ensures Reported(ExampleFetch, s, ExampleTime) == ExampleVolume(s)
    {
      assert TypeIdOf(s) == 2 <==> s == Solar;
      assert TypeIdOf(s) == 1 <==> s == Wind;
    }
  }

  /** The stand-alone scenario yields one record with total 200, solar share
      25, wind share 75 and green share 100. */
  lemma EnergyMixExample()
    ensures EnergyMix(ExampleFetch) ==
      [MixRecord(ExampleTime, 50.0, 150.0, 100.0, 25.0, 75.0, 200.0)]
  {
    var result := Merged(ExampleFetch);
    MergedComplete(ExampleFetch);
    ExampleKeys();
    var keys := SortedSet(result.Keys);
    assert keys == [ExampleTime] by {
      assert |keys| == 1 && keys[0] in result.Keys;
    }
    MergedAt(ExampleFetch, ExampleTime);
    ExampleReported();
    DeriveExample(ExampleTime, result[ExampleTime]);
  }
}
