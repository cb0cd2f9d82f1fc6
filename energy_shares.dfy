/** The per-bucket arithmetic of `async_get_energy_mix`: the total volume
    and the guarded green, solar and wind shares of one bucket. */
module EnergyShares {
  import opened EnergyData

  /** `sum(values.values())`: the bucket's volumes added up in table order,
      which is the bucket's insertion order. */
  function SumVolumes(b: Bucket, types: seq<EnergyType>): real
    requires Complete(b)
    decreases |types|
  {
    if types == [] then 0.0 else b[types[0].source] + SumVolumes(b, types[1..])
  }

  /** The share guard of lines 73-75: `part / total * 100 if total > 0 else 0`. */
  function Percentage(part: real, total: real): real {
    if total > 0.0 then part / total * 100.0 else 0.0
  }

  /** Shares of disjoint parts add up, also when the guard yields 0. */
  lemma PercentageAdds(x: real, y: real, total: real)
    ensures Percentage(x + y, total) == Percentage(x, total) + Percentage(y, total)
  {
    if total > 0.0 {
      assert (x + y) / total == x / total + y / total;
    }
  }

  /** A positive total times the share gives the part, scaled to 100. */
  lemma PercentageScales(part: real, total: real)
    ensures total > 0.0 ==> Percentage(part, total) * total == part * 100.0
  {
  }

  /** A part between 0 and the total has a share between 0 and 100. */
  lemma PercentageBounded(part: real, total: real)
    requires 0.0 <= part <= total
    ensures 0.0 <= Percentage(part, total) <= 100.0
  {
    if total > 0.0 {
      assert part / total <= 1.0;
    }
  }

  /** The total of a complete bucket is the sum of its nine volumes. */
  lemma TotalOfNine(b: Bucket)
    requires Complete(b)
    ensures SumVolumes(b, EnergyTypes) ==
      b[Solar] + b[Wind] + b[WindOffshore] + b[Coal] + b[Gas]
      + b[Nuclear] + b[Biomass] + b[Hydro] + b[Other]
  {
    var ts := EnergyTypes;
    assert ts[1..][1..][1..][1..][1..][1..][1..][1..][1..] == [];
  }

  /** Lines 70-84: the record derived from one bucket. */
  function Derive(t: string, b: Bucket): MixRecord
    requires Complete(b)
  {
    var green := b[Solar] + b[Wind] + b[WindOffshore];
    var windTotal := b[Wind] + b[WindOffshore];
    var total := SumVolumes(b, EnergyTypes);
    MixRecord(
      t,
      b[Solar],
      windTotal,
      Percentage(green, total),
      Percentage(b[Solar], total),
      Percentage(windTotal, total),
      total)
  }

  /** The volumes of a record: solar alone, onshore plus offshore wind, and
      the total over all nine sources of the bucket. */
  lemma DeriveVolumes(t: string, b: Bucket, r: MixRecord)
    requires Complete(b) && r == Derive(t, b)
    ensures r.timestamp == t
    ensures r.solarVolume == b[Solar]
    ensures r.windVolume == b[Wind] + b[WindOffshore]
    ensures r.totalVolume ==
      b[Solar] + b[Wind] + b[WindOffshore] + b[Coal] + b[Gas]
      + b[Nuclear] + b[Biomass] + b[Hydro] + b[Other]
  {
    TotalOfNine(b);
  }

  /** The three shares of a record: all exactly 0 unless the total is
      positive, otherwise the part times 100 over the total; and the green
      share is the solar share plus the wind share. */
  lemma DeriveShares(t: string, b: Bucket, r: MixRecord)
    requires Complete(b) && r == Derive(t, b)
    ensures r.totalVolume <= 0.0 ==>
      r.greenPercentage == 0.0 && r.solarPercentage == 0.0 && r.windPercentage == 0.0
    ensures r.totalVolume > 0.0 ==>
      && r.greenPercentage * r.totalVolume == (r.solarVolume + r.windVolume) * 100.0
      && r.solarPercentage * r.totalVolume == r.solarVolume * 100.0
      && r.windPercentage * r.totalVolume == r.windVolume * 100.0
    ensures r.greenPercentage == r.solarPercentage + r.windPercentage
  {
    DeriveVolumes(t, b, r);
    PercentageAdds(r.solarVolume, r.windVolume, r.totalVolume);
    PercentageScales(r.solarVolume + r.windVolume, r.totalVolume);
    PercentageScales(r.solarVolume, r.totalVolume);
    PercentageScales(r.windVolume, r.totalVolume);
  }

  /** With no negative volume in the bucket every share lies in [0, 100],
      and neither the solar nor the wind share exceeds the green share. */
  lemma DeriveBounded(t: string, b: Bucket, r: MixRecord)
    requires Complete(b) && r == Derive(t, b)
    requires forall n :: n in b ==> b[n] >= 0.0
    ensures 0.0 <= r.solarPercentage <= r.greenPercentage <= 100.0
    ensures 0.0 <= r.windPercentage <= r.greenPercentage <= 100.0
  {
    DeriveVolumes(t, b, r);
    PercentageBounded(r.solarVolume + r.windVolume, r.totalVolume);
    PercentageBounded(r.solarVolume, r.totalVolume);
    PercentageBounded(r.windVolume, r.totalVolume);
    PercentageAdds(r.solarVolume, r.windVolume, r.totalVolume);
  }
}
