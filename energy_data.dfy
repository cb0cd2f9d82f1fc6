/** The data of `async_get_energy_mix`: the `energy_types` table, the
    provider entries it reads, the buckets of the `result` dictionary and the
    records of `processed_result`. */
module EnergyData {

  datatype Option<T> = None | Some(value: T) {
    function GetOr(default: T): T {
      match this
      case Some(v) => v
      case None => default
    }
  }

  /** The nine energy sources; `Name` gives the key each has in `energy_types`
      and in every bucket. */
  datatype Source = Solar | Wind | WindOffshore | Coal | Gas | Nuclear | Biomass | Hydro | Other {
    function Name(): string {
      match this
      case Solar => "solar"
      case Wind => "wind"
      case WindOffshore => "wind_offshore"
      case Coal => "coal"
      case Gas => "gas"
      case Nuclear => "nuclear"
      case Biomass => "biomass"
      case Hydro => "hydro"
      case Other => "other"
    }
  }

  /** Distinct sources have distinct names, so a source stands for its key. */
  lemma NamesDistinct(a: Source, b: Source)
    ensures a.Name() == b.Name() ==> a == b
  {
    if a != b {
      assert a.Name()[0] != b.Name()[0] || a.Name()[|a.Name()| - 1] != b.Name()[|b.Name()| - 1]
        || |a.Name()| != |b.Name()|;
    }
  }

  /** One row of the `energy_types` table: the source and the provider's type id. */
  datatype EnergyType = EnergyType(source: Source, typeId: nat)

  /** The `energy_types` table, in its declaration order. */
  const EnergyTypes: seq<EnergyType> := [
    EnergyType(Solar, 2),
    EnergyType(Wind, 1),
    EnergyType(WindOffshore, 17),
    EnergyType(Coal, 4),
    EnergyType(Gas, 5),
    EnergyType(Nuclear, 6),
    EnergyType(Biomass, 7),
    EnergyType(Hydro, 8),
    EnergyType(Other, 9)
  ]

  /** The keys of `energy_types`. */
  const AllSources: set<Source> :=
    {Solar, Wind, WindOffshore, Coal, Gas, Nuclear, Biomass, Hydro, Other}

  /** The two keys of a provider entry that the merge reads. A `volume` that is
      present is a number here. */
  datatype Entry = Entry(validfrom: Option<string>, volume: Option<real>)

  /** What `get_utilization_data` returns for a type id, for the fixed point
      and date window of one call of `async_get_energy_mix`. */
  type Fetch = nat -> seq<Entry>

  /** Source to volume at one timestamp. */
  type Bucket = map<Source, real>

  /** The `result` dictionary: timestamp to bucket. */
  type Buckets = map<string, Bucket>

  /** One element of `processed_result`, with exactly the seven keys it has. */
  datatype MixRecord = MixRecord(
    timestamp: string,
    solarVolume: real,
    windVolume: real,
    greenPercentage: real,
    solarPercentage: real,
    windPercentage: real,
    totalVolume: real)

  /** `validfrom` is present and not empty: the entry is not skipped. */
  predicate HasTimestamp(e: Entry) {
    e.validfrom.Some? && e.validfrom.value != ""
  }

  /** The volume an entry contributes: its own, or 0 when it has none. */
  function VolumeOf(e: Entry): real {
    e.volume.GetOr(0.0)
  }

  /** The bucket a new timestamp starts with: every source's slot is 0. */
  const ZeroBucket: Bucket := map s | s in AllSources :: 0.0

  /** A bucket holds a volume for every source. */
  predicate Complete(b: Bucket) {
    forall s: Source :: s in b
  }

  predicate AllComplete(result: Buckets) {
    forall t :: t in result ==> Complete(result[t])
  }

  lemma ZeroBucketComplete()
    ensures Complete(ZeroBucket)
    ensures forall s :: s in ZeroBucket ==> ZeroBucket[s] == 0.0
  {
    forall s: Source
      ensures s in ZeroBucket
    {
      assert s in AllSources by {
        match s
        case Solar =>
        case Wind =>
        case WindOffshore =>
        case Coal =>
        case Gas =>
        case Nuclear =>
        case Biomass =>
        case Hydro =>
        case Other =>
      }
    }
  }
}
