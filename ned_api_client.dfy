/** The merge-and-derive step of `async_get_energy_mix`: the raw utilization
    entries of every energy type are merged into one bucket per timestamp,
    and every bucket, in ascending timestamp order, yields one energy-mix
    record with its total volume and its green, solar and wind shares. */
module NedApiClient {
  import opened Lexicographic
  import opened EnergyData
  import opened EnergyShares

  /** One pass of the inner loop: skip an entry without timestamp, otherwise
      create the zero-filled bucket if the timestamp is new and write the
      volume into the slot of `source`. */
  function RecordEntry(result: Buckets, source: Source, e: Entry): Buckets {
    if !HasTimestamp(e) then
      result
    else
      var t := e.validfrom.value;
      var bucket := if t in result then result[t] else ZeroBucket;
      result[t := bucket[source := VolumeOf(e)]]
  }

  /** An entry without timestamp changes nothing; otherwise exactly the slot
      of `source` in the bucket of its timestamp changes, to its volume, and
      the bucket is created, zero-filled, if the timestamp is new. */
  lemma RecordEntryFrame(result: Buckets, source: Source, e: Entry)
    ensures !HasTimestamp(e) ==> RecordEntry(result, source, e) == result
    ensures HasTimestamp(e) ==>
      var r, t := RecordEntry(result, source, e), e.validfrom.value;
      var before := if t in result then result[t] else ZeroBucket;
      && r.Keys == result.Keys + {t}
      && r[t].Keys == before.Keys + {source}
      && r[t][source] == VolumeOf(e)
      && (forall n :: n in before && n != source ==> r[t][n] == before[n])
      && (forall u :: u in result && u != t ==> r[u] == result[u])
  {
  }

  /** The inner loop over the entries of one energy type. */
  function MergeEntries(result: Buckets, source: Source, data: seq<Entry>): Buckets
    decreases |data|
  {
    if data == [] then result
    else RecordEntry(MergeEntries(result, source, data[..|data| - 1]), source, data[|data| - 1])
  }

  /** The outer loop over the given energy types, starting from `result = {}`. */
  function MergeTypes(fetch: Fetch, types: seq<EnergyType>): Buckets
    decreases |types|
  {
    if types == [] then map[]
    else
      var last := types[|types| - 1];
      MergeEntries(MergeTypes(fetch, types[..|types| - 1]), last.source, fetch(last.typeId))
  }

  /** The `result` dictionary after the merge loops of `async_get_energy_mix`. */
  function Merged(fetch: Fetch): Buckets {
    MergeTypes(fetch, EnergyTypes)
  }

  lemma RecordEntryComplete(result: Buckets, source: Source, e: Entry)
    requires AllComplete(result)
    ensures AllComplete(RecordEntry(result, source, e))
  {
    RecordEntryFrame(result, source, e);
    ZeroBucketComplete();
  }

  lemma {:induction false} MergeEntriesComplete(result: Buckets, source: Source, data: seq<Entry>)
    requires AllComplete(result)
    ensures AllComplete(MergeEntries(result, source, data))
    decreases |data|
  {
    if data != [] {
      MergeEntriesComplete(result, source, data[..|data| - 1]);
      RecordEntryComplete(MergeEntries(result, source, data[..|data| - 1]), source, data[|data| - 1]);
    }
  }

  lemma {:induction false} MergeTypesComplete(fetch: Fetch, types: seq<EnergyType>)
    ensures AllComplete(MergeTypes(fetch, types))
    decreases |types|
  {
    if types != [] {
      var last := types[|types| - 1];
      MergeTypesComplete(fetch, types[..|types| - 1]);
      MergeEntriesComplete(MergeTypes(fetch, types[..|types| - 1]), last.source, fetch(last.typeId));
    }
  }

  /** Every bucket the merge creates has a slot for every source. */
  lemma MergedComplete(fetch: Fetch)
    ensures AllComplete(Merged(fetch))
  {
    MergeTypesComplete(fetch, EnergyTypes);
  }

  /** The `timestamp` fields of a sequence of records. */
  function Timestamps(records: seq<MixRecord>): seq<string> {
    seq(|records|, i requires 0 <= i < |records| => records[i].timestamp)
  }

  /** `processed_result` for a given `result`: the records derived from the
      buckets, taken in the order of `sorted(result.items())`. */
  ghost function Processed(result: Buckets): (r: seq<MixRecord>)
    requires AllComplete(result)
    // These two clauses only unfold the body for the verifier; what the
    // records mean is stated by ProcessedTimestamps below.
    ensures |r| == |SortedSet(result.Keys)|
    ensures forall i :: 0 <= i < |r| ==>
      SortedSet(result.Keys)[i] in result && r[i] == Derive(SortedSet(result.Keys)[i], result[SortedSet(result.Keys)[i]])
  {
    var keys := SortedSet(result.Keys);
    seq(|keys|, i requires 0 <= i < |keys| => Derive(keys[i], result[keys[i]]))
  }

  /** The records come out in strictly ascending timestamp order, one for
      every key of `result` and for nothing else, each derived from the
      bucket of its own timestamp. */
  lemma ProcessedTimestamps(result: Buckets)
    requires AllComplete(result)
    ensures Ascending(Timestamps(Processed(result)))
    ensures forall t :: t in Timestamps(Processed(result)) <==> t in result
    ensures forall r :: r in Processed(result) ==>
      r.timestamp in result && r == Derive(r.timestamp, result[r.timestamp])
  {
    var keys := SortedSet(result.Keys);
    var records := Processed(result);
    assert Timestamps(records) == keys by {
      forall i | 0 <= i < |keys|
        ensures Timestamps(records)[i] == keys[i]
      {
        DeriveVolumes(keys[i], result[keys[i]], records[i]);
      }
    }
    forall r | r in records
      ensures r.timestamp in result && r == Derive(r.timestamp, result[r.timestamp])
    {
      var i :| 0 <= i < |records| && records[i] == r;
      DeriveVolumes(keys[i], result[keys[i]], r);
    }
  }

  /** The value `async_get_energy_mix` returns for the given fetch results. */
  ghost function EnergyMix(fetch: Fetch): seq<MixRecord> {
    MergedComplete(fetch);
    Processed(Merged(fetch))
  }

  /** Lines 60-67: the inner loop, recording the entries of one source in
      `result` in place. */
  method RecordEntries(result0: Buckets, source: Source, data: seq<Entry>) returns (result: Buckets)
    ensures result == MergeEntries(result0, source, data)
  {
    result := result0;
    for i := 0 to |data|
      invariant result == MergeEntries(result0, source, data[..i])
    {
      var entry := data[i];
      assert data[..i + 1][..i] == data[..i];
      if entry.validfrom.None? || entry.validfrom.value == "" {
        continue;
      }
      var timestamp := entry.validfrom.value;
      if timestamp !in result {
        result := result[timestamp := ZeroBucket];
      }
      result := result[timestamp := result[timestamp][source := VolumeOf(entry)]];
    }
    assert data[..|data|] == data;
  }

  /** Lines 52-67: the merge loops, starting from `result = {}`. */
  method CollectBuckets(fetch: Fetch) returns (result: Buckets)
    ensures result == Merged(fetch)
    ensures AllComplete(result)
  {
    result := map[];
    for k := 0 to |EnergyTypes|
      invariant result == MergeTypes(fetch, EnergyTypes[..k])
    {
      var source, typeId := EnergyTypes[k].source, EnergyTypes[k].typeId;
      var data := fetch(typeId);
      result := RecordEntries(result, source, data);
      assert EnergyTypes[..k + 1][..k] == EnergyTypes[..k];
    }
    assert EnergyTypes[..|EnergyTypes|] == EnergyTypes;
    MergedComplete(fetch);
  }

  /** Lines 69-84: the loop appending one derived record per timestamp, in
      the order given. */
  method DeriveRecords(result: Buckets, timestamps: seq<string>) returns (processed: seq<MixRecord>)
    requires AllComplete(result)
    requires forall i :: 0 <= i < |timestamps| ==> timestamps[i] in result
    ensures |processed| == |timestamps|
    ensures forall i :: 0 <= i < |timestamps| ==>
      processed[i] == Derive(timestamps[i], result[timestamps[i]])
  {
    processed := [];
    for i := 0 to |timestamps|
      invariant |processed| == i
      invariant forall j :: 0 <= j < i ==> processed[j] == Derive(timestamps[j], result[timestamps[j]])
    {
      var timestamp := timestamps[i];
      processed := processed + [Derive(timestamp, result[timestamp])];
    }
  }

  /** Lines 68-85: `processed_result` built over `sorted(result.items())`. */
  method ProcessBuckets(result: Buckets) returns (processed: seq<MixRecord>)
    requires AllComplete(result)
    ensures processed == Processed(result)
  {
    var timestamps := Sorted(result.Keys);
    processed := DeriveRecords(result, timestamps);
  }

  /** `async_get_energy_mix`, with the nine fetches given as `fetch`. */
  method AsyncGetEnergyMix(fetch: Fetch) returns (processedResult: seq<MixRecord>)
    ensures processedResult == EnergyMix(fetch)
  {
    var result := CollectBuckets(fetch);
    processedResult := ProcessBuckets(result);
  }
}

