# ned-energy: the energy-mix aggregation

This project models `async_get_energy_mix` in
`custom_components/ned_energy/ned_api_client.py`, the function at the centre of
the ned-energy Home Assistant integration. The function fetches the utilization
entries of nine energy types from the NED API. It merges them into one bucket
per `validfrom` timestamp. Each bucket maps every source name to a volume. The
function then walks the buckets in ascending timestamp order and turns each one
into a record with seven fields: the timestamp, the solar volume, the combined
wind volume, the total volume, and the green, solar and wind shares.

The modules follow the steps of the function:

- `EnergyData` (`energy_data.dfy`) holds the data. It has the `energy_types`
  table, the nine sources, the provider entries, the buckets of the `result`
  dictionary and the output record.
- `NedApiClient` (`ned_api_client.dfy`) holds the two loops.
  - The merge loops are the methods `RecordEntries` and `CollectBuckets`. They
    update the `result` map step by step, as the source does.
  - The loop that appends records is `DeriveRecords`. `ProcessBuckets` runs it
    over the sorted keys.
  - `AsyncGetEnergyMix` runs the whole function.
  - `RecordEntries`, `CollectBuckets`, `ProcessBuckets` and
    `AsyncGetEnergyMix` are proved equal to the specification functions
    `MergeEntries`, `Merged`, `Processed` and `EnergyMix`. `DeriveRecords` is
    proved to build, for every position, the record derived from the bucket of
    the timestamp at that position.
  - `ProcessedTimestamps` states what `Processed` yields: one record per key,
    in strictly ascending timestamp order.
- `EnergyShares` (`energy_shares.dfy`) holds the per-bucket arithmetic of lines
  70-84: `SumVolumes`, the guarded `Percentage` and `Derive`.
- `Lexicographic` (`lexicographic.dfy`) holds Python's ordering of `str` values
  and `sorted` over the keys of `result`. The executable `Sorted` is proved
  to return the specification `SortedSet`.
- `MergeProperties` (`merge_properties.dfy`) describes what the merge leaves in
  `result`, entry by entry.
- `EnergyMixProperties` (`energy_mix_properties.dfy`) states the result in
  terms of the entries the fetches deliver.

Modelling choices:

- The nine fetches are one parameter, `fetch: nat -> seq<Entry>`. It gives the
  entries that `get_utilization_data` returns for a type id, for the fixed point
  and date window of one call.
- An entry carries an optional `validfrom` string and an optional `volume`. A
  missing volume counts as 0, as `entry.get("volume", 0)` does.
- Volumes are exact `real`s.
- Bucket slots are keyed by an enumeration of the nine sources instead of by
  their name strings. `EnergyData.NamesDistinct` shows that this loses nothing.
- A volume is added to the total in table order, which is the insertion order
  of every bucket.
- A share is 0 unless the total is strictly positive. So a negative total also
  gives 0 shares, exactly as the code's `if total > 0` guard does.
- When two entries of one source carry the same timestamp, the later entry
  overwrites the earlier one, as the code does.
- The records carry only the seven keys the code builds. There are no
  per-source volume or percentage fields.
- `async_get_energy_mix` itself never checks the API key, and the model has
  no error path of its own for a missing credential. A fetch that raises is
  not modelled (see "## Left out"): every fetch in the model returns a list.
- Shares lie in [0, 100] only when no volume is negative. The model proves the
  bound under that condition, because nothing in the code enforces it.

## Model

| member | source | states |
|---|---|---|
| EnergyData.NamesDistinct | custom_components/ned_energy/ned_api_client.py:41-51 | the nine keys of `energy_types` are distinct, so one enumeration value stands for each key |
| EnergyData.ZeroBucketComplete | custom_components/ned_energy/ned_api_client.py:65 | a fresh bucket has a slot for every source, and every slot is 0 |
| NedApiClient.RecordEntryFrame | custom_components/ned_energy/ned_api_client.py:61-67 | an entry without timestamp leaves `result` unchanged; otherwise the bucket of its timestamp exists afterwards, its slot for the source holds the entry's volume (0 when absent), every other slot of that bucket and every other bucket is unchanged, and a new bucket starts zero-filled |
| NedApiClient.RecordEntryComplete | custom_components/ned_energy/ned_api_client.py:64-67 | recording one entry keeps every bucket complete |
| NedApiClient.MergeEntriesComplete | custom_components/ned_energy/ned_api_client.py:60-67 | the inner loop keeps every bucket complete |
| NedApiClient.MergeTypesComplete | custom_components/ned_energy/ned_api_client.py:53-67 | the outer loop, starting from an empty `result`, yields only complete buckets |
| NedApiClient.MergedComplete | custom_components/ned_energy/ned_api_client.py:52-67 | every bucket of the merged `result` has all nine sources |
| NedApiClient.ProcessedTimestamps | custom_components/ned_energy/ned_api_client.py:68-84 | the records of `processed_result` have strictly ascending timestamps, and these are exactly the keys of `result`; every record is derived from the bucket of its own timestamp |
| NedApiClient.RecordEntries | custom_components/ned_energy/ned_api_client.py:60-67 | the in-place inner loop, with its skip and zero-fill branches, computes `MergeEntries` |
| NedApiClient.CollectBuckets | custom_components/ned_energy/ned_api_client.py:52-67 | the nested merge loops compute `Merged(fetch)`, and every bucket is complete |
| NedApiClient.DeriveRecords | custom_components/ned_energy/ned_api_client.py:69-84 | the appending loop yields exactly one record per given timestamp, in the given order, each derived from that timestamp's bucket |
| NedApiClient.ProcessBuckets | custom_components/ned_energy/ned_api_client.py:68-85 | walking `sorted(result.items())` produces `Processed(result)` |
| NedApiClient.AsyncGetEnergyMix | custom_components/ned_energy/ned_api_client.py:35-85 | the whole function returns `EnergyMix(fetch)` |
| Lexicographic.BelowIrreflexive | custom_components/ned_energy/ned_api_client.py:69 | no timestamp sorts before itself |
| Lexicographic.BelowAsymmetric | custom_components/ned_energy/ned_api_client.py:69 | two timestamps never sort before each other |
| Lexicographic.BelowTransitive | custom_components/ned_energy/ned_api_client.py:69 | the string order is transitive |
| Lexicographic.BelowTotal | custom_components/ned_energy/ned_api_client.py:69 | any two distinct timestamps are ordered one way or the other |
| Lexicographic.Insert | custom_components/ned_energy/ned_api_client.py:69 | inserting a new key into a strictly ascending sequence keeps it strictly ascending and adds exactly that key |
| Lexicographic.SortedSet | custom_components/ned_energy/ned_api_client.py:69 | the sorted keys are strictly ascending, hold exactly the keys and have one entry per key |
| Lexicographic.AscendingUnique | custom_components/ned_energy/ned_api_client.py:69 | two strictly ascending sequences with the same elements are equal, so the sort result is unique |
| Lexicographic.Sorted | custom_components/ned_energy/ned_api_client.py:69 | `sorted` over the keys returns exactly the keys, strictly ascending |
| EnergyShares.PercentageAdds | custom_components/ned_energy/ned_api_client.py:73-75 | the shares of two parts add up to the share of their sum, also when the guard gives 0 |
| EnergyShares.PercentageScales | custom_components/ned_energy/ned_api_client.py:73-75 | with a positive total, share times total is the part times 100 |
| EnergyShares.PercentageBounded | custom_components/ned_energy/ned_api_client.py:73-75 | a part between 0 and the total has a share between 0 and 100 |
| EnergyShares.TotalOfNine | custom_components/ned_energy/ned_api_client.py:72 | `sum(values.values())` is the sum of the nine volumes of the bucket |
| EnergyShares.DeriveVolumes | custom_components/ned_energy/ned_api_client.py:70-84 | a record keeps its timestamp; its solar volume is the solar slot; its wind volume is onshore plus offshore; its total is the sum of all nine slots |
| EnergyShares.DeriveShares | custom_components/ned_energy/ned_api_client.py:73-75 | all three shares are 0 unless the total is positive; otherwise each share times the total is its part times 100; green is solar plus wind |
| EnergyShares.DeriveBounded | custom_components/ned_energy/ned_api_client.py:73-75 | with non-negative volumes, 0 <= solar, wind <= green <= 100 |
| MergeProperties.LastVolumeSeen | custom_components/ned_energy/ned_api_client.py:60-66 | a source's entries yield a volume for a timestamp exactly when one of them carries that timestamp; that volume is such an entry's |
| MergeProperties.LastVolumeSkips | custom_components/ned_energy/ned_api_client.py:61-63 | an entry without timestamp, wherever it stands, changes nothing |
| MergeProperties.RecordEntryOverwrites | custom_components/ned_energy/ned_api_client.py:66-67 | a later entry for the same timestamp and source overwrites the earlier one |
| MergeProperties.RecordEntryCommutes | custom_components/ned_energy/ned_api_client.py:53-67 | entries of two different sources may be recorded in either order |
| MergeProperties.RecordEntryCommutesMerge | custom_components/ned_energy/ned_api_client.py:53-67 | one entry of a source may be recorded before or after the whole inner loop of a different source |
| MergeProperties.MergeEntriesCommute | custom_components/ned_energy/ned_api_client.py:53-67 | the inner loops of two different sources give the same `result` in either order |
| MergeProperties.MergeTypesSwap | custom_components/ned_energy/ned_api_client.py:41-67 | swapping two neighbouring rows of different sources in `energy_types` leaves the merged `result` unchanged, so the merge does not depend on the table's order |
| MergeProperties.MergeEntriesAt | custom_components/ned_energy/ned_api_client.py:60-67 | after one source's loop, a timestamp has a bucket exactly when it had one before or one of the entries carries it; the slot of the source holds the last such entry's volume; every other slot is unchanged, or 0 in a new bucket |
| MergeProperties.MergeTypesAt | custom_components/ned_energy/ned_api_client.py:53-67 | for rows with distinct sources, a timestamp has a bucket exactly when some row's entries carry it; each row's slot holds that row's last volume or 0; any other source's slot is 0 |
| EnergyMixProperties.RowOf | custom_components/ned_energy/ned_api_client.py:41-51 | every source has its row in `energy_types` |
| EnergyMixProperties.TableDistinct | custom_components/ned_energy/ned_api_client.py:41-51 | no two rows of `energy_types` share a source |
| EnergyMixProperties.MergedAt | custom_components/ned_energy/ned_api_client.py:52-67 | the merged `result` has a bucket for exactly the timestamps some fetch reports; each slot holds the volume that source reported last for it, or 0 |
| EnergyMixProperties.EnergyMixTimestamps | custom_components/ned_energy/ned_api_client.py:64-85 | the records' timestamps are exactly the reported timestamps, strictly ascending, so there is one record per distinct timestamp |
| EnergyMixProperties.EnergyMixEmpty | custom_components/ned_energy/ned_api_client.py:52-85 | the result is empty exactly when no fetched entry has a timestamp, so no entries or only skipped entries give `[]` |
| EnergyMixProperties.DeriveReported | custom_components/ned_energy/ned_api_client.py:70-84 | the record of a bucket holding the reported volumes, expressed in those volumes |
| EnergyMixProperties.EnergyMixRecord | custom_components/ned_energy/ned_api_client.py:52-85 | every record's volumes are the ones last reported for its timestamp: solar, onshore plus offshore wind, and the nine-source total; its shares are 0 unless the total is positive, otherwise the part times 100 over the total; green is solar plus wind |
| EnergyMixProperties.EnergyMixBoundedReported | custom_components/ned_energy/ned_api_client.py:66-75 | when no volume reported last for a timestamp is negative, every share of every record lies in [0, 100], and neither solar nor wind exceeds green |
| EnergyMixProperties.EnergyMixBounded | custom_components/ned_energy/ned_api_client.py:66-75 | when no fetched volume is negative, every share of every record lies in [0, 100], and neither solar nor wind exceeds green |
| EnergyMixProperties.DeriveExample | custom_components/ned_energy/ned_api_client.py:70-84 | a bucket with solar 50 and wind 150 yields total 200 and shares 25, 75 and 100 |
| EnergyMixProperties.ExampleKeys | custom_components/ned_energy/ned_api_client.py:52-67 | the scenario's fetches produce exactly one bucket |
| EnergyMixProperties.ExampleReported | custom_components/ned_energy/ned_api_client.py:41-66 | in the scenario, solar reports 50, onshore wind 150, every other source 0 |
| EnergyMixProperties.EnergyMixExample | custom_components/ned_energy/ned_api_client.py:35-85 | solar 50 and wind 150 at one timestamp give exactly one record: total 200, solar 25 %, wind 75 %, green 100 % |

## Left out

- `NEDClient` and `get_utilization_data` (lines 5-33) are left out. They hold the API key, the headers, the query parameters and the HTTP call. `fetch` stands for the list each call returns, including the `[]` returned when the request inside the `try` (lines 27-33) fails.
- A fetch that raises instead of returning a list is not modelled. The HTTP client is built at line 26, before the `try` at line 27, so a failure while it is built or closed escapes `async_get_energy_mix`, which has no `try` of its own. For example, a `None` API key goes into the `X-AUTH-TOKEN` header (line 10), and the call ends with an exception at the first fetch. In the model, `fetch` always returns.
- The date window (lines 23-24 and 36-38) is left out. It depends on the clock and on `strftime`, and it only selects which entries a fetch returns.
- The client creation (line 39) and the `await`s are left out. One call runs as a sequence of steps, so the model has no concurrency.
- The `__main__` block (lines 87-99) is left out. It reads the environment and prints.
- `sensor.py`, `config_flow.py` and `__init__.py` are not part of this model. They are Home Assistant glue.
- Floating point is left out. Volumes and shares are exact reals, so the share identities hold exactly here, but only approximately in Python.
- The `float(...)` conversion (line 66) is not modelled. A volume is a number or absent. A string volume, or a `None` volume that makes `float` raise, is not modelled.
- Other falsy `validfrom` values are left out. The model handles a missing and an empty `validfrom` (lines 62-63). Other falsy non-string values are not modelled, because `validfrom` is a string here.
- The outputs are records, not dictionaries. The source puts the integer `0` into fresh buckets and guarded shares, and the model uses the real `0.0`.
- The specification functions `Processed` and `EnergyMix` are ghost, because `SortedSet` picks keys by choice. The executable path is `Lexicographic.Sorted`, which is proved to return the same sequence.
