/** What the merge loops of `async_get_energy_mix` leave in `result`,
    described entry by entry: a timestamp has a bucket exactly when some
    entry carries it, and the slot of a source holds the volume of the last
    entry of that source carrying the timestamp, or 0. */
module MergeProperties {
  import opened EnergyData
  import opened NedApiClient

  /** The volume of the last entry of `data` recorded under `t`, if any. */
  function LastVolume(data: seq<Entry>, t: string): Option<real>
    decreases |data|
  {
    if data == [] then None
    else
      var e := data[|data| - 1];
      if HasTimestamp(e) && e.validfrom.value == t then Some(VolumeOf(e))
      else LastVolume(data[..|data| - 1], t)
  }

  /** Some entry of `data` is recorded under `t`. */
  predicate Seen(data: seq<Entry>, t: string) {
    exists e :: e in data && HasTimestamp(e) && e.validfrom.value == t
  }

  /** `LastVolume` finds a volume exactly when an entry carries the timestamp,
      and the volume it finds is that of such an entry. */
  lemma {:induction false} LastVolumeSeen(data: seq<Entry>, t: string)
    ensures LastVolume(data, t).Some? <==> Seen(data, t)
    ensures LastVolume(data, t).Some? ==>
      exists e :: e in data && HasTimestamp(e) && e.validfrom.value == t && VolumeOf(e) == LastVolume(data, t).value
    decreases |data|
  {
    if data != [] {
      var init, e := data[..|data| - 1], data[|data| - 1];
      LastVolumeSeen(init, t);
      assert data == init + [e];
      assert forall x :: x in data <==> x in init || x == e;
    }
  }

  /** An entry without timestamp is skipped wherever it stands. */
  lemma {:induction false} LastVolumeSkips(d1: seq<Entry>, e: Entry, d2: seq<Entry>, t: string)
    requires !HasTimestamp(e)
    ensures LastVolume(d1 + [e] + d2, t) == LastVolume(d1 + d2, t)
    decreases |d2|
  {
    if d2 == [] {
      assert (d1 + [e] + d2)[..|d1| + 1 - 1] == d1;
      assert d1 + d2 == d1;
    } else {
      var init := d2[..|d2| - 1];
      LastVolumeSkips(d1, e, init, t);
      assert (d1 + [e] + d2)[..|d1 + [e] + d2| - 1] == d1 + [e] + init;
      assert (d1 + d2)[..|d1 + d2| - 1] == d1 + init;
    }
  }

  lemma UpdateTwice<K, V>(m: map<K, V>, k: K, a: V, b: V)
    ensures m[k := a][k := b] == m[k := b]
  {
  }

  lemma UpdateSwap<K, V>(m: map<K, V>, k1: K, a: V, k2: K, b: V)
    requires k1 != k2
    ensures m[k1 := a][k2 := b] == m[k2 := b][k1 := a]
  {
  }

  /** A later entry for the same slot overwrites an earlier one. */
  lemma RecordEntryOverwrites(result: Buckets, source: Source, e1: Entry, e2: Entry)
    requires HasTimestamp(e1) && e2.validfrom == e1.validfrom
    ensures RecordEntry(RecordEntry(result, source, e1), source, e2) == RecordEntry(result, source, e2)
  {
    var t := e1.validfrom.value;
    var before := if t in result then result[t] else ZeroBucket;
    UpdateTwice(before, source, VolumeOf(e1), VolumeOf(e2));
    UpdateTwice(result, t, before[source := VolumeOf(e1)], before[source := VolumeOf(e2)]);
  }

  /** Entries of two different sources can be recorded in either order. */
  lemma RecordEntryCommutes(result: Buckets, s1: Source, e1: Entry, s2: Source, e2: Entry)
    requires s1 != s2
    ensures RecordEntry(RecordEntry(result, s1, e1), s2, e2) == RecordEntry(RecordEntry(result, s2, e2), s1, e1)
  {
    if HasTimestamp(e1) && HasTimestamp(e2) {
      var t1, t2 := e1.validfrom.value, e2.validfrom.value;
      var v1, v2 := VolumeOf(e1), VolumeOf(e2);
      var before1 := if t1 in result then result[t1] else ZeroBucket;
      var before2 := if t2 in result then result[t2] else ZeroBucket;
      if t1 == t2 {
        UpdateSwap(before1, s1, v1, s2, v2);
        UpdateTwice(result, t1, before1[s1 := v1], before1[s1 := v1][s2 := v2]);
        UpdateTwice(result, t1, before1[s2 := v2], before1[s2 := v2][s1 := v1]);
      } else {
        UpdateSwap(result, t1, before1[s1 := v1], t2, before2[s2 := v2]);
      }
    }
  }

  /** One entry of source `s1` can be recorded before or after the whole
      inner loop of a different source `s2`. */
  lemma {:induction false} RecordEntryCommutesMerge(result: Buckets, s1: Source, e1: Entry, s2: Source, d2: seq<Entry>)
    requires s1 != s2
    ensures RecordEntry(MergeEntries(result, s2, d2), s1, e1) == MergeEntries(RecordEntry(result, s1, e1), s2, d2)
    decreases |d2|
  {
    if d2 != [] {
      var init, e2 := d2[..|d2| - 1], d2[|d2| - 1];
      RecordEntryCommutes(MergeEntries(result, s2, init), s1, e1, s2, e2);
      RecordEntryCommutesMerge(result, s1, e1, s2, init);
    }
  }

  /** The inner loops of two different sources can run in either order: the
      merge does not depend on the order of the rows of `energy_types`. */
  lemma {:induction false} MergeEntriesCommute(result: Buckets, s1: Source, d1: seq<Entry>, s2: Source, d2: seq<Entry>)
    requires s1 != s2
    ensures MergeEntries(MergeEntries(result, s1, d1), s2, d2) == MergeEntries(MergeEntries(result, s2, d2), s1, d1)
    decreases |d1|
  {
    if d1 != [] {
      var init, e1 := d1[..|d1| - 1], d1[|d1| - 1];
      RecordEntryCommutesMerge(MergeEntries(result, s1, init), s1, e1, s2, d2);
      MergeEntriesCommute(result, s1, init, s2, d2);
    }
  }

  /** Swapping two neighbouring rows of different sources in the table does
      not change the merged `result`. */
  lemma {:induction false} MergeTypesSwap(fetch: Fetch, a: seq<EnergyType>, x: EnergyType, y: EnergyType, b: seq<EnergyType>)
    requires x.source != y.source
    ensures MergeTypes(fetch, a + [x, y] + b) == MergeTypes(fetch, a + [y, x] + b)
    decreases |b|
  {
    var xy, yx := a + [x, y] + b, a + [y, x] + b;
    if b == [] {
      assert xy[..|xy| - 1] == a + [x] && (a + [x])[..|a|] == a;
      assert yx[..|yx| - 1] == a + [y] && (a + [y])[..|a|] == a;
      MergeEntriesCommute(MergeTypes(fetch, a), x.source, fetch(x.typeId), y.source, fetch(y.typeId));
    } else {
      var init := b[..|b| - 1];
      assert xy[..|xy| - 1] == a + [x, y] + init;
      assert yx[..|yx| - 1] == a + [y, x] + init;
      MergeTypesSwap(fetch, a, x, y, init);
    }
  }

  /** The inner loop over the entries of one source: it adds a bucket for
      every timestamp it sees and sets the slot of `source` to the last volume
      seen; every other slot keeps its value, or is 0 in a new bucket. */
  lemma {:induction false} MergeEntriesAt(result: Buckets, source: Source, data: seq<Entry>, t: string)
    requires AllComplete(result)
    ensures t in MergeEntries(result, source, data) <==> t in result || LastVolume(data, t).Some?
    ensures t in MergeEntries(result, source, data) ==>
      forall n :: n in MergeEntries(result, source, data)[t] && MergeEntries(result, source, data)[t][n] ==
        if n == source && LastVolume(data, t).Some? then LastVolume(data, t).value
        else if t in result then result[t][n] else 0.0
    decreases |data|
  {
    if data != [] {
      var init, e := data[..|data| - 1], data[|data| - 1];
      var prev := MergeEntries(result, source, init);
      MergeEntriesAt(result, source, init, t);
      MergeEntriesComplete(result, source, init);
      var m := MergeEntries(result, source, data);
      assert m == RecordEntry(prev, source, e);
      RecordEntryFrame(prev, source, e);
      if HasTimestamp(e) && e.validfrom.value == t {
        ZeroBucketComplete();
        assert LastVolume(data, t) == Some(VolumeOf(e));
      } else {
        assert LastVolume(data, t) == LastVolume(init, t);
        assert t in m ==> t in prev && m[t] == prev[t];
      }
    }
  }

  /** No two rows of `types` share a source. */
  predicate DistinctSources(types: seq<EnergyType>) {
    forall i, j :: 0 <= i < j < |types| ==> types[i].source != types[j].source
  }

  /** The outer loop over rows with distinct sources: a timestamp has a bucket
      exactly when some row's entries carry it; then the slot of each row's
      source holds that row's last volume, or 0, and every other slot is 0. */
  lemma {:induction false} MergeTypesAt(fetch: Fetch, types: seq<EnergyType>, t: string)
    requires DistinctSources(types)
    ensures t in MergeTypes(fetch, types) <==>
      exists i :: 0 <= i < |types| && LastVolume(fetch(types[i].typeId), t).Some?
    ensures t in MergeTypes(fetch, types) ==> forall i :: 0 <= i < |types| ==>
      && types[i].source in MergeTypes(fetch, types)[t]
      && MergeTypes(fetch, types)[t][types[i].source] == LastVolume(fetch(types[i].typeId), t).GetOr(0.0)
    ensures t in MergeTypes(fetch, types) ==>
      forall n :: (forall i :: 0 <= i < |types| ==> types[i].source != n) ==>
        n in MergeTypes(fetch, types)[t] && MergeTypes(fetch, types)[t][n] == 0.0
    decreases |types|
  {
    if types != [] {
      var k := |types| - 1;
      var init, last := types[..k], types[k];
      var prev := MergeTypes(fetch, init);
      assert forall i :: 0 <= i < k ==> init[i] == types[i];
      MergeTypesAt(fetch, init, t);
      MergeTypesComplete(fetch, init);
      var data := fetch(last.typeId);
      MergeEntriesAt(prev, last.source, data, t);
      var m := MergeTypes(fetch, types);
      assert m == MergeEntries(prev, last.source, data);
      if t in m {
        forall i | 0 <= i < |types|
          ensures types[i].source in m[t] && m[t][types[i].source] == LastVolume(fetch(types[i].typeId), t).GetOr(0.0)
        {
          if i < k {
            assert types[i].source != last.source;
            if t !in prev {
              assert LastVolume(fetch(init[i].typeId), t).None?;
            }
          }
        }
      }
    }
  }
}
