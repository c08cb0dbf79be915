/**
 * The calculator's static reference data: emission factors per activity,
 * the reference tree of each Indian state or union territory, and the
 * benchmark bands drawn on the gauge. All of it is fixed when the program
 * starts and never changes.
 */
module Tables {
  import opened Strings

  /** `co2_factors`: kg of CO2 emitted per unit of each activity. */
  const Co2Factors: map<string, real> := map[
    "Electricity (kWh)" := 0.85,
    "Petrol (liters)" := 2.31,
    "Diesel (liters)" := 2.68,
    "Car Travel (km)" := 0.21,
    "Bus Travel (km)" := 0.11,
    "Train Travel (km)" := 0.05,
    "Air Travel (km)" := 0.18,
    "Gas Consumption (m3)" := 2.0,
    "Industrial Processes (tons of material)" := 1000.0
  ]

  /** One value of `state_tree_co2_data`: the region's reference tree. */
  datatype TreeProfile = TreeProfile(plant: string, peakAge: nat, co2Absorbed: real)

  /** The entries of the `state_tree_co2_data` literal, in the order written. */
  const StateTreeEntries: seq<(string, TreeProfile)> := [
    ("Maharashtra", TreeProfile("Neem", 10, 31.82)),
    ("Karnataka", TreeProfile("Mango", 12, 28.5)),
    ("Delhi", TreeProfile("Peepal", 15, 22.0)),
    ("Uttar Pradesh", TreeProfile("Banyan", 20, 45.0)),
    ("West Bengal", TreeProfile("Coconut", 8, 18.5)),
    ("Tamil Nadu", TreeProfile("Tamarind", 14, 25.0)),
    ("Gujarat", TreeProfile("Mahua", 11, 30.5)),
    ("Rajasthan", TreeProfile("Khejri", 10, 15.0)),
    ("Kerala", TreeProfile("Jackfruit", 13, 26.0)),
    ("Punjab", TreeProfile("Sheesham", 16, 33.0)),
    ("Andhra Pradesh", TreeProfile("Mango", 12, 28.5)),
    ("Telangana", TreeProfile("Neem", 10, 31.82)),
    ("Bihar", TreeProfile("Peepal", 15, 22.0)),
    ("Assam", TreeProfile("Sal", 18, 38.0)),
    ("Odisha", TreeProfile("Banyan", 20, 45.0)),
    ("Madhya Pradesh", TreeProfile("Teak", 17, 40.0)),
    ("Haryana", TreeProfile("Khejri", 10, 15.0)),
    ("Himachal Pradesh", TreeProfile("Deodar", 25, 50.0)),
    ("Jammu and Kashmir", TreeProfile("Chinar", 30, 55.0)),
    ("Jharkhand", TreeProfile("Sal", 18, 38.0)),
    ("Uttarakhand", TreeProfile("Deodar", 25, 50.0)),
    ("Chhattisgarh", TreeProfile("Teak", 17, 40.0)),
    ("Goa", TreeProfile("Coconut", 8, 18.5)),
    ("Meghalaya", TreeProfile("Pine", 22, 42.0)),
    ("Manipur", TreeProfile("Pine", 22, 42.0)),
    ("Tripura", TreeProfile("Bamboo", 5, 10.0)),
    ("Mizoram", TreeProfile("Bamboo", 5, 10.0)),
    ("Nagaland", TreeProfile("Pine", 22, 42.0)),
    ("Sikkim", TreeProfile("Rhododendron", 15, 20.0)),
    ("Arunachal Pradesh", TreeProfile("Sal", 18, 38.0)),
    ("Andaman and Nicobar Islands", TreeProfile("Coconut", 8, 18.5)),
    ("Chandigarh", TreeProfile("Peepal", 15, 22.0)),
    ("Dadra and Nagar Haveli and Daman and Diu", TreeProfile("Teak", 17, 40.0)),
    ("Lakshadweep", TreeProfile("Coconut", 8, 18.5)),
    ("Puducherry", TreeProfile("Tamarind", 14, 25.0)),
    ("Ladakh", TreeProfile("Willow", 10, 12.0))
  ]

  /** Some entry has key `k`. */
  predicate HasKey<V>(entries: seq<(string, V)>, k: string)
  {
    exists j :: 0 <= j < |entries| && entries[j].0 == k
  }

  /**
   * The dictionary a Python dict literal builds: its keys are the keys
   * written, and each value is one written for that key.
   */
  function ToDict<V>(entries: seq<(string, V)>): (m: map<string, V>)
    ensures forall k :: k in m <==> HasKey(entries, k)
    ensures forall k :: k in m ==> (k, m[k]) in entries
  {
    if entries == [] then map[]
    else
      var n := |entries| - 1;
      var m := ToDict(entries[..n]);
      assert forall k :: HasKey(entries[..n], k) ==> HasKey(entries, k);
      assert forall k :: HasKey(entries, k) && k != entries[n].0 ==> HasKey(entries[..n], k) by {
        forall k | HasKey(entries, k) && k != entries[n].0
          ensures HasKey(entries[..n], k)
        {
          var j :| 0 <= j < |entries| && entries[j].0 == k;
          assert entries[..n][j].0 == k;
        }
      }
      m[entries[n].0 := entries[n].1]
  }

  /** When a key is written more than once, the value written last wins. */
  lemma {:induction false} ToDictLastWins<V>(entries: seq<(string, V)>, i: nat)
    requires i < |entries| && !HasKey(entries[i + 1..], entries[i].0)
    ensures entries[i].0 in ToDict(entries) && ToDict(entries)[entries[i].0] == entries[i].1
  {
    var n := |entries| - 1;
    if i < n {
      var k := entries[i].0;
      assert entries[..n][i] == entries[i];
      assert k != entries[n].0 by {
        assert entries[i + 1..][n - i - 1] == entries[n];
      }
      assert !HasKey(entries[..n][i + 1..], k);
      ToDictLastWins(entries[..n], i);
    }
  }

  /** `state_tree_co2_data`. */
  const StateTreeData: map<string, TreeProfile> := ToDict(StateTreeEntries)

  /** Every region's tree absorbs a positive amount, so dividing by it is always defined. */
  lemma {:induction false} AbsorptionPositive()
    ensures forall k :: k in StateTreeData ==> StateTreeData[k].co2Absorbed > 0.0
  {
    EntriesAbsorb();
    forall k | k in StateTreeData
      ensures StateTreeData[k].co2Absorbed > 0.0
    {
      var j :| 0 <= j < |StateTreeEntries| && StateTreeEntries[j] == (k, StateTreeData[k]);
    }
  }

  /** No region of the table is named by the empty string. */
  lemma {:induction false} RegionNamesNonEmpty()
    ensures "" !in StateTreeData
  {
    EntriesNamed();
    NamedKeys(StateTreeEntries);
  }

  /** A literal whose keys are all non-empty builds a dictionary without the empty key. */
  lemma {:induction false} NamedKeys<V>(entries: seq<(string, V)>)
    requires forall i :: 0 <= i < |entries| ==> |entries[i].0| > 0
    ensures "" !in ToDict(entries)
  {
  }

  lemma {:induction false} EntriesNamed()
    ensures forall i :: 0 <= i < |StateTreeEntries| ==> |StateTreeEntries[i].0| > 0
  {
  }

  /** Every tree written in the literal absorbs a positive amount. */
  lemma {:induction false} EntriesAbsorb()
    ensures forall i :: 0 <= i < |StateTreeEntries| ==> StateTreeEntries[i].1.co2Absorbed > 0.0
  {
  }

  /**
   * `dict.keys()` of the dictionary the literal builds: each key once, in the
   * order of its first appearance.
   */
  function DictKeys<V>(entries: seq<(string, V)>): (r: seq<string>)
    ensures Distinct(r)
    ensures forall k :: k in r <==> HasKey(entries, k)
  {
    if entries == [] then []
    else
      var n := |entries| - 1;
      var keys := DictKeys(entries[..n]);
      assert forall k :: HasKey(entries, k) <==> HasKey(entries[..n], k) || k == entries[n].0 by {
        forall k | HasKey(entries, k) && k != entries[n].0
          ensures HasKey(entries[..n], k)
        {
          var j :| 0 <= j < |entries| && entries[j].0 == k;
          assert entries[..n][j].0 == k;
        }
        forall k | HasKey(entries[..n], k)
          ensures HasKey(entries, k)
        {
          var j :| 0 <= j < n && entries[..n][j].0 == k;
          assert entries[j].0 == k;
        }
      }
      if entries[n].0 in keys then keys else keys + [entries[n].0]
  }

  /** `STATES_UT_LIST = sorted(state_tree_co2_data.keys())`. */
  function StatesUtList(): (r: seq<string>)
    ensures StrictlySorted(r)
    ensures forall k :: k in r <==> k in StateTreeData
  {
    SortDistinct(DictKeys(StateTreeEntries));
    Sort(DictKeys(StateTreeEntries))
  }

  /** Every emission factor is non-negative. */
  predicate NonNegativeFactors(factors: map<string, real>)
  {
    forall s :: s in factors ==> factors[s] >= 0.0
  }

  lemma {:induction false} FactorsNonNegative()
    ensures NonNegativeFactors(Co2Factors)
  {
  }

  // ---------------------------------------------------------------------
  // Benchmark bands

  /** `MAX_GAUGE_KG`: the mass at which the gauge is full. */
  const MaxGaugeKg: real := 50000.0

  /** One entry of `co2_mass_ranges`: a band of masses with its caption and colour. */
  datatype Band = Band(low: real, high: real, caption: string, color: string)

  /** `co2_mass_ranges`. */
  const Co2MassRanges: seq<Band> := [
    Band(0.0, 5000.0, "Excellent (Pioneer)", "green"),
    Band(5000.0, 15000.0, "Good (Standard)", "lime"),
    Band(15000.0, 30000.0, "Fair (Improvement Needed)", "orange"),
    Band(30000.0, MaxGaugeKg, "Poor (High Risk)", "red")
  ]

  /** The bands lie end to end, each of positive width, from `lo` to `hi`. */
  predicate Tiles(bands: seq<Band>, lo: real, hi: real)
  {
    && |bands| > 0
    && bands[0].low == lo
    && bands[|bands| - 1].high == hi
    && (forall i :: 0 <= i < |bands| ==> bands[i].low < bands[i].high)
    && (forall i :: 0 <= i < |bands| - 1 ==> bands[i].high == bands[i + 1].low)
  }

  lemma {:induction false} MassRangesTile()
    ensures Tiles(Co2MassRanges, 0.0, MaxGaugeKg)
  {
  }

  /** Bands that tile a range leave no gap: every mass in the range lies in some band. */
  lemma {:induction false} TilesCover(bands: seq<Band>, lo: real, hi: real, m: real)
    requires Tiles(bands, lo, hi) && lo <= m < hi
    ensures exists i :: 0 <= i < |bands| && bands[i].low <= m < bands[i].high
  {
    if m >= bands[0].high {
      assert |bands| > 1;
      TilesCover(bands[1..], bands[0].high, hi, m);
      var i :| 0 <= i < |bands| - 1 && bands[1..][i].low <= m < bands[1..][i].high;
      assert bands[i + 1].low <= m < bands[i + 1].high;
    }
  }

  /** ...and no overlap: a later band starts where or after an earlier one ends. */
  lemma {:induction false} TilesOrdered(bands: seq<Band>, lo: real, hi: real, i: nat, j: nat)
    requires Tiles(bands, lo, hi) && i < j < |bands|
    ensures bands[i].high <= bands[j].low
    decreases j - i
  {
    if i + 1 < j {
      TilesOrdered(bands, lo, hi, i + 1, j);
    }
  }

  /** Hence every mass in the range lies in exactly one band. */
  lemma {:induction false} TilesPartition(bands: seq<Band>, lo: real, hi: real, m: real, i: nat, j: nat)
    requires Tiles(bands, lo, hi)
    requires i < |bands| && bands[i].low <= m < bands[i].high
    requires j < |bands| && bands[j].low <= m < bands[j].high
    ensures i == j
  {
    if i < j {
      TilesOrdered(bands, lo, hi, i, j);
    } else if j < i {
      TilesOrdered(bands, lo, hi, j, i);
    }
  }
}
