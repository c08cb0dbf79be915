/**
 * The calculation step of `calculate`: check that a table was uploaded and
 * that the selected region is known, compute the emissions, refuse a zero
 * total, and turn the total into the number of trees of the region's
 * species that absorb it in a year. The message boxes become the error
 * cases of the result, and the PDF report is not modelled.
 */
module Offset {
  import opened Strings
  import opened Tables
  import opened Emissions
  import opened Gauge

  datatype Option<T> = None | Some(value: T)

  /** Why `calculate` stops early; each is a message box in the application. */
  datatype CalcError =
    | NoData          // no table has been uploaded yet
    | InvalidRegion   // the stripped selection is not a region of the table
    | ZeroEmission    // the total CO2 mass is exactly zero

  /** What `calculate` hands on to the report once every check has passed. */
  datatype Report = Report(
    region: string,
    profile: TreeProfile,
    emissions: Emissions,
    trees: real,
    gauge: Drawing)

  datatype Outcome = Failure(error: CalcError) | Success(report: Report)

  /** `trees` trees absorbing `absorbed` kg a year each take up exactly `total` kg a year. */
  predicate Offsets(trees: real, absorbed: real, total: real)
  {
    trees * absorbed == total
  }

  /** `total_co2 / state_data['co2_absorbed']`: trees whose yearly absorption adds up to the total. */
  function TreesRequired(total: real, absorbed: real): (trees: real)
    requires absorbed > 0.0
    ensures Offsets(trees, absorbed, total)
    ensures total > 0.0 ==> trees > 0.0
    ensures total < 0.0 ==> trees < 0.0
  {
    total / absorbed
  }

  /** The tree count is proportional to the total. */
  lemma {:induction false} TreesProportional(t1: real, t2: real, k: real, absorbed: real)
    requires absorbed > 0.0 && t2 == k * t1
    ensures TreesRequired(t2, absorbed) == k * TreesRequired(t1, absorbed)
  {
    var r1, r2 := TreesRequired(t1, absorbed), TreesRequired(t2, absorbed);
    assert r2 * absorbed == (k * r1) * absorbed;
  }

  /** With a positive absorption, the tree count has the sign of the total. */
  lemma {:induction false} OffsetsSign(trees: real, absorbed: real, total: real)
    requires absorbed > 0.0 && Offsets(trees, absorbed, total)
    ensures trees > 0.0 <==> total > 0.0
  {
    if trees > 0.0 {
      assert trees * absorbed > 0.0 * absorbed;
    } else {
      assert trees * absorbed <= 0.0 * absorbed;
    }
  }

  /** Every region's tree absorbs a positive amount of CO2 a year. */
  predicate AbsorbingRegions(regions: map<string, TreeProfile>)
  {
    forall k :: k in regions ==> regions[k].co2Absorbed > 0.0
  }

  /**
   * `calculate()` over a region table and a factor table: `data` is the
   * uploaded table, if any, and `selection` the text of the region combo box.
   */
  function CalculateWith(data: Option<seq<Row>>, selection: string,
                         regions: map<string, TreeProfile>, factors: map<string, real>): (r: Outcome)
    requires AbsorbingRegions(regions)
    ensures r == Failure(NoData) <==> data.None?
    ensures r == Failure(InvalidRegion) <==> data.Some? && Strip(selection) !in regions
    ensures r == Failure(ZeroEmission) <==>
      data.Some? && Strip(selection) in regions
      && CalculateEmissions(data.value, factors).total == 0.0
    ensures r.Success? ==>
      && data.Some?
      && r.report.region == Strip(selection)
      && r.report.region in regions
      && r.report.profile == regions[r.report.region]
      && r.report.emissions == CalculateEmissions(data.value, factors)
      && r.report.emissions.total != 0.0
      && Offsets(r.report.trees, r.report.profile.co2Absorbed, r.report.emissions.total)
      && r.report.gauge == GenerateGauge(r.report.emissions.total)
  {
    if data.None? then Failure(NoData)
    else
      var region := Strip(selection);
      if region !in regions then Failure(InvalidRegion)
      else
        var e := CalculateEmissions(data.value, factors);
        if e.total == 0.0 then Failure(ZeroEmission)
        else
          var profile := regions[region];
          Success(Report(region, profile, e, TreesRequired(e.total, profile.co2Absorbed), GenerateGauge(e.total)))
  }

  /**
   * `calculate()` with the application's own tables: the division is always
   * defined, and the tree count has the sign of the total.
   */
  function Calculate(data: Option<seq<Row>>, selection: string): (r: Outcome)
    ensures r == Failure(InvalidRegion) <==> data.Some? && Strip(selection) !in StateTreeData
    ensures r.Success? ==>
      && r.report.region in StateTreeData
      && r.report.profile.co2Absorbed > 0.0
      && Offsets(r.report.trees, r.report.profile.co2Absorbed, r.report.emissions.total)
      && (r.report.trees > 0.0 <==> r.report.emissions.total > 0.0)
  {
    AbsorptionPositive();
    var r := CalculateWith(data, selection, StateTreeData, Co2Factors);
    if r.Success? then
      OffsetsSign(r.report.trees, r.report.profile.co2Absorbed, r.report.emissions.total);
      r
    else r
  }

  /**
   * A selection made only of white space (or left empty) strips to `""`,
   * which names no region, so it is refused once a table is loaded.
   */
  lemma {:induction false} BlankSelectionRejected(rows: seq<Row>, selection: string,
                                                  regions: map<string, TreeProfile>, factors: map<string, real>)
    requires AbsorbingRegions(regions) && "" !in regions
    requires AllSpace(selection)
    ensures CalculateWith(Some(rows), selection, regions, factors) == Failure(InvalidRegion)
  {
  }

  /** The application's own region table refuses a blank selection. */
  lemma {:induction false} BlankRegionRejected(rows: seq<Row>, selection: string)
    requires AllSpace(selection)
    ensures Calculate(Some(rows), selection) == Failure(InvalidRegion)
  {
    RegionNamesNonEmpty();
    AbsorptionPositive();
    BlankSelectionRejected(rows, selection, StateTreeData, Co2Factors);
  }

  /** White space around the selected region makes no difference to the outcome. */
  lemma {:induction false} SurroundingSpaceIgnored(data: Option<seq<Row>>, selection: string,
                                                   regions: map<string, TreeProfile>, factors: map<string, real>)
    requires AbsorbingRegions(regions)
    ensures CalculateWith(data, Strip(selection), regions, factors) == CalculateWith(data, selection, regions, factors)
  {
    StripIdempotent(selection);
  }

  /**
   * Only an exactly zero total is refused: a negative total (a negative
   * amount in the table) yields a report with a negative tree count.
   */
  lemma {:induction false} NegativeTotalAccepted(rows: seq<Row>, selection: string,
                                                 regions: map<string, TreeProfile>, factors: map<string, real>)
    requires AbsorbingRegions(regions) && Strip(selection) in regions
    requires CalculateEmissions(rows, factors).total < 0.0
    ensures CalculateWith(Some(rows), selection, regions, factors).Success?
    ensures CalculateWith(Some(rows), selection, regions, factors).report.trees < 0.0
  {
    var r := CalculateWith(Some(rows), selection, regions, factors);
    assert r.Success?;
    assert r.report.profile.co2Absorbed > 0.0;
  }

  lemma {:induction false} NonZeroScaled(t1: real, t2: real, k: real)
    requires t1 != 0.0 && k != 0.0 && t2 == k * t1
    ensures t2 != 0.0
  {
  }

  /**
   * Multiplying every amount by a non-zero `k` keeps a successful outcome
   * successful, for the same region, with the total multiplied by `k`.
   */
  lemma {:induction false} ScaledSucceeds(rows: seq<Row>, scaled: seq<Row>, k: real, selection: string,
                                          regions: map<string, TreeProfile>, factors: map<string, real>)
    requires AbsorbingRegions(regions) && k != 0.0 && scaled == Scale(rows, k)
    requires CalculateWith(Some(rows), selection, regions, factors).Success?
    ensures CalculateWith(Some(scaled), selection, regions, factors).Success?
    ensures CalculateWith(Some(scaled), selection, regions, factors).report.region
         == CalculateWith(Some(rows), selection, regions, factors).report.region
    ensures CalculateEmissions(scaled, factors).total == k * CalculateEmissions(rows, factors).total
  {
    ScaleTotal(rows, factors, k);
    NonZeroScaled(CalculateEmissions(rows, factors).total, CalculateEmissions(scaled, factors).total, k);
  }
}
