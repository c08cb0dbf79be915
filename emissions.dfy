/**
 * `calculate_emissions`: the CO2 mass of every row of the uploaded table
 * (the `CO2_Emission_kg` column), summed per source (pandas `groupby`,
 * which orders the groups by source name) and in total, with only the
 * sources of positive mass kept in the per-source table.
 */
module Emissions {
  import opened Strings
  import opened Tables

  /** One row of the uploaded table: its `Source` and `Amount` columns. */
  datatype Row = Row(source: string, amount: real)

  /**
   * A source paired with a CO2 mass in kg: a row of the `CO2_Emission_kg`
   * column, or a row of the per-source table.
   */
  datatype SourceMass = SourceMass(source: string, mass: real)

  /** What `calculate_emissions` returns: `total_co2` and the filtered per-source table. */
  datatype Emissions = Emissions(total: real, perSource: seq<SourceMass>)

  /** `co2_factors.get(source, 0)`: an unknown source has factor 0. */
  function Factor(factors: map<string, real>, source: string): (f: real)
    ensures source !in factors ==> f == 0.0
    ensures NonNegativeFactors(factors) ==> f >= 0.0
  {
    if source in factors then factors[source] else 0.0
  }

  /** The `CO2_Emission_kg` value of one row. */
  function RowMass(factors: map<string, real>, row: Row): (m: real)
    ensures row.source !in factors ==> m == 0.0
    ensures NonNegativeFactors(factors) && row.amount >= 0.0 ==> m >= 0.0
  {
    var f := Factor(factors, row.source);
    assert row.amount >= 0.0 && f >= 0.0 ==> row.amount * f >= 0.0 * f;
    row.amount * f
  }

  /** The `CO2_Emission_kg` column of the rows, next to their `Source` column. */
  function Masses(rows: seq<Row>, factors: map<string, real>): (col: seq<SourceMass>)
    ensures |col| == |rows|
  {
    if rows == [] then [] else [SourceMass(rows[0].source, RowMass(factors, rows[0]))] + Masses(rows[1..], factors)
  }

  /** Row `i` of the column holds row `i`'s source and mass. */
  lemma {:induction false} MassesAt(rows: seq<Row>, factors: map<string, real>, i: nat)
    requires i < |rows|
    ensures Masses(rows, factors)[i] == SourceMass(rows[i].source, RowMass(factors, rows[i]))
  {
    MassesCons(rows, factors);
    if i > 0 {
      MassesAt(rows[1..], factors, i - 1);
    }
  }

  lemma {:induction false} MassesCons(rows: seq<Row>, factors: map<string, real>)
    requires rows != []
    ensures Masses(rows, factors)[0] == SourceMass(rows[0].source, RowMass(factors, rows[0]))
    ensures Masses(rows, factors)[1..] == Masses(rows[1..], factors)
  {
    assert Masses(rows, factors) == [SourceMass(rows[0].source, RowMass(factors, rows[0]))] + Masses(rows[1..], factors);
  }

  // ---------------------------------------------------------------------
  // Reference sums over a column of masses

  /** The sum of the masses, as pandas' `.sum()`. */
  function TableMass(t: seq<SourceMass>): real
  {
    if t == [] then 0.0 else t[0].mass + TableMass(t[1..])
  }

  /** The distinct sources that occur. */
  function Sources(col: seq<SourceMass>): set<string>
  {
    if col == [] then {} else {col[0].source} + Sources(col[1..])
  }

  /** The sum of the masses of source `s`. */
  function SourceMassOf(col: seq<SourceMass>, s: string): real
  {
    if col == [] then 0.0
    else (if col[0].source == s then col[0].mass else 0.0) + SourceMassOf(col[1..], s)
  }

  /**
   * For each source that occurs, the sum of its masses, accumulated one
   * entry at a time (SourceTotalsMeaning relates it to the sums above).
   */
  function SourceTotals(col: seq<SourceMass>): map<string, real>
  {
    if col == [] then map[]
    else
      var rest := SourceTotals(col[1..]);
      rest[col[0].source := Get(rest, col[0].source) + col[0].mass]
  }

  /** The mass a dictionary gives a source, 0 for a source it lacks. */
  function Get(m: map<string, real>, s: string): real
  {
    if s in m then m[s] else 0.0
  }

  /** The entries of a dictionary whose value is positive. */
  function PositivePart(m: map<string, real>): map<string, real>
  {
    map s | s in m && m[s] > 0.0 :: m[s]
  }

  /** A source that does not occur has no mass. */
  lemma {:induction false} AbsentSourceNoMass(col: seq<SourceMass>, s: string)
    requires s !in Sources(col)
    ensures SourceMassOf(col, s) == 0.0
  {
    if col != [] {
      AbsentSourceNoMass(col[1..], s);
    }
  }

  /** The dictionary of per-source sums has exactly the sources that occur, each with its sum. */
  lemma {:induction false} SourceTotalsMeaning(col: seq<SourceMass>, s: string)
    ensures s in SourceTotals(col) <==> s in Sources(col)
    ensures Get(SourceTotals(col), s) == SourceMassOf(col, s)
  {
    if col != [] {
      SourceTotalsMeaning(col[1..], s);
    }
  }

  /** ...so it has one entry per distinct source. */
  lemma {:induction false} SourceTotalsSize(col: seq<SourceMass>)
    ensures |SourceTotals(col)| == |Sources(col)|
  {
    forall s
      ensures s in SourceTotals(col) <==> s in Sources(col)
    {
      SourceTotalsMeaning(col, s);
    }
    assert SourceTotals(col).Keys == Sources(col);
  }

  // ---------------------------------------------------------------------
  // Per-source tables

  /** Every source occurs once, and in increasing order, as pandas' `groupby` lists them. */
  predicate KeysIncreasing(t: seq<SourceMass>)
  {
    forall i, j :: 0 <= i < j < |t| ==> Less(t[i].source, t[j].source)
  }

  /** The table read as a dictionary from source to mass. */
  function AsMap(t: seq<SourceMass>): map<string, real>
  {
    if t == [] then map[] else AsMap(t[1..])[t[0].source := t[0].mass]
  }

  /** Every source of the table is a key of its dictionary view... */
  lemma {:induction false} KeyOfRow(t: seq<SourceMass>, i: nat)
    requires i < |t|
    ensures t[i].source in AsMap(t)
  {
    if i > 0 {
      assert t[1..][i - 1] == t[i];
      KeyOfRow(t[1..], i - 1);
    }
  }

  /** ...and every key of the view is the source of a row. */
  lemma {:induction false} RowOfKey(t: seq<SourceMass>, s: string) returns (i: nat)
    requires s in AsMap(t)
    ensures i < |t| && t[i].source == s
  {
    if t[0].source != s {
      var j := RowOfKey(t[1..], s);
      i := j + 1;
    } else {
      i := 0;
    }
  }

  /** The dictionary view of a table with one more row in front. */
  lemma {:induction false} AsMapCons(e: SourceMass, t: seq<SourceMass>)
    ensures AsMap([e] + t) == AsMap(t)[e.source := e.mass]
  {
    assert ([e] + t)[1..] == t;
  }

  /** In a table with increasing keys, the first source occurs nowhere else. */
  lemma {:induction false} FirstKeyUnique(t: seq<SourceMass>)
    requires KeysIncreasing(t) && t != []
    ensures t[0].source !in AsMap(t[1..])
  {
    if t[0].source in AsMap(t[1..]) {
      var i := RowOfKey(t[1..], t[0].source);
      assert t[i + 1] == t[1..][i];
      LessIrreflexive(t[0].source);
    }
  }

  /** In a table with increasing keys, the dictionary view gives each row's own mass. */
  lemma {:induction false} AsMapAt(t: seq<SourceMass>, i: nat)
    requires KeysIncreasing(t) && i < |t|
    ensures t[i].source in AsMap(t) && AsMap(t)[t[i].source] == t[i].mass
  {
    if i > 0 {
      assert t[1..][i - 1] == t[i];
      AsMapAt(t[1..], i - 1);
      FirstKeyUnique(t);
    }
  }

  /** A table with increasing keys has one row per key of its view. */
  lemma {:induction false} TableSize(t: seq<SourceMass>)
    requires KeysIncreasing(t)
    ensures |AsMap(t)| == |t|
  {
    if t != [] {
      TableSize(t[1..]);
      FirstKeyUnique(t);
    }
  }

  /** The first key of a table with increasing keys is below every other key. */
  lemma {:induction false} FirstKeyLeast(t: seq<SourceMass>, s: string)
    requires KeysIncreasing(t) && |t| > 0 && s in AsMap(t) && s != t[0].source
    ensures Less(t[0].source, s)
  {
    var i := RowOfKey(t, s);
  }

  /** A table with increasing keys is determined by its dictionary view. */
  lemma {:induction false} TableExtensionality(a: seq<SourceMass>, b: seq<SourceMass>)
    requires KeysIncreasing(a) && KeysIncreasing(b) && AsMap(a) == AsMap(b)
    ensures a == b
  {
    if a != [] && b != [] {
      var x, y := a[0].source, b[0].source;
      if x != y {
        KeyOfRow(a, 0);
        KeyOfRow(b, 0);
        FirstKeyLeast(a, y);
        FirstKeyLeast(b, x);
        LessAsymmetric(x, y);
      }
      AsMapAt(a, 0);
      AsMapAt(b, 0);
      FirstKeyUnique(a);
      FirstKeyUnique(b);
      assert AsMap(a[1..]) == AsMap(a) - {x};
      assert AsMap(b[1..]) == AsMap(b) - {x};
      TableExtensionality(a[1..], b[1..]);
      assert a == [a[0]] + a[1..] && b == [b[0]] + b[1..];
    } else if a != [] {
      KeyOfRow(a, 0);
    } else if b != [] {
      KeyOfRow(b, 0);
    }
  }

  // ---------------------------------------------------------------------
  // groupby('Source')['CO2_Emission_kg'].sum()

  /** Adds mass `m` to source `s`, inserting `s` at its place when it is new. */
  function AddTo(t: seq<SourceMass>, s: string, m: real): (r: seq<SourceMass>)
    requires KeysIncreasing(t)
    ensures KeysIncreasing(r)
    ensures AsMap(r) == AsMap(t)[s := Get(AsMap(t), s) + m]
    ensures TableMass(r) == TableMass(t) + m
  {
    if t == [] then
      AsMapCons(SourceMass(s, m), []);
      [SourceMass(s, m)]
    else if t[0].source == s then
      AddToExisting(t, m);
      [SourceMass(s, t[0].mass + m)] + t[1..]
    else if Less(s, t[0].source) then
      AddToFront(t, s, m);
      [SourceMass(s, m)] + t
    else
      LessTotal(s, t[0].source);
      var rest := AddTo(t[1..], s, m);
      AddToLaterIncreasing(t, s, rest);
      AddToLaterView(t, s, m, rest);
      [t[0]] + rest
  }

  lemma {:induction false} AddToExisting(t: seq<SourceMass>, m: real)
    requires KeysIncreasing(t) && t != []
    ensures var r := [SourceMass(t[0].source, t[0].mass + m)] + t[1..];
      && KeysIncreasing(r)
      && AsMap(r) == AsMap(t)[t[0].source := Get(AsMap(t), t[0].source) + m]
      && TableMass(r) == TableMass(t) + m
  {
    var r := [SourceMass(t[0].source, t[0].mass + m)] + t[1..];
    assert t == [t[0]] + t[1..];
    AsMapCons(t[0], t[1..]);
    AsMapCons(r[0], t[1..]);
    assert r[1..] == t[1..];
  }

  lemma {:induction false} AddToFront(t: seq<SourceMass>, s: string, m: real)
    requires KeysIncreasing(t) && t != [] && Less(s, t[0].source)
    ensures var r := [SourceMass(s, m)] + t;
      && KeysIncreasing(r)
      && AsMap(r) == AsMap(t)[s := Get(AsMap(t), s) + m]
      && TableMass(r) == TableMass(t) + m
  {
    var r := [SourceMass(s, m)] + t;
    forall i | 0 <= i < |t|
      ensures Less(s, t[i].source)
    {
      if i > 0 {
        LessTransitive(s, t[0].source, t[i].source);
      }
    }
    if s in AsMap(t) {
      var i := RowOfKey(t, s);
      LessIrreflexive(s);
    }
    AsMapCons(r[0], t);
    assert r[1..] == t;
  }

  lemma {:induction false} AddToLaterIncreasing(t: seq<SourceMass>, s: string, rest: seq<SourceMass>)
    requires KeysIncreasing(t) && t != [] && Less(t[0].source, s)
    requires KeysIncreasing(rest)
    requires AsMap(rest).Keys == AsMap(t[1..]).Keys + {s}
    ensures KeysIncreasing([t[0]] + rest)
  {
    var r := [t[0]] + rest;
    forall j | 0 < j < |r|
      ensures Less(t[0].source, r[j].source)
    {
      assert r[j] == rest[j - 1];
      KeyOfRow(rest, j - 1);
      if rest[j - 1].source != s {
        var i := RowOfKey(t[1..], rest[j - 1].source);
        assert t[i + 1] == t[1..][i];
      }
    }
  }

  lemma {:induction false} AddToLaterView(t: seq<SourceMass>, s: string, m: real, rest: seq<SourceMass>)
    requires t != [] && t[0].source != s
    requires AsMap(rest) == AsMap(t[1..])[s := Get(AsMap(t[1..]), s) + m]
    requires TableMass(rest) == TableMass(t[1..]) + m
    ensures AsMap([t[0]] + rest) == AsMap(t)[s := Get(AsMap(t), s) + m]
    ensures TableMass([t[0]] + rest) == TableMass(t) + m
  {
    var x, tail := t[0].source, AsMap(t[1..]);
    assert Get(AsMap(t), s) == Get(tail, s);
    AsMapCons(t[0], rest);
    assert ([t[0]] + rest)[1..] == rest;
    calc {
      AsMap([t[0]] + rest);
      AsMap(rest)[x := t[0].mass];
      tail[s := Get(tail, s) + m][x := t[0].mass];
      tail[x := t[0].mass][s := Get(tail, s) + m];
    }
  }

  /**
   * `df.groupby('Source')['CO2_Emission_kg'].sum()`: one row per distinct
   * source, in increasing order, holding the sum of that source's masses.
   */
  function Group(col: seq<SourceMass>): (t: seq<SourceMass>)
    ensures KeysIncreasing(t)
    ensures AsMap(t) == SourceTotals(col)
    ensures |t| == |Sources(col)|
    ensures TableMass(t) == TableMass(col)
  {
    if col == [] then []
    else
      var g := Group(col[1..]);
      var t := AddTo(g, col[0].source, col[0].mass);
      GroupStep(col, g, t);
      GroupSize(col, t);
      t
  }

  lemma {:induction false} GroupStep(col: seq<SourceMass>, g: seq<SourceMass>, t: seq<SourceMass>)
    requires col != [] && AsMap(g) == SourceTotals(col[1..])
    requires AsMap(t) == AsMap(g)[col[0].source := Get(AsMap(g), col[0].source) + col[0].mass]
    ensures AsMap(t) == SourceTotals(col)
  {
  }

  lemma {:induction false} GroupSize(col: seq<SourceMass>, t: seq<SourceMass>)
    requires KeysIncreasing(t) && AsMap(t) == SourceTotals(col)
    ensures |t| == |Sources(col)|
  {
    TableSize(t);
    SourceTotalsSize(col);
  }

  /** `co2_per_source[co2_per_source['CO2_Emission_kg'] > 0]`. */
  function Positive(t: seq<SourceMass>): (r: seq<SourceMass>)
    ensures forall e :: e in r <==> e in t && e.mass > 0.0
    ensures KeysIncreasing(t) ==> KeysIncreasing(r)
  {
    if t == [] then []
    else
      assert forall e :: e in t <==> e == t[0] || e in t[1..];
      if t[0].mass > 0.0 then [t[0]] + Positive(t[1..]) else Positive(t[1..])
  }

  /** Filtering the table filters its dictionary view. */
  lemma {:induction false} PositiveView(t: seq<SourceMass>)
    requires KeysIncreasing(t)
    ensures AsMap(Positive(t)) == PositivePart(AsMap(t))
  {
    if t != [] {
      PositiveView(t[1..]);
      FirstKeyUnique(t);
      var p := Positive(t[1..]);
      if t[0].mass > 0.0 {
        assert Positive(t) == [t[0]] + p;
        AsMapCons(t[0], p);
      }
    }
  }

  /**
   * `calculate_emissions(df)`: the total is the sum of the `CO2_Emission_kg`
   * column, and the per-source table lists, in increasing order of source,
   * exactly the sources whose summed mass is positive, each with that sum.
   */
  function CalculateEmissions(rows: seq<Row>, factors: map<string, real>): (r: Emissions)
    ensures r.total == TableMass(Masses(rows, factors))
    ensures KeysIncreasing(r.perSource)
    ensures AsMap(r.perSource) == PositivePart(SourceTotals(Masses(rows, factors)))
  {
    var groups := Group(Masses(rows, factors));
    PositiveView(groups);
    Emissions(TableMass(groups), Positive(groups))
  }

  /** `CalculateEmissions`'s postcondition on the total, restated as a lemma to hand to later proofs. */
  lemma {:induction false} TotalIs(rows: seq<Row>, factors: map<string, real>)
    ensures CalculateEmissions(rows, factors).total == TableMass(Masses(rows, factors))
  {
  }

  /** `CalculateEmissions`'s postconditions on the per-source table, restated as a lemma to hand to later proofs. */
  lemma {:induction false} PerSourceIs(rows: seq<Row>, factors: map<string, real>)
    ensures KeysIncreasing(CalculateEmissions(rows, factors).perSource)
    ensures AsMap(CalculateEmissions(rows, factors).perSource) == PositivePart(SourceTotals(Masses(rows, factors)))
  {
  }

  // ---------------------------------------------------------------------
  // Properties of calculate_emissions

  /** A row whose source has no factor has no mass. */
  lemma {:induction false} UnknownSourceHasNoMass(factors: map<string, real>, row: Row)
    requires row.source !in factors
    ensures RowMass(factors, row) == 0.0
  {
  }

  /** No rows: a total of 0 and an empty table. */
  lemma {:induction false} EmptyInput(factors: map<string, real>)
    ensures CalculateEmissions([], factors) == Emissions(0.0, [])
  {
    TableExtensionality(CalculateEmissions([], factors).perSource, []);
  }

  /** Summing non-negative masses gives a non-negative sum for every source. */
  lemma {:induction false} SourceMassNonNegative(col: seq<SourceMass>, s: string)
    requires forall i :: 0 <= i < |col| ==> col[i].mass >= 0.0
    ensures SourceMassOf(col, s) >= 0.0
  {
    if col != [] {
      SourceMassNonNegative(col[1..], s);
    }
  }

  /** Dropping rows of non-positive mass from a table of non-negative masses keeps its sum. */
  lemma {:induction false} PositiveKeepsSum(t: seq<SourceMass>)
    requires forall i :: 0 <= i < |t| ==> t[i].mass >= 0.0
    ensures TableMass(Positive(t)) == TableMass(t)
  {
    if t != [] {
      PositiveKeepsSum(t[1..]);
      if t[0].mass > 0.0 {
        assert Positive(t) == [t[0]] + Positive(t[1..]);
        assert ([t[0]] + Positive(t[1..]))[1..] == Positive(t[1..]);
      }
    }
  }

  /**
   * With non-negative factors and non-negative amounts, the filtered
   * per-source table still sums to the total.
   */
  lemma {:induction false} PerSourceSumsToTotal(rows: seq<Row>, factors: map<string, real>)
    requires NonNegativeFactors(factors)
    requires forall i :: 0 <= i < |rows| ==> rows[i].amount >= 0.0
    ensures TableMass(CalculateEmissions(rows, factors).perSource) == CalculateEmissions(rows, factors).total
  {
    var col := Masses(rows, factors);
    forall i | 0 <= i < |col|
      ensures col[i].mass >= 0.0
    {
      MassesAt(rows, factors, i);
    }
    var groups := Group(col);
    forall i | 0 <= i < |groups|
      ensures groups[i].mass >= 0.0
    {
      AsMapAt(groups, i);
      SourceTotalsMeaning(col, groups[i].source);
      SourceMassNonNegative(col, groups[i].source);
    }
    PositiveKeepsSum(groups);
  }

  /** The rows with every `Amount` multiplied by `k`. */
  function Scale(rows: seq<Row>, k: real): (r: seq<Row>)
    ensures |r| == |rows|
  {
    if rows == [] then [] else [Row(rows[0].source, k * rows[0].amount)] + Scale(rows[1..], k)
  }

  /** Scaling a row's amount by `k` scales its mass by `k`. */
  lemma {:induction false} ScaleRowMass(factors: map<string, real>, row: Row, k: real)
    ensures RowMass(factors, Row(row.source, k * row.amount)) == k * RowMass(factors, row)
  {
    var f := Factor(factors, row.source);
    assert (k * row.amount) * f == k * (row.amount * f);
  }

  lemma {:induction false} Distribute(k: real, x: real, y: real, kx: real, ky: real)
    requires kx == k * x && ky == k * y
    ensures kx + ky == k * (x + y)
  {
  }

  /** The column with every mass multiplied by `k`. */
  function ScaleColumn(col: seq<SourceMass>, k: real): (r: seq<SourceMass>)
    ensures |r| == |col|
  {
    if col == [] then [] else [SourceMass(col[0].source, k * col[0].mass)] + ScaleColumn(col[1..], k)
  }

  lemma {:induction false} ScaleColumnMass(col: seq<SourceMass>, k: real)
    ensures TableMass(ScaleColumn(col, k)) == k * TableMass(col)
  {
    if col != [] {
      var r := ScaleColumn(col, k);
      assert r[0].mass == k * col[0].mass && r[1..] == ScaleColumn(col[1..], k);
      ScaleColumnMass(col[1..], k);
      Distribute(k, col[0].mass, TableMass(col[1..]), r[0].mass, TableMass(r[1..]));
    }
  }

  lemma {:induction false} ScaleMasses(rows: seq<Row>, factors: map<string, real>, k: real)
    ensures Masses(Scale(rows, k), factors) == ScaleColumn(Masses(rows, factors), k)
  {
    if rows != [] {
      var scaled := Scale(rows, k);
      assert scaled[0] == Row(rows[0].source, k * rows[0].amount) && scaled[1..] == Scale(rows[1..], k);
      MassesCons(rows, factors);
      MassesCons(scaled, factors);
      ScaleMasses(rows[1..], factors, k);
      ScaleRowMass(factors, rows[0], k);
      var lhs, c := Masses(scaled, factors), ScaleColumn(Masses(rows, factors), k);
      assert c[0] == SourceMass(rows[0].source, k * RowMass(factors, rows[0]));
      assert c[1..] == ScaleColumn(Masses(rows[1..], factors), k);
      assert lhs[0] == c[0];
      assert lhs == [lhs[0]] + lhs[1..] && c == [c[0]] + c[1..];
    }
  }

  /** Multiplying every amount by `k` multiplies the total by `k`. */
  lemma {:induction false} ScaleTotal(rows: seq<Row>, factors: map<string, real>, k: real)
    ensures CalculateEmissions(Scale(rows, k), factors).total == k * CalculateEmissions(rows, factors).total
  {
    calc {
      CalculateEmissions(Scale(rows, k), factors).total;
      { TotalIs(Scale(rows, k), factors); }
      TableMass(Masses(Scale(rows, k), factors));
      { ScaleMasses(rows, factors, k); }
      TableMass(ScaleColumn(Masses(rows, factors), k));
      { ScaleColumnMass(Masses(rows, factors), k); }
      k * TableMass(Masses(rows, factors));
      { TotalIs(rows, factors); }
      k * CalculateEmissions(rows, factors).total;
    }
  }

  /** The rows whose source is not `s`. */
  function Drop(rows: seq<Row>, s: string): (r: seq<Row>)
    ensures forall row :: row in r <==> row in rows && row.source != s
  {
    if rows == [] then []
    else
      assert forall row :: row in rows <==> row == rows[0] || row in rows[1..];
      if rows[0].source == s then Drop(rows[1..], s) else [rows[0]] + Drop(rows[1..], s)
  }

  lemma {:induction false} DropCons(rows: seq<Row>, factors: map<string, real>, s: string)
    requires rows != [] && rows[0].source != s
    ensures Drop(rows, s) != [] && Drop(rows, s)[0] == rows[0] && Drop(rows, s)[1..] == Drop(rows[1..], s)
    ensures Masses(Drop(rows, s), factors)[0] == Masses(rows, factors)[0]
    ensures Masses(Drop(rows, s), factors)[1..] == Masses(Drop(rows[1..], s), factors)
  {
    assert Drop(rows, s) == [rows[0]] + Drop(rows[1..], s);
    MassesCons(Drop(rows, s), factors);
  }

  lemma {:induction false} DropSources(rows: seq<Row>, factors: map<string, real>, s: string)
    ensures Sources(Masses(Drop(rows, s), factors)) == Sources(Masses(rows, factors)) - {s}
  {
    if rows != [] {
      DropSources(rows[1..], factors, s);
      MassesCons(rows, factors);
      if rows[0].source != s {
        DropCons(rows, factors, s);
      }
    }
  }

  lemma {:induction false} DropTableMass(rows: seq<Row>, factors: map<string, real>, s: string)
    requires s !in factors
    ensures TableMass(Masses(Drop(rows, s), factors)) == TableMass(Masses(rows, factors))
  {
    if rows != [] {
      DropTableMass(rows[1..], factors, s);
      MassesCons(rows, factors);
      if rows[0].source != s {
        DropCons(rows, factors, s);
      }
    }
  }

  lemma {:induction false} DropSourceMass(rows: seq<Row>, factors: map<string, real>, s: string, x: string)
    requires s !in factors
    ensures SourceMassOf(Masses(Drop(rows, s), factors), x) == SourceMassOf(Masses(rows, factors), x)
  {
    if rows != [] {
      DropSourceMass(rows[1..], factors, s, x);
      MassesCons(rows, factors);
      if rows[0].source != s {
        DropCons(rows, factors, s);
      }
    }
  }

  /** A source without a factor sums to 0, and dropping its rows leaves every other sum. */
  lemma {:induction false} DropUnknownTotals(rows: seq<Row>, factors: map<string, real>, s: string)
    requires s !in factors
    ensures SourceTotals(Masses(Drop(rows, s), factors)) == SourceTotals(Masses(rows, factors)) - {s}
    ensures s in SourceTotals(Masses(rows, factors)) ==> SourceTotals(Masses(rows, factors))[s] == 0.0
  {
    var col, kept := Masses(rows, factors), Masses(Drop(rows, s), factors);
    DropSources(rows, factors, s);
    forall x
      ensures x in SourceTotals(kept) <==> x in SourceTotals(col) - {s}
      ensures x in SourceTotals(kept) ==> SourceTotals(kept)[x] == SourceTotals(col)[x]
    {
      SourceTotalsMeaning(kept, x);
      SourceTotalsMeaning(col, x);
      DropSourceMass(rows, factors, s, x);
    }
    SourceTotalsMeaning(col, s);
    DropSourceMass(rows, factors, s, s);
    AbsentSourceNoMass(kept, s);
  }

  /** Removing a key whose value is not positive leaves the positive part. */
  lemma {:induction false} PositivePartRemove(m: map<string, real>, s: string)
    requires s in m ==> m[s] <= 0.0
    ensures PositivePart(m - {s}) == PositivePart(m)
    ensures s !in PositivePart(m)
  {
  }

  /**
   * Rows whose source has no factor are ignored: that source never appears
   * in the per-source table, and the result is what it would be without
   * those rows.
   */
  lemma {:induction false} UnknownSourceIgnored(rows: seq<Row>, factors: map<string, real>, s: string)
    requires s !in factors
    ensures s !in AsMap(CalculateEmissions(rows, factors).perSource)
    ensures CalculateEmissions(rows, factors) == CalculateEmissions(Drop(rows, s), factors)
  {
    var full := CalculateEmissions(rows, factors);
    var dropped := CalculateEmissions(Drop(rows, s), factors);
    DropUnknownTotals(rows, factors, s);
    PositivePartRemove(SourceTotals(Masses(rows, factors)), s);
    PerSourceIs(rows, factors);
    PerSourceIs(Drop(rows, s), factors);
    TableExtensionality(full.perSource, dropped.perSource);
    DropTableMass(rows, factors, s);
    TotalIs(rows, factors);
    TotalIs(Drop(rows, s), factors);
  }
}
