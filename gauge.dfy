/**
 * The arithmetic of `generate_gauge`: the half-dial runs from 180 degrees
 * (0 kg) down to 0 degrees (`MAX_GAUGE_KG`), each benchmark band is drawn as
 * a wedge between the angles of its bounds, and the pointer shows the total
 * clamped to the dial. Trigonometry, label placement and the image itself
 * are drawing and are not modelled.
 */
module Gauge {
  import opened Tables

  /** The angle of 0 kg, the left end of the dial. */
  const StartAngle: real := 180.0

  /** `min(total_co2_kg, MAX_GAUGE_KG)`: the mass the pointer shows. */
  function DisplayMass(total: real): (d: real)
    ensures d <= total && d <= MaxGaugeKg
    ensures d == total || d == MaxGaugeKg
  {
    if total <= MaxGaugeKg then total else MaxGaugeKg
  }

  /** `start_angle - (m / MAX_GAUGE_KG) * 180`: the dial angle of mass `m`. */
  function AngleOf(m: real): (a: real)
    ensures 0.0 <= m <= MaxGaugeKg ==> 0.0 <= a <= StartAngle
  {
    StartAngle - (m / MaxGaugeKg) * 180.0
  }

  /** The dial maps 0 kg to 180 degrees and `MAX_GAUGE_KG` to 0 degrees... */
  lemma {:induction false} AngleEnds()
    ensures AngleOf(0.0) == 180.0 && AngleOf(MaxGaugeKg) == 0.0
  {
  }

  /** ...strictly decreasing in between: a heavier mass points further right. */
  lemma {:induction false} AngleDecreasing(m1: real, m2: real)
    requires m1 < m2
    ensures AngleOf(m2) < AngleOf(m1)
  {
    assert AngleOf(m1) - AngleOf(m2) == (m2 - m1) * 180.0 / MaxGaugeKg;
  }

  lemma {:induction false} AngleOrder(m1: real, m2: real)
    ensures m1 < m2 ==> AngleOf(m2) < AngleOf(m1)
  {
    if m1 < m2 {
      AngleDecreasing(m1, m2);
    }
  }

  lemma {:induction false} AngleNonIncreasing(m1: real, m2: real)
    requires m1 <= m2
    ensures AngleOf(m2) <= AngleOf(m1)
  {
    if m1 < m2 {
      AngleDecreasing(m1, m2);
    }
  }

  /** `pointer_angle`: the angle of the clamped total. */
  function PointerAngle(total: real): (a: real)
    ensures 0.0 <= total ==> 0.0 <= a <= 180.0
    ensures MaxGaugeKg <= total ==> a == 0.0
  {
    PointerRange(total);
    AngleOf(DisplayMass(total))
  }

  lemma {:induction false} PointerRange(total: real)
    ensures 0.0 <= total ==> 0.0 <= AngleOf(DisplayMass(total)) <= 180.0
    ensures MaxGaugeKg <= total ==> AngleOf(DisplayMass(total)) == 0.0
  {
    var d := DisplayMass(total);
    AngleEnds();
    if 0.0 <= total {
      AngleNonIncreasing(0.0, d);
      AngleNonIncreasing(d, MaxGaugeKg);
    }
  }

  /** A larger total never moves the pointer back to the left. */
  lemma {:induction false} PointerMonotone(t1: real, t2: real)
    requires t1 <= t2
    ensures PointerAngle(t2) <= PointerAngle(t1)
  {
    AngleNonIncreasing(DisplayMass(t1), DisplayMass(t2));
  }

  /** Below the cap the pointer shows the total itself. */
  lemma {:induction false} PointerUncapped(total: real)
    requires total <= MaxGaugeKg
    ensures PointerAngle(total) == AngleOf(total)
  {
  }

  /** One coloured wedge of the dial: from `theta2` (its upper bound) to `theta1` (its lower bound). */
  datatype Wedge = Wedge(theta1: real, theta2: real, caption: string, color: string)

  /** The wedge drawn for one band. */
  function WedgeOf(b: Band): (w: Wedge)
    ensures b.low < b.high ==> w.theta2 < w.theta1
    ensures w.caption == b.caption && w.color == b.color
  {
    AngleOrder(b.low, b.high);
    Wedge(AngleOf(b.low), AngleOf(b.high), b.caption, b.color)
  }

  /** The wedges of the bands, in the order they are drawn. */
  function Wedges(bands: seq<Band>): (ws: seq<Wedge>)
    ensures |ws| == |bands|
    ensures forall i :: 0 <= i < |bands| ==> ws[i] == WedgeOf(bands[i])
  {
    if bands == [] then [] else [WedgeOf(bands[0])] + Wedges(bands[1..])
  }

  /** The wedges of bands tiling a range tile the matching arc of the dial. */
  predicate ArcTiled(ws: seq<Wedge>, from: real, to: real)
  {
    && |ws| > 0
    && ws[0].theta1 == from
    && ws[|ws| - 1].theta2 == to
    && (forall i :: 0 <= i < |ws| ==> ws[i].theta2 < ws[i].theta1)
    && (forall i :: 0 <= i < |ws| - 1 ==> ws[i].theta2 == ws[i + 1].theta1)
  }

  /** Bands tiling `[lo, hi)` give wedges tiling the arc from the angle of `lo` down to that of `hi`. */
  lemma {:induction false} WedgesTile(bands: seq<Band>, lo: real, hi: real)
    requires Tiles(bands, lo, hi)
    ensures ArcTiled(Wedges(bands), AngleOf(lo), AngleOf(hi))
  {
    var ws := Wedges(bands);
    forall i | 0 <= i < |ws|
      ensures ws[i].theta2 < ws[i].theta1
    {
      assert bands[i].low < bands[i].high;
    }
  }

  /** The four benchmark wedges cover the half-dial from 180 to 0 degrees without gaps. */
  lemma {:induction false} GaugeWedgesTile()
    ensures ArcTiled(Wedges(Co2MassRanges), 180.0, 0.0)
  {
    MassRangesTile();
    WedgesTile(Co2MassRanges, 0.0, MaxGaugeKg);
    AngleEnds();
  }

  /**
   * Below the cap, the pointer lies in the wedge of the band that holds
   * the total.
   */
  lemma {:induction false} PointerInBandWedge(total: real) returns (i: nat)
    requires 0.0 <= total < MaxGaugeKg
    ensures i < |Co2MassRanges| && Co2MassRanges[i].low <= total < Co2MassRanges[i].high
    ensures Wedges(Co2MassRanges)[i].theta2 < PointerAngle(total) <= Wedges(Co2MassRanges)[i].theta1
  {
    MassRangesTile();
    TilesCover(Co2MassRanges, 0.0, MaxGaugeKg, total);
    i :| 0 <= i < |Co2MassRanges| && Co2MassRanges[i].low <= total < Co2MassRanges[i].high;
    AngleNonIncreasing(Co2MassRanges[i].low, total);
    AngleDecreasing(total, Co2MassRanges[i].high);
  }

  /** What `generate_gauge` draws: the wedges, the pointer and the caption's mass. */
  datatype Drawing = Drawing(wedges: seq<Wedge>, pointer: real, caption: real)

  /**
   * `generate_gauge(total_co2_kg)`: the pointer is clamped to the dial but
   * the caption in the centre shows the total itself, however large.
   */
  function GenerateGauge(total: real): (g: Drawing)
    ensures |g.wedges| == |Co2MassRanges|
    ensures ArcTiled(g.wedges, StartAngle, 0.0)
    ensures g.caption == total
    ensures 0.0 <= total ==> 0.0 <= g.pointer <= 180.0
    ensures MaxGaugeKg <= total ==> g.pointer == 0.0
    ensures total <= MaxGaugeKg ==> g.pointer == AngleOf(total)
  {
    GaugeWedgesTile();
    Drawing(Wedges(Co2MassRanges), PointerAngle(total), total)
  }
}
