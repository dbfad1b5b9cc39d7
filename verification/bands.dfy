/** The severity band table of the total score and the share of the density's
    area falling in each band. The density estimate and its numerical
    integration are an input: an area function over intervals. */
module Bands {
  import opened Wrappers

  /** One band of `segments`: start, end and legend name. */
  datatype Segment = Segment(lo: real, hi: real, name: string)

  /** The integration domain of the total score. */
  const DomainLo: real := 0.0
  const DomainHi: real := 80.0

  /** `segments`, in order. */
  const Segments: seq<Segment> := [
    Segment(0.0, 29.0, "Burnout Nulo"),
    Segment(29.0, 36.0, "Burnout Leve"),
    Segment(36.0, 46.0, "Burnout Moderado"),
    Segment(46.0, 80.0, "Burnout Elevado")
  ]

  /** The segments cover [lo, hi] in order, each ending where the next starts. */
  predicate Tiles(s: seq<Segment>, lo: real, hi: real)
    decreases |s|
  {
    if s == [] then lo == hi
    else s[0].lo == lo && s[0].lo <= s[0].hi && Tiles(s[1..], s[0].hi, hi)
  }

  /** The band table tiles the integration domain. */
  lemma SegmentsTileDomain()
    ensures Tiles(Segments, DomainLo, DomainHi)
  {
  }

  /** The area under the density between two scores. */
  type Area = (real, real) -> real

  /** Integrals are additive over adjacent intervals. */
  ghost predicate Additive(area: Area)
  {
    forall a, b, c :: a <= b <= c ==> area(a, b) + area(b, c) == area(a, c)
  }

  /** A density is never negative, so neither is its area. */
  ghost predicate NonNegative(area: Area)
  {
    forall a, b :: a <= b ==> area(a, b) >= 0.0
  }

  /** A tiling runs forward. */
  lemma {:induction false} TilesOrdered(s: seq<Segment>, lo: real, hi: real)
    requires Tiles(s, lo, hi)
    ensures lo <= hi
    decreases |s|
  {
    if s != [] {
      TilesOrdered(s[1..], s[0].hi, hi);
    }
  }

  /** The summed area of the segments. */
  function SumAreas(s: seq<Segment>, area: Area): real
  {
    if s == [] then 0.0 else area(s[0].lo, s[0].hi) + SumAreas(s[1..], area)
  }

  /** The segment areas of a tiling add up to the area of the whole interval. */
  lemma {:induction false} TilingArea(s: seq<Segment>, lo: real, hi: real, area: Area)
    requires Tiles(s, lo, hi) && Additive(area)
    ensures SumAreas(s, area) == area(lo, hi)
    decreases |s|
  {
    if s == [] {
      assert area(lo, lo) + area(lo, lo) == area(lo, lo);
    } else {
      TilingArea(s[1..], s[0].hi, hi, area);
      TilesOrdered(s[1..], s[0].hi, hi);
      assert area(lo, s[0].hi) + area(s[0].hi, hi) == area(lo, hi);
    }
  }

  /** One row of the band table with its percentage of the total area. */
  datatype Share = Share(name: string, lo: real, hi: real, percentage: real)

  /** Python's float division by zero. */
  datatype ArithmeticError = ZeroDivisionError

  /** `segment_area / total_area * 100` for each segment, in order. */
  function SharesOf(s: seq<Segment>, area: Area, total: real): (r: seq<Share>)
    requires total != 0.0
    ensures |r| == |s|
    ensures forall i :: 0 <= i < |s| ==>
              r[i].name == s[i].name && r[i].lo == s[i].lo && r[i].hi == s[i].hi &&
              r[i].percentage * total == 100.0 * area(s[i].lo, s[i].hi)
  {
    if s == [] then []
    else [Share(s[0].name, s[0].lo, s[0].hi, area(s[0].lo, s[0].hi) / total * 100.0)] + SharesOf(s[1..], area, total)
  }

  /** The percentages of the band table. The total area is taken over the
      whole domain; when it is zero the first division raises. */
  function Percentages(area: Area): (r: Result<seq<Share>, ArithmeticError>)
    ensures r.Failure? <==> area(DomainLo, DomainHi) == 0.0
    ensures r.Success? ==> |r.value| == |Segments| && forall i :: 0 <= i < |Segments| ==>
              r.value[i].name == Segments[i].name &&
              r.value[i].percentage * area(DomainLo, DomainHi) == 100.0 * area(Segments[i].lo, Segments[i].hi)
  {
    var total := area(DomainLo, DomainHi);
    if total == 0.0 then Failure(ZeroDivisionError)
    else Success(SharesOf(Segments, area, total))
  }

  /** Sum of the percentage column. */
  function SumPercentages(r: seq<Share>): real
  {
    if r == [] then 0.0 else r[0].percentage + SumPercentages(r[1..])
  }

  /** Summing the shares is summing the areas, scaled. */
  lemma {:induction false} SharesSum(s: seq<Segment>, area: Area, total: real)
    requires total != 0.0
    ensures SumPercentages(SharesOf(s, area, total)) * total == 100.0 * SumAreas(s, area)
    decreases |s|
  {
    if s != [] {
      var r := SharesOf(s, area, total);
      SharesSum(s[1..], area, total);
      assert r[1..] == SharesOf(s[1..], area, total);
      var p := area(s[0].lo, s[0].hi) / total * 100.0;
      assert p * total == 100.0 * area(s[0].lo, s[0].hi);
      calc {
        SumPercentages(r) * total;
        (p + SumPercentages(r[1..])) * total;
        p * total + SumPercentages(r[1..]) * total;
        100.0 * area(s[0].lo, s[0].hi) + 100.0 * SumAreas(s[1..], area);
      }
    }
  }

  /** For an additive area with a non-zero total the four percentages add up to 100. */
  lemma PercentagesSumTo100(area: Area)
    requires Additive(area)
    requires area(DomainLo, DomainHi) != 0.0
    ensures Percentages(area).Success?
    ensures SumPercentages(Percentages(area).value) == 100.0
  {
    var total := area(DomainLo, DomainHi);
    SegmentsTileDomain();
    TilingArea(Segments, DomainLo, DomainHi, area);
    SharesSum(Segments, area, total);
    var sum := SumPercentages(Percentages(area).value);
    assert sum * total == 100.0 * total;
    assert (sum - 100.0) * total == 0.0;
  }

  /** A band's area is part of the domain's area. */
  lemma BandWithinTotal(area: Area, lo: real, hi: real)
    requires Additive(area) && NonNegative(area)
    requires DomainLo <= lo <= hi <= DomainHi
    ensures 0.0 <= area(lo, hi) <= area(DomainLo, DomainHi)
  {
    assert area(DomainLo, lo) + area(lo, DomainHi) == area(DomainLo, DomainHi);
    assert area(lo, hi) + area(hi, DomainHi) == area(lo, DomainHi);
  }

  /** A part of a positive whole is between 0 and 100 percent of it. */
  lemma PercentOfPart(p: real, part: real, whole: real)
    requires whole > 0.0 && 0.0 <= part <= whole
    requires p * whole == 100.0 * part
    ensures 0.0 <= p <= 100.0
  {
  }

  /** For a non-negative additive area each percentage lies in [0, 100]. */
  lemma PercentagesBounded(area: Area, i: int)
    requires Additive(area) && NonNegative(area)
    requires area(DomainLo, DomainHi) != 0.0
    requires 0 <= i < |Segments|
    ensures Percentages(area).Success?
    ensures 0.0 <= Percentages(area).value[i].percentage <= 100.0
  {
    var total := area(DomainLo, DomainHi);
    var lo, hi := Segments[i].lo, Segments[i].hi;
    var p := Percentages(area).value[i].percentage;
    assert p * total == 100.0 * area(lo, hi);
    assert DomainLo <= lo <= hi <= DomainHi;
    BandWithinTotal(area, lo, hi);
    PercentOfPart(p, area(lo, hi), total);
  }
}
