/** The contribution of each subscale: its mean as a percentage of the mean
    total score, `mean(sub) / mean(Total) * 100`, with the division left
    unguarded as numpy floats leave it. */
module Contribution {
  import opened Survey

  /** A double-precision value: finite ones as reals, plus the two infinities and NaN. */
  datatype Float = Finite(x: real) | PosInf | NegInf | NaN

  /** Sum of a column of finite values. */
  function Sum(xs: seq<real>): real
  {
    if xs == [] then 0.0 else xs[0] + Sum(xs[1..])
  }

  /** The column mean; pandas gives NaN for an empty column. */
  function Mean(xs: seq<real>): (r: Float)
    ensures r == NaN <==> |xs| == 0
    ensures |xs| > 0 ==> r.Finite? && r.x * |xs| as real == Sum(xs)
  {
    if |xs| == 0 then NaN else Finite(Sum(xs) / |xs| as real)
  }

  /** IEEE division (signed zeros not distinguished): a non-zero finite value
      over zero is an infinity of its sign, zero over zero is NaN, and NaN
      propagates. */
  function Divide(a: Float, b: Float): (r: Float)
    ensures a == NaN || b == NaN ==> r == NaN
    ensures a.Finite? && b.Finite? && b.x != 0.0 ==> r.Finite? && r.x * b.x == a.x
    ensures a.Finite? && b.Finite? && b.x == 0.0 ==>
              (a.x > 0.0 <==> r == PosInf) && (a.x < 0.0 <==> r == NegInf) && (a.x == 0.0 <==> r == NaN)
  {
    match (a, b)
    case (NaN, _) => NaN
    case (_, NaN) => NaN
    case (Finite(x), Finite(y)) =>
      if y != 0.0 then Finite(x / y)
      else if x > 0.0 then PosInf
      else if x < 0.0 then NegInf
      else NaN
    case (Finite(_), _) => Finite(0.0)
    case (PosInf, Finite(y)) => if y >= 0.0 then PosInf else NegInf
    case (NegInf, Finite(y)) => if y >= 0.0 then NegInf else PosInf
    case (_, _) => NaN
  }

  /** Multiplication by 100: finite values scale, the others are unchanged. */
  function Times100(a: Float): (r: Float)
    ensures r.Finite? <==> a.Finite?
    ensures a.Finite? ==> r.x == 100.0 * a.x
    ensures !a.Finite? ==> r == a
  {
    match a
    case Finite(x) => Finite(x * 100.0)
    case _ => a
  }

  /** One score column of the records. */
  function Scores(rs: seq<Record>, c: Column): (xs: seq<real>)
    requires c in TestResults
    ensures |xs| == |rs|
    ensures forall i :: 0 <= i < |rs| ==> xs[i] == Score(rs[i], c)
  {
    seq(|rs|, i requires 0 <= i < |rs| => Score(rs[i], c))
  }

  /** One entry of `porcentajes`. */
  datatype Contribution = Contribution(name: string, subscale: Column, percentage: Float)

  /** `promedios`, in insertion order: AMF, RPD, RFC. */
  const Subscales: seq<(string, Column)> := [
    ("Agotamiento mental y físico", AMF),
    ("Realización personal y despersonalización", RPD),
    ("Respuestas Cognitivas y Conductuales", RFC)
  ]

  /** `(mean(sub) / mean(Total)) * 100`. */
  function Ratio(rs: seq<Record>, c: Column): (r: Float)
    requires c in TestResults
    ensures |rs| == 0 ==> r == NaN
    ensures |rs| > 0 && Sum(Scores(rs, Total)) != 0.0 ==>
              r.Finite? && r.x == 100.0 * Sum(Scores(rs, c)) / Sum(Scores(rs, Total))
    ensures |rs| > 0 && Sum(Scores(rs, Total)) == 0.0 ==>
              (r == PosInf <==> Sum(Scores(rs, c)) > 0.0) &&
              (r == NegInf <==> Sum(Scores(rs, c)) < 0.0) &&
              (r == NaN <==> Sum(Scores(rs, c)) == 0.0)
  {
    var m, mt := Mean(Scores(rs, c)), Mean(Scores(rs, Total));
    var q := Divide(m, mt);
    if |rs| > 0 then
      MeansScale(m.x, mt.x, q, |rs| as real, Sum(Scores(rs, c)), Sum(Scores(rs, Total)));
      Times100(q)
    else
      Times100(q)
  }

  /** Means of equally long columns relate as their sums do: the mean total is
      zero exactly when the summed total is, the mean has the sign of its sum,
      and a finite quotient of means is the quotient of sums. */
  lemma MeansScale(m: real, mt: real, q: Float, n: real, s: real, t: real)
    requires n > 0.0 && m * n == s && mt * n == t
    requires mt != 0.0 ==> q.Finite? && q.x * mt == m
    ensures mt == 0.0 <==> t == 0.0
    ensures (m > 0.0 <==> s > 0.0) && (m < 0.0 <==> s < 0.0)
    ensures mt != 0.0 ==> q.x * t == s && 100.0 * q.x == 100.0 * s / t
  {
    if mt != 0.0 {
      calc {
        q.x * t;
        q.x * (mt * n);
        (q.x * mt) * n;
        s;
      }
      Quotient(100.0 * q.x, s, t);
    }
  }

  /** Solving `x * t == 100 * s` for `x`. */
  lemma Quotient(x: real, s: real, t: real)
    requires t != 0.0 && x * t == 100.0 * s
    ensures x == 100.0 * s / t
  {
  }

  /** `porcentajes`: three entries, AMF, RPD and RFC in that order, each the
      unguarded ratio of its mean to the mean total. */
  function Contributions(rs: seq<Record>): (r: seq<Contribution>)
    ensures |r| == 3
    ensures r[0].subscale == AMF && r[1].subscale == RPD && r[2].subscale == RFC
    ensures forall i :: 0 <= i < 3 ==> r[i].name == Subscales[i].0 && r[i].percentage == Ratio(rs, r[i].subscale)
  {
    [Contribution(Subscales[0].0, AMF, Ratio(rs, AMF)),
     Contribution(Subscales[1].0, RPD, Ratio(rs, RPD)),
     Contribution(Subscales[2].0, RFC, Ratio(rs, RFC))]
  }

  /** Shares of a sum that add back to the sum add up to 100. */
  lemma SharesOfWhole(r: seq<Contribution>, sa: real, sp: real, sf: real, t: real)
    requires |r| == 3 && t != 0.0 && t == sa + sp + sf
    requires r[0].percentage.Finite? && r[0].percentage.x == 100.0 * sa / t
    requires r[1].percentage.Finite? && r[1].percentage.x == 100.0 * sp / t
    requires r[2].percentage.Finite? && r[2].percentage.x == 100.0 * sf / t
    ensures r[0].percentage.x + r[1].percentage.x + r[2].percentage.x == 100.0
  {
  }

  /** When every total is the sum of its subscales, so is the summed total. */
  lemma {:induction false} SumOfSubscales(rs: seq<Record>)
    requires forall i :: 0 <= i < |rs| ==> rs[i].total == rs[i].amf + rs[i].rfc + rs[i].rpd
    ensures Sum(Scores(rs, Total)) == Sum(Scores(rs, AMF)) + Sum(Scores(rs, RFC)) + Sum(Scores(rs, RPD))
  {
    if rs != [] {
      SumOfSubscales(rs[1..]);
      assert Scores(rs, Total)[1..] == Scores(rs[1..], Total);
      assert Scores(rs, AMF)[1..] == Scores(rs[1..], AMF);
      assert Scores(rs, RFC)[1..] == Scores(rs[1..], RFC);
      assert Scores(rs, RPD)[1..] == Scores(rs[1..], RPD);
    }
  }

  /** When the summed total is the sum of the summed subscales and is not
      zero, the three contributions add up to 100. */
  lemma {:induction false} ContributionsOfWhole(rs: seq<Record>)
    requires |rs| > 0
    requires Sum(Scores(rs, Total)) != 0.0
    requires Sum(Scores(rs, Total)) == Sum(Scores(rs, AMF)) + Sum(Scores(rs, RFC)) + Sum(Scores(rs, RPD))
    ensures var r := Contributions(rs);
              r[0].percentage.Finite? && r[1].percentage.Finite? && r[2].percentage.Finite? &&
              r[0].percentage.x + r[1].percentage.x + r[2].percentage.x == 100.0
  {
    var r := Contributions(rs);
    SharesOfWhole(r, Sum(Scores(rs, AMF)), Sum(Scores(rs, RPD)), Sum(Scores(rs, RFC)), Sum(Scores(rs, Total)));
  }

  /** With every total the sum of its subscales and a non-zero mean total,
      the three contributions add up to 100. */
  lemma {:induction false} ContributionsSumTo100(rs: seq<Record>)
    requires |rs| > 0
    requires Sum(Scores(rs, Total)) != 0.0
    requires forall i :: 0 <= i < |rs| ==> rs[i].total == rs[i].amf + rs[i].rfc + rs[i].rpd
    ensures var r := Contributions(rs);
              r[0].percentage.Finite? && r[1].percentage.Finite? && r[2].percentage.Finite? &&
              r[0].percentage.x + r[1].percentage.x + r[2].percentage.x == 100.0
  {
    SumOfSubscales(rs);
    ContributionsOfWhole(rs);
  }

  /** Two respondents with totals 40 and 20 and AMF scores 20 and 5: the
      AMF contribution is 12.5 / 30 * 100, about 41.67. */
  lemma TwoRecordExample()
    ensures var rs := [
                Record(25, Wrappers.Some("Hombre"), 40.0, 20.0, 10.0, 10.0),
                Record(30, Wrappers.Some("femenino "), 20.0, 5.0, 5.0, 10.0)];
            Contributions(rs)[0].percentage == Finite(125.0 / 3.0)
  {
  }
}
