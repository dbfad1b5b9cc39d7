/** `sort_values(by='Correlación', ascending=False).head(20)`: the tagged long
    form ordered by non-increasing absolute correlation, at most twenty rows. */
module Ranking {
  import opened Survey
  import opened Correlation

  /** Non-increasing by correlation. */
  predicate SortedDesc(es: seq<Entry>)
  {
    forall i, j :: 0 <= i < j < |es| ==> es[i].corr >= es[j].corr
  }

  /** Prepending an entry no smaller than any of a sorted list keeps it sorted. */
  lemma SortedCons(x: Entry, s: seq<Entry>)
    requires SortedDesc(s)
    requires forall y :: y in s ==> x.corr >= y.corr
    ensures SortedDesc([x] + s)
  {
  }

  /** The head of a sorted list is its largest entry. */
  lemma SortedHead(s: seq<Entry>)
    requires SortedDesc(s) && |s| > 0
    ensures forall y :: y in s ==> s[0].corr >= y.corr
  {
  }

  /** Places `e` in a sorted list, ahead of the first entry not above it. */
  function Insert(e: Entry, es: seq<Entry>): (r: seq<Entry>)
    requires SortedDesc(es)
    ensures |r| == |es| + 1
    ensures SortedDesc(r)
    ensures multiset(r) == multiset(es) + multiset{e}
  {
    if es == [] then
      [e]
    else if e.corr >= es[0].corr then
      SortedHead(es);
      SortedCons(e, es);
      [e] + es
    else
      var tail := es[1..];
      assert es == [es[0]] + tail;
      var rest := Insert(e, tail);
      SortedHead(es);
      forall x | x in rest
        ensures es[0].corr >= x.corr
      {
        assert x in multiset(rest);
        if x != e {
          assert x in multiset(tail);
          assert x in es;
        }
      }
      SortedCons(es[0], rest);
      [es[0]] + rest
  }

  /** Sorts by non-increasing correlation (one fixed order among ties). */
  function SortDesc(es: seq<Entry>): (r: seq<Entry>)
    ensures |r| == |es|
    ensures SortedDesc(r)
    ensures multiset(r) == multiset(es)
  {
    if es == [] then []
    else
      assert es == [es[0]] + es[1..];
      Insert(es[0], SortDesc(es[1..]))
  }

  /** The smaller of two integers. */
  function Min(a: int, b: int): int
  {
    if a <= b then a else b
  }

  /** `head(n)` of the sorted list. */
  function TopN(es: seq<Entry>, n: nat): (r: seq<Entry>)
    ensures |r| == Min(n, |es|)
    ensures SortedDesc(r)
    ensures multiset(r) <= multiset(es)
    ensures n >= |es| ==> multiset(r) == multiset(es)
  {
    var sorted := SortDesc(es);
    var k := Min(n, |es|);
    assert sorted == sorted[..k] + sorted[k..];
    sorted[..k]
  }

  /** In a sorted list nothing after position k is above anything before it. */
  lemma PrefixKeepsLargest(sorted: seq<Entry>, k: nat, x: Entry, y: Entry)
    requires SortedDesc(sorted) && k <= |sorted|
    requires x in sorted[k..] && y in sorted[..k]
    ensures x.corr <= y.corr
  {
    var i :| 0 <= i < |sorted[k..]| && sorted[k..][i] == x;
    var j :| 0 <= j < k && sorted[..k][j] == y;
    assert sorted[k + i] == x && sorted[j] == y;
  }

  /** Nothing left out of the top `n` ranks above anything kept. */
  lemma {:induction false} TopNKeepsLargest(es: seq<Entry>, n: nat, x: Entry, y: Entry)
    requires x in multiset(es) - multiset(TopN(es, n))
    requires y in TopN(es, n)
    ensures x.corr <= y.corr
  {
    var sorted := SortDesc(es);
    var k := Min(n, |es|);
    var top, low := sorted[..k], sorted[k..];
    assert TopN(es, n) == top;
    assert multiset(es) == multiset(top) + multiset(low) by {
      assert sorted == top + low;
    }
    assert x in multiset(low);
    PrefixKeepsLargest(sorted, k, x, y);
  }

  /** How many rows the ranked table keeps: `head(20)`. */
  const RowLimit: nat := 20

  /** Tag, sort and keep the first rows of a long form (corrected polarity). */
  function Rank(ps: seq<Pair>): (r: seq<Entry>)
    ensures |r| == Min(RowLimit, |ps|)
    ensures SortedDesc(r)
    ensures multiset(r) <= multiset(TagAll(ps))
    ensures |ps| <= RowLimit ==> multiset(r) == multiset(TagAll(ps))
  {
    TopN(TagAll(ps), RowLimit)
  }

  /** Tag, sort and keep the first rows of a long form, as the script does. */
  function RankAsWritten(ps: seq<Pair>): (r: seq<Entry>)
    ensures |r| == Min(RowLimit, |ps|)
    ensures SortedDesc(r)
    ensures multiset(r) <= multiset(TagAllAsWritten(ps))
    ensures |ps| <= RowLimit ==> multiset(r) == multiset(TagAllAsWritten(ps))
  {
    TopN(TagAllAsWritten(ps), RowLimit)
  }

  /** Each tagged entry comes from a pair of the long form. */
  lemma TaggedFrom(ps: seq<Pair>, e: Entry)
    requires e in TagAll(ps)
    ensures exists p :: p in ps && e == Tag(p)
  {
    var i :| 0 <= i < |ps| && TagAll(ps)[i] == e;
    assert ps[i] in ps;
  }

  /** Each pair of the long form has its tagged entry. */
  lemma TaggedTo(ps: seq<Pair>, p: Pair)
    requires p in ps
    ensures Tag(p) in TagAll(ps)
  {
    var i :| 0 <= i < |ps| && ps[i] == p;
    assert TagAll(ps)[i] == Tag(p);
  }

  /** Every ranked entry reports the absolute value of a defined cell of the
      block, with the polarity of its sign. */
  lemma RankedEntriesSound(m: Matrix)
    ensures forall e :: e in Rank(LongForm(m)) ==>
              e.demo in Demographics && e.test in TestResults &&
              m(e.demo, e.test).Value? && e.corr >= 0.0 && e.corr == Abs(m(e.demo, e.test).r) &&
              (e.polarity == Plus <==> m(e.demo, e.test).r > 0.0)
  {
    var long := LongForm(m);
    forall e | e in Rank(long)
      ensures e.demo in Demographics && e.test in TestResults
      ensures m(e.demo, e.test).Value? && e.corr >= 0.0 && e.corr == Abs(m(e.demo, e.test).r)
      ensures e.polarity == Plus <==> m(e.demo, e.test).r > 0.0
    {
      assert e in multiset(Rank(long));
      TaggedFrom(long, e);
    }
  }

  /** Every defined cell of the block is ranked. */
  lemma RankedEntriesComplete(m: Matrix)
    ensures forall d, t :: d in Demographics && t in TestResults && m(d, t).Value? ==>
              Tag(Pair(d, t, m(d, t).r)) in Rank(LongForm(m))
  {
    var long := LongForm(m);
    forall d, t | d in Demographics && t in TestResults && m(d, t).Value?
      ensures Tag(Pair(d, t, m(d, t).r)) in Rank(long)
    {
      TaggedTo(long, Pair(d, t, m(d, t).r));
      assert Tag(Pair(d, t, m(d, t).r)) in multiset(Rank(long));
    }
  }

  /** The ranked table (with the corrected polarity). The long form has at
      most 12 rows, so `head(20)` drops nothing. */
  function Top20(m: Matrix): (r: seq<Entry>)
    ensures forall e :: e in r ==>
              e.demo in Demographics && e.test in TestResults &&
              m(e.demo, e.test).Value? && e.corr >= 0.0 && e.corr == Abs(m(e.demo, e.test).r) &&
              (e.polarity == Plus <==> m(e.demo, e.test).r > 0.0)
    ensures forall d, t :: d in Demographics && t in TestResults && m(d, t).Value? ==>
              Tag(Pair(d, t, m(d, t).r)) in r
    ensures SortedDesc(r)
    ensures multiset(r) == multiset(TagAll(LongForm(m)))
  {
    RankedEntriesSound(m);
    RankedEntriesComplete(m);
    Rank(LongForm(m))
  }

  /** The ranked table exactly as the script computes it: the same rows,
      but every non-zero correlation is tagged '+'. */
  function Top20AsWritten(m: Matrix): (r: seq<Entry>)
    ensures forall e :: e in r ==>
              e.demo in Demographics && e.test in TestResults &&
              m(e.demo, e.test).Value? && e.corr == Abs(m(e.demo, e.test).r) &&
              (e.polarity == Plus <==> e.corr != 0.0)
    ensures SortedDesc(r)
    ensures multiset(r) == multiset(TagAllAsWritten(LongForm(m)))
  {
    var long := LongForm(m);
    var r := RankAsWritten(long);
    forall e | e in r
      ensures e.demo in Demographics && e.test in TestResults
      ensures m(e.demo, e.test).Value? && e.corr == Abs(m(e.demo, e.test).r)
      ensures e.polarity == Plus <==> e.corr != 0.0
    {
      assert e in multiset(r);
      var i :| 0 <= i < |long| && TagAllAsWritten(long)[i] == e;
      assert long[i] in long;
    }
    r
  }

  /** Re-deriving polarities keeps the values, so sortedness too. */
  lemma RetagAllSorted(es: seq<Entry>)
    requires SortedDesc(es)
    ensures SortedDesc(RetagAll(es))
  {
  }

  /** Re-deriving polarities distributes over concatenation. */
  lemma RetagAllConcat(a: seq<Entry>, b: seq<Entry>)
    ensures RetagAll(a + b) == RetagAll(a) + RetagAll(b)
  {
  }

  /** Re-deriving polarities commutes with inserting. */
  lemma {:induction false} InsertRetag(e: Entry, es: seq<Entry>)
    requires SortedDesc(es)
    ensures SortedDesc(RetagAll(es))
    ensures Insert(Retag(e), RetagAll(es)) == RetagAll(Insert(e, es))
  {
    RetagAllSorted(es);
    if es == [] || e.corr >= es[0].corr {
      RetagAllConcat([e], es);
    } else {
      InsertRetag(e, es[1..]);
      assert RetagAll(es)[1..] == RetagAll(es[1..]);
      RetagAllConcat([es[0]], Insert(e, es[1..]));
    }
  }

  /** Re-deriving polarities commutes with sorting. */
  lemma {:induction false} SortRetag(es: seq<Entry>)
    ensures SortDesc(RetagAll(es)) == RetagAll(SortDesc(es))
  {
    if es != [] {
      SortRetag(es[1..]);
      assert RetagAll(es)[1..] == RetagAll(es[1..]);
      InsertRetag(es[0], SortDesc(es[1..]));
    }
  }

  /** Re-deriving polarities commutes with taking a prefix. */
  lemma RetagAllPrefix(es: seq<Entry>, k: nat)
    requires k <= |es|
    ensures RetagAll(es)[..k] == RetagAll(es[..k])
  {
  }

  /** The script's ranking is the corrected one with each polarity
      re-derived from the absolute value: same rows, same order, same values. */
  lemma {:induction false} RankAsWrittenIsRetagged(ps: seq<Pair>)
    ensures RankAsWritten(ps) == RetagAll(Rank(ps))
  {
    var tagged := TagAll(ps);
    var sorted := SortDesc(tagged);
    var k := Min(RowLimit, |ps|);
    assert Rank(ps) == sorted[..k];
    RetagAllOfTagAll(ps);
    SortRetag(tagged);
    assert RankAsWritten(ps) == RetagAll(sorted)[..k];
    RetagAllPrefix(sorted, k);
  }
}
