/** The long form of the demographics-by-test block of a correlation matrix:
    `corr_matrix.loc[...].stack()`, absolute values and a polarity tag. The
    matrix itself (Pearson correlation) is an input. */
module Correlation {
  import opened Survey

  /** One matrix cell: a correlation, or undefined (NaN) when a column has no variance. */
  datatype Cell = Value(r: real) | Undefined

  /** A correlation matrix over the seven selected columns. */
  type Matrix = (Column, Column) -> Cell

  /** A stacked cell: row label, column label and signed correlation. */
  datatype Pair = Pair(demo: Column, test: Column, corr: real)

  /** `p` comes before `q` in row-major order of the frame's columns. */
  predicate Before(p: Pair, q: Pair)
  {
    Position(p.demo) < Position(q.demo) ||
    (p.demo == q.demo && Position(p.test) < Position(q.test))
  }

  /** Labels listed in frame order, without repetition. */
  predicate InFrameOrder(cs: seq<Column>)
  {
    forall i, j :: 0 <= i < j < |cs| ==> Position(cs[i]) < Position(cs[j])
  }

  /** Pairs listed in row-major order, so no (row, column) occurs twice. */
  predicate RowMajor(ps: seq<Pair>)
  {
    forall i, j :: 0 <= i < j < |ps| ==> Before(ps[i], ps[j])
  }

  /** Concatenating two row-major runs, the first wholly before the second. */
  lemma RowMajorConcat(a: seq<Pair>, b: seq<Pair>)
    requires RowMajor(a) && RowMajor(b)
    requires forall p, q :: p in a && q in b ==> Before(p, q)
    ensures RowMajor(a + b)
  {
  }

  /** The defined cells of one matrix row, restricted to the columns `ts`. */
  function StackRow(m: Matrix, d: Column, ts: seq<Column>): (r: seq<Pair>)
    requires InFrameOrder(ts)
    ensures |r| <= |ts|
    ensures forall p :: p in r <==> p.demo == d && p.test in ts && m(d, p.test) == Value(p.corr)
    ensures RowMajor(r)
    decreases |ts|
  {
    if ts == [] then []
    else
      var rest := StackRow(m, d, ts[1..]);
      var cell := m(d, ts[0]);
      if cell.Value? then
        forall q | q in rest
          ensures Before(Pair(d, ts[0], cell.r), q)
        {
          var k :| 0 <= k < |ts[1..]| && ts[1..][k] == q.test;
          assert ts[k + 1] == q.test;
        }
        RowMajorConcat([Pair(d, ts[0], cell.r)], rest);
        [Pair(d, ts[0], cell.r)] + rest
      else rest
  }

  /** `DataFrame.stack()`: the defined cells of rows `ds` and columns `ts`,
      row by row; undefined cells are dropped. */
  function Stack(m: Matrix, ds: seq<Column>, ts: seq<Column>): (r: seq<Pair>)
    requires InFrameOrder(ds) && InFrameOrder(ts)
    ensures |r| <= |ds| * |ts|
    ensures forall p :: p in r <==> p.demo in ds && p.test in ts && m(p.demo, p.test) == Value(p.corr)
    ensures RowMajor(r)
    decreases |ds|
  {
    if ds == [] then []
    else
      var row := StackRow(m, ds[0], ts);
      var rest := Stack(m, ds[1..], ts);
      forall p, q | p in row && q in rest
        ensures Before(p, q)
      {
        var k :| 0 <= k < |ds[1..]| && ds[1..][k] == q.demo;
        assert ds[k + 1] == q.demo;
      }
      RowMajorConcat(row, rest);
      assert |row| + |rest| <= |ts| + (|ds| - 1) * |ts| == |ds| * |ts|;
      row + rest
  }

  /** `corr_filtrada.stack()`: the demographics-by-test block in long form. */
  function LongForm(m: Matrix): (r: seq<Pair>)
    ensures |r| <= 12
    ensures forall p :: p in r <==> p.demo in Demographics && p.test in TestResults && m(p.demo, p.test) == Value(p.corr)
    ensures forall p :: p in r ==> p.demo != p.test && !(p.demo == GeneroMasculino && p.test == GeneroFemenino)
    ensures RowMajor(r)
  {
    Stack(m, Demographics, TestResults)
  }

  /** With every cell undefined (fewer than two records) the long form is empty. */
  lemma UndefinedMatrixStacksEmpty(m: Matrix)
    requires forall a, b :: m(a, b) == Undefined
    ensures LongForm(m) == []
  {
  }

  /** The polarity column: '+' or '-'. */
  datatype Polarity = Plus | Minus

  /** A row of `corr_larga` after the absolute value and the polarity column. */
  datatype Entry = Entry(demo: Column, test: Column, corr: real, polarity: Polarity)

  /** Absolute value, as `abs()` on a correlation. */
  function Abs(x: real): real
  {
    if x < 0.0 then -x else x
  }

  /** The polarity rule `'+' if x > 0 else '-'`. */
  function PolarityOf(x: real): Polarity
  {
    if x > 0.0 then Plus else Minus
  }

  /** As written: the absolute value replaces the correlation first, and the
      polarity is then computed from that absolute value. */
  function TagAsWritten(p: Pair): (e: Entry)
    ensures e.demo == p.demo && e.test == p.test
    ensures e.corr >= 0.0 && (e.corr == p.corr || e.corr == -p.corr)
    ensures e.polarity == Plus <==> p.corr != 0.0
  {
    var a := Abs(p.corr);
    Entry(p.demo, p.test, a, PolarityOf(a))
  }

  /** Corrected: the polarity is taken from the signed correlation, before
      the absolute value replaces it. */
  function Tag(p: Pair): (e: Entry)
    ensures e.demo == p.demo && e.test == p.test
    ensures e.corr >= 0.0 && (e.corr == p.corr || e.corr == -p.corr)
    ensures e.polarity == Plus <==> p.corr > 0.0
  {
    Entry(p.demo, p.test, Abs(p.corr), PolarityOf(p.corr))
  }

  /** The as-written polarity is '+' for every non-zero correlation, so a
      negative correlation is reported as positive. */
  lemma AsWrittenLosesSign()
    ensures TagAsWritten(Pair(Edad, Total, -0.5 as real)) == Entry(Edad, Total, 0.5, Plus)
    ensures Tag(Pair(Edad, Total, -0.5 as real)) == Entry(Edad, Total, 0.5, Minus)
  {
  }

  /** Re-deriving the polarity from the stored absolute value turns a
      corrected entry into the as-written one. */
  function Retag(e: Entry): (e': Entry)
    ensures e'.demo == e.demo && e'.test == e.test && e'.corr == e.corr
  {
    e.(polarity := PolarityOf(e.corr))
  }

  /** Re-deriving the polarity of a corrected entry gives the as-written one. */
  lemma RetagOfTag(p: Pair)
    ensures Retag(Tag(p)) == TagAsWritten(p)
  {
  }

  /** Tags every pair, keeping the order. */
  function TagAll(ps: seq<Pair>): (es: seq<Entry>)
    ensures |es| == |ps|
    ensures forall i :: 0 <= i < |ps| ==> es[i] == Tag(ps[i])
  {
    if ps == [] then [] else [Tag(ps[0])] + TagAll(ps[1..])
  }

  /** Tags every pair the way the script does, keeping the order. */
  function TagAllAsWritten(ps: seq<Pair>): (es: seq<Entry>)
    ensures |es| == |ps|
    ensures forall i :: 0 <= i < |ps| ==> es[i] == TagAsWritten(ps[i])
  {
    if ps == [] then [] else [TagAsWritten(ps[0])] + TagAllAsWritten(ps[1..])
  }

  /** Re-derives the polarity of every entry. */
  function RetagAll(es: seq<Entry>): (rs: seq<Entry>)
    ensures |rs| == |es|
    ensures forall i :: 0 <= i < |es| ==> rs[i] == Retag(es[i])
  {
    if es == [] then [] else [Retag(es[0])] + RetagAll(es[1..])
  }

  /** The same, entry by entry, for a whole long form. */
  lemma RetagAllOfTagAll(ps: seq<Pair>)
    ensures RetagAll(TagAll(ps)) == TagAllAsWritten(ps)
  {
  }
}
