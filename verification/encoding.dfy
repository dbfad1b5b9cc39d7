/** One-hot encoding of the normalised gender (`pd.get_dummies`) and the
    selection of the seven analysed columns, which raises a KeyError when an
    indicator column was never created. */
module Encoding {
  import opened Wrappers
  import opened Survey
  import Gender

  /** The gender column after lower-casing and replacement. */
  function NormalizeRecords(rs: seq<Record>): (out: seq<Record>)
    ensures |out| == |rs|
    ensures forall i :: 0 <= i < |rs| ==>
              out[i].genero == Gender.NormalizeCell(rs[i].genero) &&
              out[i] == rs[i].(genero := out[i].genero)
  {
    seq(|rs|, i requires 0 <= i < |rs| => rs[i].(genero := Gender.NormalizeCell(rs[i].genero)))
  }

  /** The name get_dummies gives the indicator column of one category. */
  function DummyLabel(category: string): string
  {
    "Genero_" + category
  }

  /** Indicator columns are told apart by their category. */
  lemma DummyLabelInjective(a: string, b: string)
    requires DummyLabel(a) == DummyLabel(b)
    ensures a == b
  {
    assert a == DummyLabel(a)[7..];
    assert b == DummyLabel(b)[7..];
  }

  /** The indicator columns get_dummies creates: one per category present;
      a missing cell creates none. */
  function DummyColumns(rs: seq<Record>): set<string>
  {
    set i | 0 <= i < |rs| && rs[i].genero.Some? :: DummyLabel(rs[i].genero.value)
  }

  /** Some record carries this category. */
  predicate Occurs(rs: seq<Record>, category: string)
  {
    exists i :: 0 <= i < |rs| && rs[i].genero == Some(category)
  }

  /** The indicator column of a category exists exactly when the category occurs. */
  lemma {:induction false} DummyColumnExists(rs: seq<Record>, category: string)
    ensures DummyLabel(category) in DummyColumns(rs) <==> Occurs(rs, category)
  {
    if DummyLabel(category) in DummyColumns(rs) {
      var i :| 0 <= i < |rs| && rs[i].genero.Some? && DummyLabel(rs[i].genero.value) == DummyLabel(category);
      DummyLabelInjective(rs[i].genero.value, category);
    }
    if Occurs(rs, category) {
      var i :| 0 <= i < |rs| && rs[i].genero == Some(category);
      assert DummyLabel(rs[i].genero.value) in DummyColumns(rs);
    }
  }

  /** The 0/1 value of a record in the indicator column of a category. */
  function Indicator(r: Record, category: string): (b: nat)
    ensures b <= 1
    ensures b == 1 <==> r.genero == Some(category)
  {
    if r.genero == Some(category) then 1 else 0
  }

  /** A row of the selected frame, columns in selection order. */
  datatype Row = Row(
    edad: int,
    masculino: nat,
    femenino: nat,
    total: real,
    amf: real,
    rfc: real,
    rpd: real)

  /** Indexing the frame by labels it lacks; the missing labels in request order. */
  datatype KeyError = KeyError(missing: seq<string>)

  /** `df_dummies[datos_demograficos + resultados_test]` on the normalised records. */
  function Select(rs: seq<Record>): (r: Result<seq<Row>, KeyError>)
    ensures r.Success? <==> Occurs(rs, Gender.Masculino) && Occurs(rs, Gender.Femenino)
    ensures r.Failure? ==>
              (Label(GeneroMasculino) in r.error.missing <==> !Occurs(rs, Gender.Masculino)) &&
              (Label(GeneroFemenino) in r.error.missing <==> !Occurs(rs, Gender.Femenino))
    ensures r.Failure? ==>
              |r.error.missing| <= 2 &&
              forall k :: 0 <= k < |r.error.missing| ==>
                r.error.missing[k] in [Label(GeneroMasculino), Label(GeneroFemenino)] &&
                forall j :: k < j < |r.error.missing| ==> r.error.missing[j] != r.error.missing[k]
    ensures r.Success? ==> |r.value| == |rs| && forall i :: 0 <= i < |rs| ==>
              var row := r.value[i];
              row.masculino + row.femenino <= 1 &&
              (row.masculino == 1 <==> rs[i].genero == Some(Gender.Masculino)) &&
              (row.femenino == 1 <==> rs[i].genero == Some(Gender.Femenino)) &&
              row.edad == rs[i].edad && row.total == rs[i].total &&
              row.amf == rs[i].amf && row.rfc == rs[i].rfc && row.rpd == rs[i].rpd
  {
    DummyColumnExists(rs, Gender.Masculino);
    DummyColumnExists(rs, Gender.Femenino);
    assert Label(GeneroMasculino) == DummyLabel(Gender.Masculino);
    assert Label(GeneroFemenino) == DummyLabel(Gender.Femenino);
    // Edad and the four scores are always columns; only an indicator can be absent.
    var missing :=
      (if Label(GeneroMasculino) in DummyColumns(rs) then [] else [Label(GeneroMasculino)]) +
      (if Label(GeneroFemenino) in DummyColumns(rs) then [] else [Label(GeneroFemenino)]);
    if missing != [] then Failure(KeyError(missing))
    else
      Success(seq(|rs|, i requires 0 <= i < |rs| =>
        Row(rs[i].edad,
            Indicator(rs[i], Gender.Masculino),
            Indicator(rs[i], Gender.Femenino),
            rs[i].total, rs[i].amf, rs[i].rfc, rs[i].rpd)))
  }

  /** The encoding step as a whole, from raw records. */
  function Encode(raw: seq<Record>): (r: Result<seq<Row>, KeyError>)
    ensures r.Failure? ==>
              1 <= |r.error.missing| <= 2 &&
              forall k :: 0 <= k < |r.error.missing| ==>
                r.error.missing[k] in [Label(GeneroMasculino), Label(GeneroFemenino)]
    ensures r.Success? ==> |r.value| == |raw| && forall i :: 0 <= i < |raw| ==>
              r.value[i].masculino + r.value[i].femenino <= 1 &&
              r.value[i].edad == raw[i].edad && r.value[i].total == raw[i].total &&
              r.value[i].amf == raw[i].amf && r.value[i].rfc == raw[i].rfc && r.value[i].rpd == raw[i].rpd
  {
    Select(NormalizeRecords(raw))
  }

  /** A raw label is read as a category exactly when its lower-cased form is
      one of that category's keys. */
  predicate RawIs(g: Option<string>, keys: set<string>)
  {
    g.Some? && Gender.Lower(g.value) in keys
  }

  /** In terms of the raw data, the selection succeeds exactly when some raw
      label is a male key and some raw label is a female key. */
  lemma EncodeSucceedsFromRaw(raw: seq<Record>)
    ensures Encode(raw).Success? <==>
              (exists i :: 0 <= i < |raw| && RawIs(raw[i].genero, Gender.MasculinoKeys)) &&
              (exists i :: 0 <= i < |raw| && RawIs(raw[i].genero, Gender.FemeninoKeys))
  {
  }

  /** Each record's indicators are 1 exactly for the group its raw label
      belongs to, so they sum to 1 for labels of the table and to 0 for
      every other label, missing ones included. */
  lemma EncodeIndicatorsFromRaw(raw: seq<Record>, i: int)
    requires Encode(raw).Success?
    requires 0 <= i < |raw|
    ensures |Encode(raw).value| == |raw|
    ensures var row := Encode(raw).value[i];
              (row.masculino == 1 <==> RawIs(raw[i].genero, Gender.MasculinoKeys)) &&
              (row.femenino == 1 <==> RawIs(raw[i].genero, Gender.FemeninoKeys)) &&
              (row.masculino + row.femenino == 1 <==> RawIs(raw[i].genero, Gender.Mapping.Keys))
  {
  }

  /** An empty sequence of typed records has no indicator columns, so the selection fails. */
  lemma EmptyDataFails()
    ensures Encode([]) == Failure(KeyError([Label(GeneroMasculino), Label(GeneroFemenino)]))
  {
    var rs := NormalizeRecords([]);
    assert rs == [];
    assert DummyColumns(rs) == {};
    assert Label(GeneroMasculino) !in DummyColumns(rs);
    assert Label(GeneroFemenino) !in DummyColumns(rs);
    assert [Label(GeneroMasculino)] + [Label(GeneroFemenino)] == [Label(GeneroMasculino), Label(GeneroFemenino)];
  }
}
