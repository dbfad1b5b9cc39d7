/** The survey table as the script sees it after loading: one record per
    respondent, and the labels of the seven columns the analysis selects. */
module Survey {
  import opened Wrappers

  /** One respondent. `genero` is None where the cell is NaN or not text;
      `.str.lower()` makes the latter NaN too, and `replace` and
      `get_dummies` skip NaN. */
  datatype Record = Record(
    edad: int,
    genero: Option<string>,
    total: real,
    amf: real,
    rfc: real,
    rpd: real)

  /** The columns of the analysed frame, in the order they are selected. */
  datatype Column = Edad | GeneroMasculino | GeneroFemenino | Total | AMF | RFC | RPD

  /** The column label as it appears in the data frame. */
  function Label(c: Column): string
  {
    match c
    case Edad => "Edad"
    case GeneroMasculino => "Genero_Masculino"
    case GeneroFemenino => "Genero_Femenino"
    case Total => "Total"
    case AMF => "AMF"
    case RFC => "RFC"
    case RPD => "RPD"
  }

  /** Position of a column in the selected frame (and so in the correlation matrix). */
  function Position(c: Column): nat
  {
    match c
    case Edad => 0
    case GeneroMasculino => 1
    case GeneroFemenino => 2
    case Total => 3
    case AMF => 4
    case RFC => 5
    case RPD => 6
  }

  /** `datos_demograficos`: the demographic columns. */
  const Demographics: seq<Column> := [Edad, GeneroMasculino, GeneroFemenino]

  /** `resultados_test`: the total score and the three subscales. */
  const TestResults: seq<Column> := [Total, AMF, RFC, RPD]

  /** The seven selected columns: demographics followed by test results. */
  const Selected: seq<Column> := Demographics + TestResults

  /** The score a record holds in one of the test-result columns. */
  function Score(r: Record, c: Column): real
    requires c in TestResults
  {
    match c
    case Total => r.total
    case AMF => r.amf
    case RFC => r.rfc
    case RPD => r.rpd
  }

  /** Every column is selected exactly once, at its own position. */
  lemma SelectedIsFramePositions()
    ensures |Selected| == 7
    ensures forall i :: 0 <= i < |Selected| ==> Position(Selected[i]) == i
    ensures forall c: Column :: c in Selected
  {
    forall c: Column ensures c in Selected {
      assert Selected[Position(c)] == c;
    }
  }

  /** The two label groups share no column. */
  lemma GroupsDisjoint()
    ensures forall c :: c in Demographics ==> c !in TestResults
  {
  }
}
