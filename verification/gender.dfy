/** The gender normaliser: the `Genero` column is lower-cased and then looked
    up, as a whole string, in a fixed ten-entry table. Values that are not
    keys of the table pass through, lower-cased. */
module Gender {
  import opened Wrappers

  /** The two canonical categories the table produces. */
  const Masculino: string := "Masculino"
  const Femenino: string := "Femenino"

  /** ASCII upper-case letter. */
  predicate IsUpper(c: char)
  {
    'A' <= c <= 'Z'
  }

  /** Lower-casing of one character (ASCII letters only). */
  function LowerChar(c: char): (l: char)
    ensures !IsUpper(l)
    ensures !IsUpper(c) ==> l == c
    ensures IsUpper(c) ==> l as int - 'a' as int == c as int - 'A' as int
  {
    if IsUpper(c) then (c as int + 32) as char else c
  }

  /** A string without upper-case letters. */
  predicate IsLowerCase(s: string)
  {
    forall i :: 0 <= i < |s| ==> !IsUpper(s[i])
  }

  /** `str.lower`, character by character. */
  function Lower(s: string): (r: string)
    ensures |r| == |s|
    ensures IsLowerCase(r)
    ensures IsLowerCase(s) ==> r == s
    ensures forall i :: 0 <= i < |s| ==>
              (IsUpper(s[i]) ==> r[i] as int - 'a' as int == s[i] as int - 'A' as int) &&
              (!IsUpper(s[i]) ==> r[i] == s[i])
  {
    seq(|s|, i requires 0 <= i < |s| => LowerChar(s[i]))
  }

  /** `mapeo_genero`, the replacement table applied after lower-casing. */
  const Mapping: map<string, string> := map[
    "masculino" := Masculino,
    "masculino " := Masculino,
    "hombre" := Masculino,
    "masculina" := Masculino,
    "femenino" := Femenino,
    "femenino " := Femenino,
    "femenini" := Femenino,
    "femenina" := Femenino,
    "femenina " := Femenino,
    "mujer" := Femenino
  ]

  /** The lower-case spellings that are read as male. */
  const MasculinoKeys: set<string> := {"masculino", "masculino ", "hombre", "masculina"}

  /** The lower-case spellings that are read as female. */
  const FemeninoKeys: set<string> := {"femenino", "femenino ", "femenini", "femenina", "femenina ", "mujer"}

  /** True of the two canonical categories. */
  predicate IsCanonical(g: string)
  {
    g == Masculino || g == Femenino
  }

  /** The table is exactly the two key groups, each sent to its category. */
  lemma MappingIsKeyGroups()
    ensures Mapping.Keys == MasculinoKeys + FemeninoKeys
    ensures MasculinoKeys !! FemeninoKeys
    ensures forall k :: k in MasculinoKeys ==> Mapping[k] == Masculino
    ensures forall k :: k in FemeninoKeys ==> Mapping[k] == Femenino
  {
  }

  /** Neither canonical category is a lower-case string, so no pass-through
      value can ever be mistaken for one. */
  lemma CanonicalNotLowerCase(s: string)
    requires IsLowerCase(s)
    ensures !IsCanonical(s)
  {
    assert IsUpper(Masculino[0]) && IsUpper(Femenino[0]);
    if |s| > 0 {
      assert !IsUpper(s[0]);
    }
  }

  /** Lower-case the raw label, then replace it if it is a key of the table. */
  function Normalize(raw: string): (r: string)
    ensures r == Masculino <==> Lower(raw) in MasculinoKeys
    ensures r == Femenino <==> Lower(raw) in FemeninoKeys
    ensures !IsCanonical(r) ==> r == Lower(raw)
  {
    var key := Lower(raw);
    MappingIsKeyGroups();
    CanonicalNotLowerCase(key);
    if key in Mapping then Mapping[key] else key
  }

  /** The normaliser applied to a cell; a missing cell stays missing. */
  function NormalizeCell(g: Option<string>): (r: Option<string>)
    ensures r.None? <==> g.None?
    ensures g.Some? ==> r.value == Normalize(g.value)
  {
    match g
    case None => None
    case Some(s) => Some(Normalize(s))
  }

  /** The only outputs are the two categories and lower-cased pass-through
      values: there is no "unknown" category. */
  lemma NoUnknownCategory(raw: string)
    ensures IsCanonical(Normalize(raw)) <==> Lower(raw) in Mapping
    ensures !IsCanonical(Normalize(raw)) ==> Normalize(raw) == Lower(raw) && IsLowerCase(Normalize(raw))
  {
  }

  /** The normaliser ignores case. */
  lemma NormalizeIgnoresCase(raw: string)
    ensures Normalize(Lower(raw)) == Normalize(raw)
  {
  }

  /** Normalising twice is normalising once: each canonical category is
      itself the lower-case key of its own category. */
  lemma {:induction false} NormalizeIdempotent(raw: string)
    ensures Normalize(Normalize(raw)) == Normalize(raw)
  {
    var r := Normalize(raw);
    if r == Masculino {
      assert Lower(Masculino) == "masculino";
    } else if r == Femenino {
      assert Lower(Femenino) == "femenino";
    } else {
      assert Lower(r) == r;
      assert r !in Mapping by { MappingIsKeyGroups(); }
    }
  }

  /** Spellings with a trailing space are keys only for some of them:
      "hombre " and "mujer " are not mapped. */
  lemma TrailingSpaceGap()
    ensures Normalize("Hombre ") == "hombre "
    ensures Normalize("MUJER ") == "mujer "
    ensures Normalize("Femenino ") == Femenino
    ensures Normalize("HOMBRE") == Masculino
  {
    assert Lower("Hombre ") == "hombre ";
    assert Lower("MUJER ") == "mujer ";
    assert Lower("Femenino ") == "femenino ";
    assert Lower("HOMBRE") == "hombre";
  }
}
