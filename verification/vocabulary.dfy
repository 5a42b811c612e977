/** The two normalisation tables of dlfelis/tap_schema.py: TapSchema datatype
    tokens to Felis type names, and legacy unit strings to FITS unit strings.
    Both are consulted as "look up, or pass the input through unchanged". */
module Vocabulary {

  /** TapSchema datatype token to Felis datatype; keys are case-sensitive. */
  const FelisDatatypes: map<string, string> :=
    map[ "bigint" := "long",
         "integer" := "int",
         "smallint" := "short",
         "real" := "float",
         "REAL" := "float",
         "character" := "string",
         "varchar" := "string" ]

  /** Legacy unit string to its FITS (section 4.3 of the FITS Standard 4.0) spelling. */
  const FelisUnits: map<string, string> :=
    map[ "nanomaggies" := "nanomaggy",
         "nanomaggies^2" := "nanomaggy^2",
         "nanomaggies^{-2}" := "nanomaggy^-2",
         "1/nanomaggies^2" := "nanomaggy^-2",
         "nanomaggies/arcsec^2" := "nanomaggy arcsec^-2",
         "1e-17 erg/s/cm^2/AA" := "1e-17 erg s-1 cm-2 Angstrom-1",
         "10<sup>-17</sup> ergs/cm<sup>2</sup>/s/A" := "1e-17 erg s-1 cm-2 Angstrom-1",
         "1e-17 erg/s/cm^2" := "1e-17 erg s-1 cm-2",
         "10<sup>-17</sup> ergs/cm<sup>2</sup>/s" := "1e-17 erg s-1 cm-2",
         "ergs/cm2/s" := "erg s-1 cm-2",
         "erg/cm2/s" := "erg s-1 cm-2",
         "W/m2/Hz" := "W m-2 Hz-1",
         "log(counts/s)" := "log(count/s)",
         "sec" := "s",
         "days" := "d",
         "years" := "yr",
         "Gyrs" := "Gyr",
         "Angstroms" := "Angstrom",
         "Ang" := "Angstrom",
         "microns" := "um",
         "degrees" := "deg" ]

  /** Exact-match lookup; a miss is not an error and returns the key itself. */
  function Normalise(table: map<string, string>, raw: string): string
  {
    if raw in table then table[raw] else raw
  }

  function ResolveDatatype(raw: string): string
  {
    Normalise(FelisDatatypes, raw)
  }

  function ResolveUnit(raw: string): string
  {
    Normalise(FelisUnits, raw)
  }

  /** A lookup either hits the table or hands back its input untouched. */
  lemma NormaliseHitOrPassThrough(table: map<string, string>, raw: string)
    ensures raw in table ==> Normalise(table, raw) == table[raw]
    ensures raw !in table ==> Normalise(table, raw) == raw
    ensures Normalise(table, raw) == raw || Normalise(table, raw) in table.Values
  {
  }

  /** The datatype entries, including both spellings of `real` and the
      fact that lookups are case-sensitive and do not know `char`. */
  lemma DatatypeTableEntries()
    ensures ResolveDatatype("real") == "float" && ResolveDatatype("REAL") == "float"
    ensures ResolveDatatype("varchar") == "string" && ResolveDatatype("character") == "string"
    ensures ResolveDatatype("bigint") == "long" && ResolveDatatype("integer") == "int"
    ensures ResolveDatatype("smallint") == "short"
    ensures ResolveDatatype("Real") == "Real" && ResolveDatatype("char") == "char"
    ensures ResolveDatatype("double") == "double"
  {
  }

  /** A few unit entries, and a unit already in FITS form passing through. */
  lemma UnitTableEntries()
    ensures ResolveUnit("degrees") == "deg"
    ensures ResolveUnit("nanomaggies^{-2}") == "nanomaggy^-2"
    ensures ResolveUnit("1/nanomaggies^2") == "nanomaggy^-2"
    ensures ResolveUnit("10<sup>-17</sup> ergs/cm<sup>2</sup>/s/A") == "1e-17 erg s-1 cm-2 Angstrom-1"
    ensures ResolveUnit("microns") == "um"
    ensures ResolveUnit("deg") == "deg" && ResolveUnit("mag") == "mag"
  {
  }

  /** No normalised datatype is itself a key: resolving twice is resolving once. */
  lemma ResolveDatatypeIdempotent(raw: string)
    ensures ResolveDatatype(ResolveDatatype(raw)) == ResolveDatatype(raw)
  {
  }

  /** No normalised unit is itself a key: resolving twice is resolving once. */
  lemma ResolveUnitIdempotent(raw: string)
    ensures ResolveUnit(ResolveUnit(raw)) == ResolveUnit(raw)
  {
    assert forall v :: v in FelisUnits.Values ==> v !in FelisUnits;
  }
}
