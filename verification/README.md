# dlfelis TapSchema-to-Felis translation, modelled in Dafny

`dlfelis/tap_schema.py` turns a TapSchema JSON description of an astronomical
catalogue into a Felis YAML schema. This project models its translation core:

- the two normalisation tables, `felis_datatypes` (TapSchema datatype token to
  Felis type) and `felis_units` (legacy unit string to FITS unit string);
- the body of `main()` that checks the parsed document and builds the Felis
  graph (a schema node, one table node per input table, one column node per
  column belonging to that table, one index node per indexed column).

Files (one module each):

- `wrappers.dfy` (`Wrappers`): `Option` and `Result`.
- `seqs.dfy` (`Seqs`): an order-preserving `Filter` (the list comprehension of
  line 106) and `Positions`, the indices it keeps, with the lemmas that
  characterise it.
- `vocabulary.dfy` (`Vocabulary`): the two tables as Dafny maps, with the
  "look up or pass through" lookup they are both used with.
- `tap.dfy` (`Tap`): the input records (schema, table, column, document).
- `felis.dfy` (`Felis`): the output records. The optional YAML keys `length`,
  `fits:tunit` and `ivoa:ucd` are `Option` fields.
- `tap_schema.dfy` (`TapSchema`): the translation in two forms. `Translate` is
  a pure definition. `BuildFelisSchema` and `BuildFelisTable` follow `main()`
  step by step: they enumerate the tables, and for each table its selected
  columns. They fill in a column's optional keys one at a time, and they
  append columns, indexes and tables as they finish them. Each method is
  proved to return exactly what `Translate` (resp. `TableNode`) defines.
  The three `assert` statements of the source become a `Failure` result that
  names the assertion that failed.
- `properties.dfy` (`TapSchemaProperties`): what the translation promises,
  proved about `Translate`.
- `scenarios.dfy` (`TapSchemaScenarios`): small documents translated in full.

The model follows the code wherever the code and the written design of the
tool disagree:
- `length` is added only when the resolved datatype is exactly `string`, not
  for `char` (line 130).
- `ivoa:ucd` is copied verbatim; the code has no UCD normalisation table
  (lines 142-143).
- A column that names no table is dropped silently, with no warning
  (lines 106-108).

## Model

| member | source | states |
|---|---|---|
| `Vocabulary.NormaliseHitOrPassThrough` | dlfelis/tap_schema.py:114-117 | a lookup returns the table's value for a key and the input itself otherwise, so the result is always either the input or a table value |
| `Vocabulary.DatatypeTableEntries` | dlfelis/tap_schema.py:24-30 | `real` and `REAL` map to `float`, `varchar` and `character` to `string`, `bigint`/`integer`/`smallint` to `long`/`int`/`short`; `Real`, `char` and `double` are not keys and pass through unchanged (lookups are case-sensitive) |
| `Vocabulary.UnitTableEntries` | dlfelis/tap_schema.py:35-55 | `degrees`→`deg`, `nanomaggies^{-2}` and `1/nanomaggies^2`→`nanomaggy^-2`, the HTML-marked flux unit→`1e-17 erg s-1 cm-2 Angstrom-1`, `microns`→`um`; units already in FITS form pass through |
| `Vocabulary.ResolveDatatypeIdempotent` | dlfelis/tap_schema.py:24-30 | no Felis datatype is itself a TapSchema key, so resolving a resolved datatype changes nothing |
| `Vocabulary.ResolveUnitIdempotent` | dlfelis/tap_schema.py:35-55 | no FITS unit in the table is itself a key, so resolving a resolved unit changes nothing |
| `Seqs.Filter` | dlfelis/tap_schema.py:106-108 | the kept elements are elements of the input that satisfy the predicate, and there are no more of them than input elements |
| `Seqs.Positions` | dlfelis/tap_schema.py:106-108 | one position per kept element, each a valid index of the input |
| `Seqs.PositionsIncreasing` | dlfelis/tap_schema.py:106-108 | the kept positions are strictly increasing, so the comprehension preserves input order |
| `Seqs.PositionsSelect` | dlfelis/tap_schema.py:106-108 | the k-th kept element is the input element at the k-th kept position |
| `Seqs.PositionsComplete` | dlfelis/tap_schema.py:106-108 | a position is kept if and only if its element satisfies the predicate |
| `Seqs.FilterByPositions` | dlfelis/tap_schema.py:106-108 | the comprehension is exactly the order-preserving subsequence of the elements that satisfy the condition |
| `TapSchema.FirstForeignTable` | dlfelis/tap_schema.py:97-98 | returns the least index of a table whose `schema_name` differs from the basename, and nothing exactly when every table's `schema_name` equals it |
| `TapSchema.ColumnNodesStep` | dlfelis/tap_schema.py:110-144 | appending the node of the j-th selected column, numbered j + 1, to the nodes of the first j gives the nodes of the first j + 1 |
| `TapSchema.IndexNodesStep` | dlfelis/tap_schema.py:132-136 | the j-th selected column adds one index node to the table when it is indexed and none otherwise |
| `TapSchema.BuildFelisTable` | dlfelis/tap_schema.py:99-144 | the table node built by appending column nodes and index nodes one column at a time equals `TableNode`: name, `#S.T`, 1-based index, empty primary key, the selected columns' nodes and their index nodes |
| `TapSchema.BuildFelisSchema` | dlfelis/tap_schema.py:86-146 | the loop that checks the document and appends table nodes one at a time returns exactly `Translate(basename, doc)`, failure cases included |
| `TapSchemaProperties.TranslatedTable` | dlfelis/tap_schema.py:97-146 | on success the k-th output table is the node of the k-th input table, numbered k |
| `TapSchemaProperties.TranslateSucceedsIff` | dlfelis/tap_schema.py:86-98 | translation succeeds if and only if there is exactly one schema, it is named after the file, and every table's `schema_name` is the file's basename |
| `TapSchemaProperties.TranslateErrors` | dlfelis/tap_schema.py:86-98 | a rejected document reports the first failing assertion: the schema count, then the schema name, then the first table of a foreign schema |
| `TapSchemaProperties.SchemaNode` | dlfelis/tap_schema.py:89-95 | the schema node is named `S`, identified `#S`, keeps the description, has version `v1` compatible with `[v1]` and read-compatible with `[v1]`, and has one table node per input table |
| `TapSchemaProperties.TableNodeFields` | dlfelis/tap_schema.py:97-105 | the k-th table node is named `T`, identified `#S.T`, keeps the description, has `tap:table_index` k + 1 and `primaryKey` `''` |
| `TapSchemaProperties.ColumnSelection` | dlfelis/tap_schema.py:106-110 | the k-th table's column nodes come, in input order and numbered from 0, from exactly the input columns whose `table_name` is `T` or `S.T` |
| `TapSchemaProperties.ColumnNodeFields` | dlfelis/tap_schema.py:114-143 | each column node: name `C`, identifier `#S.T.C`, datatype mapped through `felis_datatypes` or passed through, `nullable` false, `tap:principal`/`tap:std` copied, `tap:column_index` j + 1, `length` present iff the datatype is `string` and then equal to `size`, `fits:tunit` present iff `unit` is non-empty and then mapped or passed through, `ivoa:ucd` present iff `ucd` is non-empty and then equal to it |
| `TapSchemaProperties.IndexNodeRules` | dlfelis/tap_schema.py:132-136 | the index nodes are, in column order, one per indexed selected column and no other, each named `T_C_idx`, identified `#T_C_idx` and listing exactly that column's identifier |
| `TapSchemaProperties.UnattachedColumnDropped` | dlfelis/tap_schema.py:106-108 | a column whose `table_name` matches no table, bare or qualified, is selected by no table |
| `TapSchemaProperties.BareAndQualifiedAttach` | dlfelis/tap_schema.py:106-108 | a column tagged `T` and a later one tagged `S.T` both become column nodes of table T, in their input order |
| `TapSchemaScenarios.RealColumnInDegrees` | dlfelis/tap_schema.py:114-141 | a `real` column in `degrees` becomes a `float` column with `fits:tunit` `deg`, no `length`, no `ivoa:ucd`, no index |
| `TapSchemaScenarios.IndexedVarcharColumn` | dlfelis/tap_schema.py:106-143 | an indexed `varchar(20)` column tagged `S.Obj` becomes a `string` column of length 20 in table `Obj`, with index `Obj_name_idx` on `#S.Obj.name` and its UCD copied |
| `TapSchemaScenarios.ColumnOfUnknownTableDropped` | dlfelis/tap_schema.py:106-108 | a column tagged with an unknown table leaves the only table without columns or indexes |
| `TapSchemaScenarios.SchemaNameMustMatchFile` | dlfelis/tap_schema.py:87 | a schema `bar` read from `foo.json` is rejected as a schema-name mismatch |
| `TapSchemaScenarios.NanomaggyUnit` | dlfelis/tap_schema.py:137-141 | unit `nanomaggies^{-2}` becomes `nanomaggy^-2`; the unknown datatype `double` passes through and gets no `length` |

## Left out

- Command-line parsing (`_options`, lines 58-69) is not modelled.
- Splitting the input path and the `.json` extension assertion (lines 81-83)
  are not modelled: the basename is a parameter.
- Reading and parsing the JSON file (lines 84-85) is not modelled: the parsed
  records are the input.
- Choosing the output file name and writing the YAML (lines 148-155) are not
  modelled; key order and YAML serialisation belong to the YAML library.
- Running `felis validate` and comparing its output (lines 157-174) is not
  modelled. It is an external process.
- JSON values are typed: `indexed` is a `bool`, standing for any value Python
  treats as true or false. `unit` and `ucd` are strings, and the empty string
  stands for every false-valued entry (such as `null`). `principal`, `std` and
  `size` are integers copied verbatim. A document with a missing key, which
  makes the source raise `KeyError`, cannot be expressed.
- dlfelis/test/test_tap_schema.py tests a `validate` function and a `--debug`
  option that the modelled source does not define. It says nothing about the
  translation.
