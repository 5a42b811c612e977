/** What the translation promises about its output, stated over `Translate`
    (and hence, through `BuildFelisSchema`'s postcondition, over main()'s loops). */
module TapSchemaProperties {
  import opened Wrappers
  import opened Seqs
  import opened Vocabulary
  import opened Tap
  import opened Felis
  import opened TapSchema

  /** On success, the k-th table node is the node of the k-th input table. */
  lemma TranslatedTable(basename: string, doc: Document, k: nat)
    requires Translate(basename, doc).Success?
    requires k < |doc.tables|
    ensures k < |Translate(basename, doc).value.tables|
    ensures Translate(basename, doc).value.tables[k] == TableNode(basename, doc.tables[k], k, doc.columns)
  {
  }

  /** The document is accepted exactly when the three input assertions hold. */
  lemma TranslateSucceedsIff(basename: string, doc: Document)
    ensures Translate(basename, doc).Success? <==>
              && |doc.schemas| == 1
              && doc.schemas[0].schemaName == basename
              && forall k :: 0 <= k < |doc.tables| ==> doc.tables[k].schemaName == basename
  {
  }

  /** A rejected document is reported by the first assertion it fails, the
      table check naming the first table of a foreign schema. */
  lemma TranslateErrors(basename: string, doc: Document, i: nat)
    ensures |doc.schemas| != 1 ==> Translate(basename, doc) == Failure(WrongSchemaCount(|doc.schemas|))
    ensures |doc.schemas| == 1 && doc.schemas[0].schemaName != basename ==>
              Translate(basename, doc) == Failure(SchemaNameMismatch(doc.schemas[0].schemaName, basename))
    ensures && |doc.schemas| == 1 && doc.schemas[0].schemaName == basename
            && i < |doc.tables| && doc.tables[i].schemaName != basename
            && (forall k :: 0 <= k < i ==> doc.tables[k].schemaName == basename)
            ==> Translate(basename, doc)
                == Failure(TableSchemaMismatch(i, doc.tables[i].tableName, doc.tables[i].schemaName))
  {
  }

  /** The schema node: named after the schema, identified as `#S`, with the
      fixed v1 version block and one table node per input table. */
  lemma SchemaNode(basename: string, doc: Document)
    requires Translate(basename, doc).Success?
    ensures var s := Translate(basename, doc).value;
            && s.name == basename
            && s.id == "#" + basename
            && s.description == doc.schemas[0].description
            && s.version == Version("v1", ["v1"], ["v1"])
            && |s.tables| == |doc.tables|
  {
  }

  /** The k-th table node: name `T`, identifier `#S.T`, 1-based `tap:table_index`
      k + 1 and an empty primary key. */
  lemma TableNodeFields(basename: string, doc: Document, k: nat)
    requires Translate(basename, doc).Success?
    requires k < |doc.tables|
    ensures k < |Translate(basename, doc).value.tables|
    ensures var t, src := Translate(basename, doc).value.tables[k], doc.tables[k];
            && t.name == src.tableName
            && t.id == "#" + basename + "." + src.tableName
            && t.description == src.description
            && t.tableIndex == k + 1
            && t.primaryKey == ""
  {
  }

  /** Column selection: the k-th table's column nodes are built, in input order,
      from exactly those input columns whose `table_name` is `T` or `S.T`, the
      j-th of them numbered j. */
  lemma ColumnSelection(basename: string, doc: Document, k: nat)
    requires Translate(basename, doc).Success?
    requires k < |doc.tables|
    ensures k < |Translate(basename, doc).value.tables|
    ensures var cols, T := Translate(basename, doc).value.tables[k].columns, doc.tables[k].tableName;
            var ix := Positions(doc.columns, BelongsTo(basename, T));
            && |cols| == |ix|
            && StrictlyIncreasing(ix)
            && (forall j :: 0 <= j < |ix| ==>
                  ix[j] < |doc.columns| && cols[j] == ColumnNode(basename, T, doc.columns[ix[j]], j))
            && (forall i :: 0 <= i < |doc.columns| ==>
                  (i in ix <==> doc.columns[i].tableName == T
                                || doc.columns[i].tableName == basename + "." + T))
  {
    var T := doc.tables[k].tableName;
    TranslatedTable(basename, doc, k);
    FilterByPositions(doc.columns, BelongsTo(basename, T));
  }

  /** The per-column rules: identifiers, normalised datatype, never nullable,
      copied flags, 1-based ordinal, and the three optional keys. */
  lemma ColumnNodeFields(basename: string, doc: Document, k: nat, j: nat)
    requires Translate(basename, doc).Success?
    requires k < |doc.tables|
    requires j < |Select(basename, doc.tables[k].tableName, doc.columns)|
    ensures k < |Translate(basename, doc).value.tables|
    ensures j < |Translate(basename, doc).value.tables[k].columns|
    ensures var T := doc.tables[k].tableName;
            var c := Select(basename, T, doc.columns)[j];
            var col := Translate(basename, doc).value.tables[k].columns[j];
            && c in doc.columns
            && (c.tableName == T || c.tableName == basename + "." + T)
            && col.name == c.columnName
            && col.id == "#" + basename + "." + T + "." + c.columnName
            && col.description == c.description
            && col.dataType == ResolveDatatype(c.dataType)
            && (c.dataType in FelisDatatypes ==> col.dataType == FelisDatatypes[c.dataType])
            && (c.dataType !in FelisDatatypes ==> col.dataType == c.dataType)
            && !col.nullable
            && col.principal == c.principal && col.std == c.std
            && col.columnIndex == j + 1
            && (col.length.Some? <==> col.dataType == "string")
            && (col.length.Some? ==> col.length.value == c.size)
            && (col.tunit.Some? <==> c.unit != "")
            && (col.tunit.Some? && c.unit in FelisUnits ==> col.tunit.value == FelisUnits[c.unit])
            && (col.tunit.Some? && c.unit !in FelisUnits ==> col.tunit.value == c.unit)
            && (col.ucd.Some? <==> c.ucd != "")
            && (col.ucd.Some? ==> col.ucd.value == c.ucd)
  {
  }

  /** Indexes: the k-th table has one index node per indexed selected column, in
      column order, named `T_C_idx`, identified as `#T_C_idx` and listing exactly
      that column's identifier. */
  lemma IndexNodeRules(basename: string, doc: Document, k: nat)
    requires Translate(basename, doc).Success?
    requires k < |doc.tables|
    ensures k < |Translate(basename, doc).value.tables|
    ensures var table, T := Translate(basename, doc).value.tables[k], doc.tables[k].tableName;
            var selected := Select(basename, T, doc.columns);
            var ix := Positions(selected, IsIndexed);
            && |table.columns| == |selected|
            && |table.indexes| == |ix|
            && StrictlyIncreasing(ix)
            && (forall m :: 0 <= m < |ix| ==>
                  && ix[m] < |selected|
                  && selected[ix[m]].indexed
                  && table.indexes[m].name == T + "_" + selected[ix[m]].columnName + "_idx"
                  && table.indexes[m].id == "#" + T + "_" + selected[ix[m]].columnName + "_idx"
                  && table.indexes[m].columns == [table.columns[ix[m]].id])
            && (forall j :: 0 <= j < |selected| ==> (j in ix <==> selected[j].indexed))
  {
    var T := doc.tables[k].tableName;
    TranslatedTable(basename, doc, k);
    FilterByPositions(Select(basename, T, doc.columns), IsIndexed);
  }

  /** A column whose `table_name` names none of the tables is silently dropped:
      no table selects it. */
  lemma UnattachedColumnDropped(basename: string, doc: Document, c: Column)
    requires forall t :: t in doc.tables ==>
               c.tableName != t.tableName && c.tableName != basename + "." + t.tableName
    ensures forall k :: 0 <= k < |doc.tables| ==> c !in Select(basename, doc.tables[k].tableName, doc.columns)
  {
  }

  /** A column tagged `T` and a later one tagged `S.T` (or any mix of the two
      forms) both land in table T, in the order they appear in the input. */
  lemma BareAndQualifiedAttach(basename: string, doc: Document, k: nat, i1: nat, i2: nat)
    requires Translate(basename, doc).Success?
    requires k < |doc.tables|
    requires i1 < i2 < |doc.columns|
    requires doc.columns[i1].tableName == doc.tables[k].tableName
    requires doc.columns[i2].tableName == basename + "." + doc.tables[k].tableName
    ensures k < |Translate(basename, doc).value.tables|
    ensures var cols, T := Translate(basename, doc).value.tables[k].columns, doc.tables[k].tableName;
            exists j1, j2 :: 0 <= j1 < j2 < |cols|
                             && cols[j1] == ColumnNode(basename, T, doc.columns[i1], j1)
                             && cols[j2] == ColumnNode(basename, T, doc.columns[i2], j2)
  {
    var T := doc.tables[k].tableName;
    var p := BelongsTo(basename, T);
    var selected, ix := Select(basename, T, doc.columns), Positions(doc.columns, p);
    TranslatedTable(basename, doc, k);
    var cols := ColumnNodes(basename, T, selected);
    PositionsComplete(doc.columns, p);
    PositionsIncreasing(doc.columns, p);
    PositionsSelect(doc.columns, p);
    assert i1 in ix && i2 in ix;
    var j1 :| 0 <= j1 < |ix| && ix[j1] == i1;
    var j2 :| 0 <= j2 < |ix| && ix[j2] == i2;
    if j2 <= j1 {
      assert false;
    }
    assert cols[j1] == ColumnNode(basename, T, doc.columns[i1], j1);
    assert cols[j2] == ColumnNode(basename, T, doc.columns[i2], j2);
  }


}
