/** The TapSchema-to-Felis translation of dlfelis/tap_schema.py, main(): a pure
    definition (`Translate`) and the step-by-step construction the source
    performs (`BuildFelisSchema`), proved to agree. */
module TapSchema {
  import opened Wrappers
  import opened Seqs
  import opened Vocabulary
  import opened Tap
  import opened Felis

  /** Which of the source's input assertions failed first. */
  datatype TranslateError =
    | WrongSchemaCount(count: nat)
    | SchemaNameMismatch(schemaName: string, basename: string)
    | TableSchemaMismatch(tableIndex: nat, tableName: string, schemaName: string)

  function SchemaId(schema: string): string { "#" + schema }

  function TableId(schema: string, table: string): string { "#" + schema + "." + table }

  function ColumnId(schema: string, table: string, column: string): string
  {
    "#" + schema + "." + table + "." + column
  }

  /** A column belongs to table `table` when it names it bare or qualified by the schema. */
  function BelongsTo(schema: string, table: string): Column -> bool
  {
    (c: Column) => c.tableName == table || c.tableName == schema + "." + table
  }

  function IsIndexed(c: Column): bool { c.indexed }

  /** The columns of table `table`, in input order. */
  function Select(schema: string, table: string, columns: seq<Column>): seq<Column>
  {
    Filter(columns, BelongsTo(schema, table))
  }

  /** The Felis node of selected column `c` at 0-based position `position`. */
  function ColumnNode(schema: string, table: string, c: Column, position: nat): FelisColumn
  {
    var felisType := ResolveDatatype(c.dataType);
    FelisColumn(
      name := c.columnName,
      id := ColumnId(schema, table, c.columnName),
      description := c.description,
      dataType := felisType,
      nullable := false,
      principal := c.principal,
      std := c.std,
      columnIndex := position + 1,
      length := if felisType == "string" then Some(c.size) else None,
      tunit := if c.unit != "" then Some(ResolveUnit(c.unit)) else None,
      ucd := if c.ucd != "" then Some(c.ucd) else None)
  }

  /** The index node that makes column `c` of table `table` searchable. */
  function IndexNode(schema: string, table: string, c: Column): FelisIndex
  {
    FelisIndex(
      name := table + "_" + c.columnName + "_idx",
      id := "#" + table + "_" + c.columnName + "_idx",
      columns := [ColumnId(schema, table, c.columnName)])
  }

  function ColumnNodes(schema: string, table: string, selected: seq<Column>): seq<FelisColumn>
  {
    seq(|selected|, j requires 0 <= j < |selected| => ColumnNode(schema, table, selected[j], j))
  }

  function IndexNodes(schema: string, table: string, indexed: seq<Column>): seq<FelisIndex>
  {
    seq(|indexed|, j requires 0 <= j < |indexed| => IndexNode(schema, table, indexed[j]))
  }

  /** The Felis node of input table `t` at 0-based position `position`. */
  function TableNode(schema: string, t: Table, position: nat, columns: seq<Column>): FelisTable
  {
    var selected := Select(schema, t.tableName, columns);
    FelisTable(
      name := t.tableName,
      id := TableId(schema, t.tableName),
      description := t.description,
      tableIndex := position + 1,
      primaryKey := "",
      indexes := IndexNodes(schema, t.tableName, Filter(selected, IsIndexed)),
      columns := ColumnNodes(schema, t.tableName, selected))
  }

  function TableNodes(schema: string, tables: seq<Table>, columns: seq<Column>): seq<FelisTable>
  {
    seq(|tables|, i requires 0 <= i < |tables| => TableNode(schema, tables[i], i, columns))
  }

  /** The first table that claims a schema other than `schema`, if any. */
  function FirstForeignTable(schema: string, tables: seq<Table>): (r: Option<nat>)
    ensures r.None? <==> forall k :: 0 <= k < |tables| ==> tables[k].schemaName == schema
    ensures r.Some? ==> r.value < |tables| && tables[r.value].schemaName != schema
                        && forall k :: 0 <= k < r.value ==> tables[k].schemaName == schema
  {
    if tables == [] then None
    else if tables[0].schemaName != schema then Some(0)
    else match FirstForeignTable(schema, tables[1..])
         case None => None
         case Some(k) => Some(k + 1)
  }

  /** The Felis schema for the TapSchema document `doc` read from `basename`.json. */
  function Translate(basename: string, doc: Document): Result<FelisSchema, TranslateError>
  {
    if |doc.schemas| != 1 then Failure(WrongSchemaCount(|doc.schemas|))
    else if doc.schemas[0].schemaName != basename then
      Failure(SchemaNameMismatch(doc.schemas[0].schemaName, basename))
    else match FirstForeignTable(basename, doc.tables)
      case Some(i) =>
        Failure(TableSchemaMismatch(i, doc.tables[i].tableName, doc.tables[i].schemaName))
      case None =>
        var s := doc.schemas[0];
        Success(FelisSchema(
          name := s.schemaName,
          id := SchemaId(s.schemaName),
          description := s.description,
          version := V1,
          tables := TableNodes(basename, doc.tables, doc.columns)))
  }

  /** One step of the column loop: the nodes of a longer prefix extend those of the shorter. */
  lemma ColumnNodesStep(schema: string, table: string, selected: seq<Column>, j: nat)
    requires j < |selected|
    ensures ColumnNodes(schema, table, selected[..j + 1])
            == ColumnNodes(schema, table, selected[..j]) + [ColumnNode(schema, table, selected[j], j)]
  {
  }

  /** One step of the column loop: an indexed column adds exactly its own index node. */
  lemma IndexNodesStep(schema: string, table: string, selected: seq<Column>, j: nat)
    requires j < |selected|
    ensures IndexNodes(schema, table, Filter(selected[..j + 1], IsIndexed))
            == IndexNodes(schema, table, Filter(selected[..j], IsIndexed))
               + (if selected[j].indexed then [IndexNode(schema, table, selected[j])] else [])
  {
    assert selected[..j + 1][..j] == selected[..j];
    var f := Filter(selected[..j], IsIndexed);
    if selected[j].indexed {
      assert Filter(selected[..j + 1], IsIndexed) == f + [selected[j]];
    } else {
      assert Filter(selected[..j + 1], IsIndexed) == f;
    }
  }

  /** One iteration of main()'s table loop: enumerate the columns that belong to
      `t`, fill in each column's optional keys one by one, and append the
      column, and its index when it is indexed, to the growing table node. */
  method BuildFelisTable(basename: string, t: Table, position: nat, columns: seq<Column>)
    returns (table: FelisTable)
    ensures table == TableNode(basename, t, position, columns)
  {
    table := FelisTable(t.tableName, TableId(basename, t.tableName), t.description,
                        position + 1, "", [], []);
    var selected := Select(basename, t.tableName, columns);
    var j := 0;
    while j < |selected|
      invariant j <= |selected|
      invariant table.name == t.tableName && table.id == TableId(basename, t.tableName)
      invariant table.description == t.description && table.tableIndex == position + 1
      invariant table.primaryKey == ""
      invariant table.indexes == IndexNodes(basename, t.tableName, Filter(selected[..j], IsIndexed))
      invariant table.columns == ColumnNodes(basename, t.tableName, selected[..j])
    {
      var c := selected[j];
      var felisType := ResolveDatatype(c.dataType);
      var column := FelisColumn(c.columnName, ColumnId(basename, t.tableName, c.columnName),
                                c.description, felisType, false, c.principal, c.std, j + 1,
                                None, None, None);
      if felisType == "string" {
        column := column.(length := Some(c.size));
      }
      if c.indexed {
        var index := FelisIndex(t.tableName + "_" + c.columnName + "_idx",
                                "#" + t.tableName + "_" + c.columnName + "_idx",
                                [column.id]);
        table := table.(indexes := table.indexes + [index]);
      }
      if c.unit != "" {
        column := column.(tunit := Some(ResolveUnit(c.unit)));
      }
      if c.ucd != "" {
        column := column.(ucd := Some(c.ucd));
      }
      table := table.(columns := table.columns + [column]);
      ColumnNodesStep(basename, t.tableName, selected, j);
      IndexNodesStep(basename, t.tableName, selected, j);
      j := j + 1;
    }
    assert selected[..j] == selected;
  }

  /** The translation as main() performs it: check the document, then enumerate
      the tables and append each finished table node to the schema node. */
  method BuildFelisSchema(basename: string, doc: Document) returns (r: Result<FelisSchema, TranslateError>)
    ensures r == Translate(basename, doc)
  {
    if |doc.schemas| != 1 {
      return Failure(WrongSchemaCount(|doc.schemas|));
    }
    var s := doc.schemas[0];
    if s.schemaName != basename {
      return Failure(SchemaNameMismatch(s.schemaName, basename));
    }
    var tables: seq<FelisTable> := [];
    var i := 0;
    while i < |doc.tables|
      invariant i <= |doc.tables|
      invariant forall k :: 0 <= k < i ==> doc.tables[k].schemaName == basename
      invariant tables == TableNodes(basename, doc.tables[..i], doc.columns)
    {
      var t := doc.tables[i];
      if t.schemaName != basename {
        return Failure(TableSchemaMismatch(i, t.tableName, t.schemaName));
      }
      var table := BuildFelisTable(basename, t, i, doc.columns);
      tables := tables + [table];
      assert doc.tables[..i + 1][..i] == doc.tables[..i];
      i := i + 1;
    }
    assert doc.tables[..i] == doc.tables;
    r := Success(FelisSchema(s.schemaName, SchemaId(s.schemaName), s.description, V1, tables));
  }
}
