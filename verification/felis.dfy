/** The Felis schema graph that the translator builds and that is then
    serialised as YAML. Optional YAML keys are `Option` fields. */
module Felis {
  import opened Wrappers

  datatype Version = Version(current: string, compatible: seq<string>, readCompatible: seq<string>)

  /** The fixed version block of every translated schema. */
  const V1: Version := Version("v1", ["v1"], ["v1"])

  datatype FelisIndex = FelisIndex(name: string, id: string, columns: seq<string>)

  datatype FelisColumn = FelisColumn(
    name: string,
    id: string,
    description: string,
    dataType: string,   // key `datatype`
    nullable: bool,
    principal: int,
    std: int,
    columnIndex: int,
    length: Option<int>,       // key `length`
    tunit: Option<string>,     // key `fits:tunit`
    ucd: Option<string>)       // key `ivoa:ucd`

  datatype FelisTable = FelisTable(
    name: string,
    id: string,
    description: string,
    tableIndex: int,           // key `tap:table_index`
    primaryKey: string,
    indexes: seq<FelisIndex>,
    columns: seq<FelisColumn>)

  datatype FelisSchema = FelisSchema(
    name: string,
    id: string,
    description: string,
    version: Version,
    tables: seq<FelisTable>)
}
