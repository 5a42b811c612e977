/** The records of a parsed TapSchema JSON document. */
module Tap {

  datatype Schema = Schema(schemaName: string, description: string)

  datatype Table = Table(schemaName: string, tableName: string, description: string)

  /** `tableName` names its table bare (`T`) or qualified (`S.T`).
      `principal` and `std` are TAP_SCHEMA integer flags, copied verbatim;
      an empty `unit` or `ucd` stands for any false-valued JSON entry. */
  datatype Column = Column(
    tableName: string,
    columnName: string,
    description: string,
    dataType: string,   // key `datatype`
    size: int,
    principal: int,
    std: int,
    indexed: bool,
    unit: string,
    ucd: string)

  datatype Document = Document(schemas: seq<Schema>, tables: seq<Table>, columns: seq<Column>)
}
