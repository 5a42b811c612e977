/** Small documents translated in full. */
module TapSchemaScenarios {
  import opened Wrappers
  import Seqs
  import opened Tap
  import opened Felis
  import opened TapSchema

  /** A `real` column in `degrees`, not indexed, without a UCD. */
  lemma RealColumnInDegrees()
    ensures Translate("sdss_dr12", Document(
              [Schema("sdss_dr12", "SDSS DR12")],
              [Table("sdss_dr12", "PhotoObj", "Photometry")],
              [Column("PhotoObj", "ra", "Right ascension", "real", 0, 1, 1, false, "degrees", "")]))
            == Success(FelisSchema("sdss_dr12", "#sdss_dr12", "SDSS DR12", V1,
                 [FelisTable("PhotoObj", "#sdss_dr12.PhotoObj", "Photometry", 1, "", [],
                    [FelisColumn("ra", "#sdss_dr12.PhotoObj.ra", "Right ascension", "float", false,
                                 1, 1, 1, None, Some("deg"), None)])]))
  {
    var c := Column("PhotoObj", "ra", "Right ascension", "real", 0, 1, 1, false, "degrees", "");
    assert [c][..0] == [];
    assert BelongsTo("sdss_dr12", "PhotoObj")(c);
    assert Select("sdss_dr12", "PhotoObj", [c]) == [c];
    assert Seqs.Filter([c], IsIndexed) == [];
    assert "#" + "sdss_dr12" + "." + "PhotoObj" == "#sdss_dr12.PhotoObj";
    assert "#" + "sdss_dr12" + "." + "PhotoObj" + "." + "ra" == "#sdss_dr12.PhotoObj.ra";
    var t := Table("sdss_dr12", "PhotoObj", "Photometry");
    assert FirstForeignTable("sdss_dr12", [t]) == None;
    assert Vocabulary.ResolveDatatype("real") == "float";
    assert Vocabulary.ResolveUnit("degrees") == "deg";
    var col := FelisColumn("ra", "#sdss_dr12.PhotoObj.ra", "Right ascension", "float", false, 1, 1, 1, None, Some("deg"), None);
    assert ColumnNode("sdss_dr12", "PhotoObj", c, 0) == col;
    assert ColumnNodes("sdss_dr12", "PhotoObj", [c]) == [col];
    var ft := FelisTable("PhotoObj", "#sdss_dr12.PhotoObj", "Photometry", 1, "", [], [col]);
    assert TableNode("sdss_dr12", t, 0, [c]) == ft;
    assert TableNodes("sdss_dr12", [t], [c]) == [ft];
    assert SchemaId("sdss_dr12") == "#sdss_dr12";
  }

  /** An indexed `varchar` column, tagged with the qualified table name, gets a
      `length` and an index node. */
  lemma IndexedVarcharColumn()
    ensures Translate("S", Document(
              [Schema("S", "")],
              [Table("S", "Obj", "")],
              [Column("S.Obj", "name", "", "varchar", 20, 0, 0, true, "", "meta.id")]))
            == Success(FelisSchema("S", "#S", "", V1,
                 [FelisTable("Obj", "#S.Obj", "", 1, "",
                    [FelisIndex("Obj_name_idx", "#Obj_name_idx", ["#S.Obj.name"])],
                    [FelisColumn("name", "#S.Obj.name", "", "string", false, 0, 0, 1,
                                 Some(20), None, Some("meta.id"))])]))
  {
    var c := Column("S.Obj", "name", "", "varchar", 20, 0, 0, true, "", "meta.id");
    assert [c][..0] == [];
    assert BelongsTo("S", "Obj")(c);
    assert Select("S", "Obj", [c]) == [c];
    assert Seqs.Filter([c], IsIndexed) == [c];
    assert "#" + "S" + "." + "Obj" == "#S.Obj";
    assert "#" + "S" + "." + "Obj" + "." + "name" == "#S.Obj.name";
    assert "Obj" + "_" + "name" + "_idx" == "Obj_name_idx";
    assert "#" + "Obj" + "_" + "name" + "_idx" == "#Obj_name_idx";
    var t := Table("S", "Obj", "");
    assert FirstForeignTable("S", [t]) == None;
    var col := FelisColumn("name", "#S.Obj.name", "", "string", false, 0, 0, 1, Some(20), None, Some("meta.id"));
    var ix := FelisIndex("Obj_name_idx", "#Obj_name_idx", ["#S.Obj.name"]);
    assert ColumnNode("S", "Obj", c, 0) == col;
    assert IndexNode("S", "Obj", c) == ix;
    var ft := FelisTable("Obj", "#S.Obj", "", 1, "", [ix], [col]);
    assert TableNode("S", t, 0, [c]) == ft;
    assert TableNodes("S", [t], [c]) == [ft];
    assert SchemaId("S") == "#S";
  }

  /** A column whose `table_name` names no table of the document is dropped. */
  lemma ColumnOfUnknownTableDropped()
    ensures Translate("S", Document(
              [Schema("S", "")],
              [Table("S", "T", "")],
              [Column("S.U", "x", "", "integer", 0, 0, 0, true, "", "")]))
            == Success(FelisSchema("S", "#S", "", V1, [FelisTable("T", "#S.T", "", 1, "", [], [])]))
  {
    var c := Column("S.U", "x", "", "integer", 0, 0, 0, true, "", "");
    assert [c][..0] == [];
    assert "S.U"[2] != ("S" + "." + "T")[2];
    assert !BelongsTo("S", "T")(c);
    assert Select("S", "T", [c]) == [];
    var t := Table("S", "T", "");
    assert FirstForeignTable("S", [t]) == None;
    assert "#" + "S" + "." + "T" == "#S.T";
    var ft := FelisTable("T", "#S.T", "", 1, "", [], []);
    assert TableNode("S", t, 0, [c]) == ft;
    assert TableNodes("S", [t], [c]) == [ft];
    assert SchemaId("S") == "#S";
  }

  /** A schema named other than the file is rejected before anything is built. */
  lemma SchemaNameMustMatchFile()
    ensures Translate("foo", Document([Schema("bar", "")], [Table("bar", "T", "")], []))
            == Failure(SchemaNameMismatch("bar", "foo"))
  {
  }

  /** A unit found in the unit table is replaced by its FITS spelling; an
      unknown datatype passes through and gets no `length`. */
  lemma NanomaggyUnit()
    ensures Translate("S", Document(
              [Schema("S", "")],
              [Table("S", "T", "")],
              [Column("T", "flux_ivar", "", "double", 8, 0, 1, false, "nanomaggies^{-2}", "")]))
            == Success(FelisSchema("S", "#S", "", V1,
                 [FelisTable("T", "#S.T", "", 1, "", [],
                    [FelisColumn("flux_ivar", "#S.T.flux_ivar", "", "double", false, 0, 1, 1,
                                 None, Some("nanomaggy^-2"), None)])]))
  {
    var c := Column("T", "flux_ivar", "", "double", 8, 0, 1, false, "nanomaggies^{-2}", "");
    assert [c][..0] == [];
    assert BelongsTo("S", "T")(c);
    assert Select("S", "T", [c]) == [c];
    assert Seqs.Filter([c], IsIndexed) == [];
    assert "#" + "S" + "." + "T" == "#S.T";
    assert "#" + "S" + "." + "T" + "." + "flux_ivar" == "#S.T.flux_ivar";
    var t := Table("S", "T", "");
    assert FirstForeignTable("S", [t]) == None;
    assert Vocabulary.ResolveDatatype("double") == "double";
    assert Vocabulary.ResolveUnit("nanomaggies^{-2}") == "nanomaggy^-2";
    var col := FelisColumn("flux_ivar", "#S.T.flux_ivar", "", "double", false, 0, 1, 1, None, Some("nanomaggy^-2"), None);
    assert ColumnNode("S", "T", c, 0) == col;
    assert ColumnNodes("S", "T", [c]) == [col];
    var ft := FelisTable("T", "#S.T", "", 1, "", [], [col]);
    assert TableNode("S", t, 0, [c]) == ft;
    assert TableNodes("S", [t], [c]) == [ft];
    assert SchemaId("S") == "#S";
  }
}
