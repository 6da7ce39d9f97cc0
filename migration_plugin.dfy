/** The migration plugin: one versioned migration per entity, as a Flyway SQL script or a
    Liquibase changelog, with foreign-key columns for the owning side of each relationship and a
    join table for each many-to-many relationship. */
module MigrationPlugin {
  import opened Wrappers
  import opened Text
  import opened Domain
  import opened Orchestrator

  const Name: string := "migration-generator"
  const Version: string := "1.0.0"

  // ---------------------------------------------------------------------------------------------
  // Column types

  /** The Java types with a dedicated SQL type. */
  predicate IsMappedType(javaType: string) {
    javaType == "Long" || javaType == "Integer" || javaType == "Boolean"
      || javaType == "BigDecimal" || javaType == "LocalDate" || javaType == "LocalDateTime"
  }

  /** toSqlType: the SQL column type of a Java field type; unknown types are VARCHAR(255). */
  function ToSqlType(javaType: string): string {
    match javaType
    case "Long" => "BIGINT"
    case "Integer" => "INTEGER"
    case "Boolean" => "BOOLEAN"
    case "BigDecimal" => "DECIMAL(19,2)"
    case "LocalDate" => "DATE"
    case "LocalDateTime" => "TIMESTAMP"
    case _ => "VARCHAR(255)"
  }

  /** Unknown types, and only they, fall back to VARCHAR(255); ids are BIGINT and timestamps TIMESTAMP. */
  lemma ToSqlTypeCases(javaType: string)
    ensures !IsMappedType(javaType) <==> ToSqlType(javaType) == "VARCHAR(255)"
    ensures javaType == "Long" <==> ToSqlType(javaType) == "BIGINT"
    ensures javaType == "LocalDateTime" <==> ToSqlType(javaType) == "TIMESTAMP"
  {
  }

  /** Distinct mapped types get distinct SQL types. */
  lemma ToSqlTypeInjective(a: string, b: string)
    requires IsMappedType(a) && IsMappedType(b) && ToSqlType(a) == ToSqlType(b)
    ensures a == b
  {
  }

  // ---------------------------------------------------------------------------------------------
  // File names

  const ChangelogDir: string := "src/main/resources/db/changelog/"
  const FlywayDir: string := "src/main/resources/db/migration/V"

  /** migrationFilePath: a versioned Liquibase changelog or Flyway script named after the table. */
  function MigrationFilePath(tool: string, version: nat, table: string): string {
    if tool == "liquibase" then ChangelogDir + NatToString(version) + "-create-" + table + ".xml"
    else FlywayDir + NatToString(version) + "__create_" + table + "_table.sql"
  }

  /** The version is read back from the path: migrations of different versions never share a file,
      whatever their tables are called. */
  lemma MigrationFilePathVersion(tool: string, v1: nat, t1: string, v2: nat, t2: string)
    ensures MigrationFilePath(tool, v1, t1) == MigrationFilePath(tool, v2, t2) ==> v1 == v2
  {
    var s1 := MigrationFilePath(tool, v1, t1);
    var s2 := MigrationFilePath(tool, v2, t2);
    if s1 == s2 {
      var k := |MigrationDir(tool)|;
      VersionAt(tool, v1, t1);
      VersionAt(tool, v2, t2);
      SameVersionAt(s1, k, v1, v2);
    }
  }

  /** Two versions whose digits both sit at k in s, each followed by a non-digit, are equal. */
  lemma SameVersionAt(s: string, k: nat, v1: nat, v2: nat)
    requires DigitsAt(s, k, NatToString(v1)) && DigitsAt(s, k, NatToString(v2))
    ensures v1 == v2
  {
    DigitRunAt(s, k, NatToString(v1), NatToString(v2));
    NatToStringInjective(v1, v2);
  }

  /** The digits d sit in s from position k on, and a non-digit follows them. */
  predicate DigitsAt(s: string, k: nat, d: string) {
    && k + |d| < |s|
    && (forall i :: 0 <= i < |d| ==> s[k + i] == d[i])
    && (forall j :: k <= j < k + |d| ==> IsDigit(s[j]))
    && !IsDigit(s[k + |d|])
  }

  /** The directory part of a migration path. */
  function MigrationDir(tool: string): string {
    if tool == "liquibase" then ChangelogDir else FlywayDir
  }

  /** Where the version digits sit in the path, and that a non-digit follows them. */
  lemma VersionAt(tool: string, v: nat, t: string)
    ensures DigitsAt(MigrationFilePath(tool, v, t), |MigrationDir(tool)|, NatToString(v))
  {
    if tool == "liquibase" {
      DigitsAfter(ChangelogDir, NatToString(v), "-create-", t, ".xml");
    } else {
      DigitsAfter(FlywayDir, NatToString(v), "__create_", t, "_table.sql");
    }
  }

  /** In dir + d + a + b + c, the digits d start at |dir| and the first character of a ends them. */
  lemma DigitsAfter(dir: string, d: string, a: string, b: string, c: string)
    requires forall i :: 0 <= i < |d| ==> IsDigit(d[i])
    requires |a| > 0 && !IsDigit(a[0])
    ensures DigitsAt(dir + d + a + b + c, |dir|, d)
  {
    var pre := dir + d;
    var s := dir + d + a + b + c;
    assert s[|pre|] == a[0];
    forall i | 0 <= i < |d| ensures s[|dir| + i] == d[i] {
      assert s[|dir| + i] == pre[|dir| + i];
    }
    forall j | |dir| <= j < |dir| + |d| ensures IsDigit(s[j]) {
      assert s[j] == pre[j] == d[j - |dir|];
    }
  }

  // ---------------------------------------------------------------------------------------------
  // Tables of entities

  /** buildTableMap: entity name to table name; a later entity with the same name overwrites. */
  function TableMap(entities: seq<EntityDefinition>): map<string, string> {
    if entities == [] then map[]
    else
      var last := entities[|entities| - 1].entity;
      TableMap(entities[..|entities| - 1])[last.name := last.table]
  }

  /** The names of the map are exactly the names of the entities. */
  lemma {:induction false} TableMapKeys(entities: seq<EntityDefinition>)
    ensures forall k :: 0 <= k < |entities| ==> entities[k].entity.name in TableMap(entities)
    ensures forall n :: n in TableMap(entities) ==> exists k :: 0 <= k < |entities| && entities[k].entity.name == n
    decreases |entities|
  {
    if entities != [] {
      var init := entities[..|entities| - 1];
      TableMapKeys(init);
      assert forall k :: 0 <= k < |init| ==> init[k] == entities[k];
    }
  }

  /** The table recorded for a name is that of the last entity with the name. */
  lemma {:induction false} TableMapLastWins(entities: seq<EntityDefinition>, k: nat)
    requires k < |entities|
    requires forall j :: k < j < |entities| ==> entities[j].entity.name != entities[k].entity.name
    ensures entities[k].entity.name in TableMap(entities)
    ensures TableMap(entities)[entities[k].entity.name] == entities[k].entity.table
    decreases |entities|
  {
    if k < |entities| - 1 {
      var init := entities[..|entities| - 1];
      assert init[k] == entities[k];
      TableMapLastWins(init, k);
    }
  }

  method BuildTableMap(entities: seq<EntityDefinition>) returns (m: map<string, string>)
    ensures m == TableMap(entities)
  {
    m := map[];
    for i := 0 to |entities|
      invariant m == TableMap(entities[..i])
    {
      assert entities[..i + 1][..i] == entities[..i];
      m := m[entities[i].entity.name := entities[i].entity.table];
    }
    assert entities[..|entities|] == entities;
  }

  /** tableByEntity.get(target), appended to a string: a missing entity reads as "null". */
  function TargetTable(tables: map<string, string>, target: string): string {
    if target in tables then tables[target] else "null"
  }

  // ---------------------------------------------------------------------------------------------
  // Foreign-key columns

  /** The owning side of a relationship, which holds the foreign-key column. */
  predicate OwnsForeignKey(r: RelationshipSpec) {
    r.relType == "ManyToOne" || r.relType == "OneToOne"
  }

  /** The relationships that own a foreign key, in order. */
  function Owning(rels: seq<RelationshipSpec>): seq<RelationshipSpec> {
    if rels == [] then []
    else
      var last := rels[|rels| - 1];
      Owning(rels[..|rels| - 1]) + (if OwnsForeignKey(last) then [last] else [])
  }

  /** Owning keeps exactly the relationships that own a foreign key. */
  lemma {:induction false} OwningSpec(rels: seq<RelationshipSpec>)
    ensures forall i :: 0 <= i < |Owning(rels)| ==> OwnsForeignKey(Owning(rels)[i]) && Owning(rels)[i] in rels
    ensures forall x :: x in rels && OwnsForeignKey(x) ==> x in Owning(rels)
    decreases |rels|
  {
    if rels != [] {
      var init := rels[..|rels| - 1];
      var last := rels[|rels| - 1];
      OwningSpec(init);
      assert forall x :: x in init ==> x in rels;
      assert forall x :: x in rels ==> x in init || x == last;
    }
  }

  /** The text of one foreign-key column. */
  function ForeignKeyColumn(r: RelationshipSpec): string { r.fieldName + "_id BIGINT" }

  /** foreignKeyColumns, as the loop builds it. */
  function ForeignKeyColumnsOf(rels: seq<RelationshipSpec>): seq<string> {
    if rels == [] then []
    else
      var last := rels[|rels| - 1];
      ForeignKeyColumnsOf(rels[..|rels| - 1]) + (if OwnsForeignKey(last) then [ForeignKeyColumn(last)] else [])
  }

  /** One "fieldName_id BIGINT" column per owning relationship, in relationship order, and none for
      one-to-many or many-to-many. */
  lemma {:induction false} ForeignKeyColumnsSpec(rels: seq<RelationshipSpec>)
    ensures |ForeignKeyColumnsOf(rels)| == |Owning(rels)|
    ensures forall i :: 0 <= i < |Owning(rels)| ==> ForeignKeyColumnsOf(rels)[i] == ForeignKeyColumn(Owning(rels)[i])
    decreases |rels|
  {
    if rels != [] {
      ForeignKeyColumnsSpec(rels[..|rels| - 1]);
    }
  }

  /** No column is added exactly when no relationship owns a foreign key. */
  lemma ForeignKeyColumnsEmpty(rels: seq<RelationshipSpec>)
    ensures ForeignKeyColumnsOf(rels) == [] <==> forall x :: x in rels ==> !OwnsForeignKey(x)
  {
    ForeignKeyColumnsSpec(rels);
    OwningSpec(rels);
    if Owning(rels) != [] {
      assert Owning(rels)[0] in rels;
    }
  }

  method ForeignKeyColumns(rels: seq<RelationshipSpec>) returns (columns: seq<string>)
    ensures columns == ForeignKeyColumnsOf(rels)
  {
    columns := [];
    for i := 0 to |rels|
      invariant columns == ForeignKeyColumnsOf(rels[..i])
    {
      assert rels[..i + 1][..i] == rels[..i];
      if OwnsForeignKey(rels[i]) {
        columns := columns + [rels[i].fieldName + "_id BIGINT"];
      }
    }
    assert rels[..|rels|] == rels;
  }

  // ---------------------------------------------------------------------------------------------
  // SQL columns

  /** A default value is written only when it is present and not blank. */
  predicate HasDefault(d: Option<string>) { d.Some? && !IsBlank(d.value) }

  /** The column of one field, built as the StringBuilder does. */
  function Column(f: FieldSpec): string {
    WithClauses(f.name + " " + ToSqlType(f.fieldType), f)
  }

  /** The name and type followed by the NOT NULL, UNIQUE and DEFAULT clauses the field calls for. */
  function WithClauses(typed: string, f: FieldSpec): string {
    var notNull := if f.nullable then typed else typed + " NOT NULL";
    var unique := if f.unique then notNull + " UNIQUE" else notNull;
    if HasDefault(f.defaultValue) then unique + " DEFAULT '" + f.defaultValue.value + "'" else unique
  }

  /** The clauses read back from the column text after the name and type: NOT NULL is there exactly
      for a non-nullable field, UNIQUE exactly for a unique one, and a DEFAULT clause holding the
      value exactly for a non-blank default value. */
  lemma ColumnClauses(typed: string, f: FieldSpec)
    ensures var s := WithClauses(typed, f);
            var n := |typed|;
            var m := n + (if f.nullable then 0 else 9);
            var q := m + (if f.unique then 7 else 0);
            && (!f.nullable <==> n + 1 < |s| && s[n + 1] == 'N')
            && (f.unique <==> m + 1 < |s| && s[m + 1] == 'U')
            && (HasDefault(f.defaultValue) <==> q < |s|)
            && (HasDefault(f.defaultValue) ==> q + 10 < |s| && s[q + 10..|s| - 1] == f.defaultValue.value)
  {
    var s := WithClauses(typed, f);
    var a := if f.nullable then typed else typed + " NOT NULL";
    var b := if f.unique then a + " UNIQUE" else a;
    var n := |typed|;
    var m := |a|;
    var q := |b|;
    assert forall i :: 0 <= i < |b| ==> s[i] == b[i];
    assert forall i :: 0 <= i < |a| ==> b[i] == a[i];
    if !f.nullable {
      assert a[n + 1] == " NOT NULL"[1];
    } else if f.unique {
      assert b[n + 1] == " UNIQUE"[1];
    }
    if f.unique {
      assert b[m + 1] == " UNIQUE"[1];
    }
    if HasDefault(f.defaultValue) {
      var v := f.defaultValue.value;
      var p := " DEFAULT '";
      assert s == b + p + v + "'";
      assert s[q + 1] == p[1];
      forall i | 0 <= i < |v| ensures s[q + 10..|s| - 1][i] == v[i] {
        assert s[q + 10..|s| - 1][i] == s[q + 10 + i] == (b + p + v)[|b + p| + i];
      }
    } else {
      assert s == b;
    }
  }

  /** Two fields with the same name and type and the same column agree on every attribute the
      column shows. */
  lemma ColumnDecides(f: FieldSpec, g: FieldSpec)
    requires f.name == g.name && f.fieldType == g.fieldType && Column(f) == Column(g)
    ensures f.nullable == g.nullable && f.unique == g.unique
    ensures HasDefault(f.defaultValue) == HasDefault(g.defaultValue)
    ensures HasDefault(f.defaultValue) ==> f.defaultValue.value == g.defaultValue.value
  {
    var typed := f.name + " " + ToSqlType(f.fieldType);
    ColumnClauses(typed, f);
    ColumnClauses(typed, g);
  }

  /** The id column opens every column list. */
  const IdColumn: string := "id BIGINT PRIMARY KEY GENERATED ALWAYS AS IDENTITY"

  /** The columns of an entity's table: the id, one per field in order, then the foreign keys. */
  function Columns(d: EntityDefinition): seq<string> {
    [IdColumn] + FieldColumns(d.entity.fields) + ForeignKeyColumnsOf(d.relationships)
  }

  /** The id column, one column per field in order, then one per owning relationship. */
  lemma ColumnsSpec(d: EntityDefinition)
    ensures |Columns(d)| == 1 + |d.entity.fields| + |Owning(d.relationships)|
    ensures Columns(d)[0] == IdColumn
    ensures forall i :: 0 <= i < |d.entity.fields| ==> Columns(d)[1 + i] == Column(d.entity.fields[i])
  {
    ForeignKeyColumnsSpec(d.relationships);
  }

  function FieldColumns(fields: seq<FieldSpec>): seq<string> {
    seq(|fields|, i requires 0 <= i < |fields| => Column(fields[i]))
  }

  /** Each column on its own indented line. */
  function Indented(columns: seq<string>): seq<string> {
    seq(|columns|, i requires 0 <= i < |columns| => "    " + columns[i])
  }

  // ---------------------------------------------------------------------------------------------
  // Constraints

  /** joinTableSql: the join table of a many-to-many relationship, named source_target and keyed by
      the pair of ids, each a foreign key to its table. */
  function JoinTableSql(sourceTable: string, targetTable: string): string {
    var header := "CREATE TABLE " + (sourceTable + "_" + targetTable) + " (\n";
    var sourceColumn := "    " + sourceTable + "_id BIGINT NOT NULL,\n";
    var targetColumn := "    " + targetTable + "_id BIGINT NOT NULL,\n";
    var primaryKey := "    PRIMARY KEY (" + sourceTable + "_id, " + targetTable + "_id),\n";
    var sourceKey := "    FOREIGN KEY (" + sourceTable + "_id) REFERENCES " + sourceTable + "(id),\n";
    var targetKey := "    FOREIGN KEY (" + targetTable + "_id) REFERENCES " + targetTable + "(id)\n";
    header + sourceColumn + targetColumn + primaryKey + sourceKey + targetKey + ");\n\n"
  }

  /** The join table is created under the name source_target, has the composite primary key of
      both ids, and the statement is closed. */
  lemma JoinTableShape(sourceTable: string, targetTable: string)
    ensures StartsWith(JoinTableSql(sourceTable, targetTable), "CREATE TABLE " + (sourceTable + "_" + targetTable) + " (\n")
    ensures Contains(JoinTableSql(sourceTable, targetTable), "    PRIMARY KEY (" + sourceTable + "_id, " + targetTable + "_id),\n")
    ensures EndsWith(JoinTableSql(sourceTable, targetTable), ");\n\n")
  {
    var header := "CREATE TABLE " + (sourceTable + "_" + targetTable) + " (\n";
    var sourceColumn := "    " + sourceTable + "_id BIGINT NOT NULL,\n";
    var targetColumn := "    " + targetTable + "_id BIGINT NOT NULL,\n";
    var primaryKey := "    PRIMARY KEY (" + sourceTable + "_id, " + targetTable + "_id),\n";
    var sourceKey := "    FOREIGN KEY (" + sourceTable + "_id) REFERENCES " + sourceTable + "(id),\n";
    var targetKey := "    FOREIGN KEY (" + targetTable + "_id) REFERENCES " + targetTable + "(id)\n";
    var s1 := header + sourceColumn;
    var s2 := s1 + targetColumn;
    var s3 := s2 + primaryKey;
    var s4 := s3 + sourceKey;
    var s5 := s4 + targetKey;
    StartsWithAppend(header, sourceColumn);
    StartsWithExtend(s1, header, targetColumn);
    StartsWithExtend(s2, header, primaryKey);
    StartsWithExtend(s3, header, sourceKey);
    StartsWithExtend(s4, header, targetKey);
    StartsWithExtend(s5, header, ");\n\n");
    ContainsAppendEnd(s2, primaryKey);
    ContainsExtend(s3, primaryKey, sourceKey);
    ContainsExtend(s4, primaryKey, targetKey);
    ContainsExtend(s5, primaryKey, ");\n\n");
    EndsWithAppend(s5, ");\n\n");
  }

  /** The foreign-key constraint of an owning relationship. */
  function ForeignKeySql(table: string, r: RelationshipSpec, tables: map<string, string>): string {
    var fkColumn := r.fieldName + "_id";
    var reference := ") REFERENCES " + TargetTable(tables, r.target) + "(id);\n";
    "ALTER TABLE " + table + " ADD CONSTRAINT fk_" + table + "_" + fkColumn + " FOREIGN KEY (" + fkColumn + reference
  }

  /** The constraint references the id of the target entity's table. */
  lemma ForeignKeyReferencesTarget(table: string, r: RelationshipSpec, tables: map<string, string>)
    ensures EndsWith(ForeignKeySql(table, r, tables), ") REFERENCES " + TargetTable(tables, r.target) + "(id);\n")
  {
    var fkColumn := r.fieldName + "_id";
    EndsWithAppend("ALTER TABLE " + table + " ADD CONSTRAINT fk_" + table + "_" + fkColumn + " FOREIGN KEY (" + fkColumn,
      ") REFERENCES " + TargetTable(tables, r.target) + "(id);\n");
  }

  /** The statement a relationship adds after the table: a join table, a foreign key, or nothing. */
  function RelationshipSql(table: string, r: RelationshipSpec, tables: map<string, string>): string {
    if r.relType == "ManyToMany" then JoinTableSql(table, TargetTable(tables, r.target))
    else if OwnsForeignKey(r) then ForeignKeySql(table, r, tables)
    else ""
  }

  function RelationshipStatements(table: string, rels: seq<RelationshipSpec>, tables: map<string, string>): string {
    if rels == [] then ""
    else RelationshipStatements(table, rels[..|rels| - 1], tables) + RelationshipSql(table, rels[|rels| - 1], tables)
  }

  /** sqlForEntity: the version comment, the CREATE TABLE with one indented column per line joined by
      ",\n", then the relationship statements in order. */
  function SqlOf(d: EntityDefinition, tables: map<string, string>, version: nat): string {
    var table := d.entity.table;
    "-- V" + NatToString(version) + " create " + table + "\n"
      + "CREATE TABLE " + table + " (\n"
      + Join(Indented(Columns(d)), ",\n")
      + "\n);\n\n"
      + RelationshipStatements(table, d.relationships, tables)
  }

  /** The column list starts with the id column. */
  lemma ColumnListStartsWithId(d: EntityDefinition)
    ensures StartsWith(Join(Indented(Columns(d)), ",\n"), "    " + IdColumn)
  {
    JoinStartsWith(Indented(Columns(d)), ",\n");
  }

  /** The column definitions of the fields, as the column loop of sqlForEntity builds them. */
  method FieldColumnList(fields: seq<FieldSpec>) returns (columns: seq<string>)
    ensures columns == FieldColumns(fields)
  {
    columns := [];
    for i := 0 to |fields|
      invariant columns == FieldColumns(fields[..i])
    {
      var field := fields[i];
      var fieldColumn := field.name + " " + ToSqlType(field.fieldType);
      if !field.nullable {
        fieldColumn := fieldColumn + " NOT NULL";
      }
      if field.unique {
        fieldColumn := fieldColumn + " UNIQUE";
      }
      if field.defaultValue.Some? && !IsBlank(field.defaultValue.value) {
        fieldColumn := fieldColumn + " DEFAULT '" + field.defaultValue.value + "'";
      }
      assert fieldColumn == Column(field);
      columns := columns + [fieldColumn];
      assert FieldColumns(fields[..i + 1]) == FieldColumns(fields[..i]) + [Column(field)];
    }
    assert fields[..|fields|] == fields;
  }

  /** The relationship statements, as the relationship loop of sqlForEntity appends them. */
  method RelationshipStatementList(table: string, rels: seq<RelationshipSpec>, tables: map<string, string>) returns (statements: string)
    ensures statements == RelationshipStatements(table, rels, tables)
  {
    statements := "";
    for i := 0 to |rels|
      invariant statements == RelationshipStatements(table, rels[..i], tables)
    {
      assert rels[..i + 1][..i] == rels[..i];
      var relationship := rels[i];
      if relationship.relType == "ManyToMany" {
        statements := statements + JoinTableSql(table, TargetTable(tables, relationship.target));
      } else if relationship.relType == "ManyToOne" || relationship.relType == "OneToOne" {
        var targetTable := TargetTable(tables, relationship.target);
        var fkColumn := relationship.fieldName + "_id";
        var reference := ") REFERENCES " + targetTable + "(id);\n";
        var statement := "ALTER TABLE " + table + " ADD CONSTRAINT fk_" + table + "_" + fkColumn + " FOREIGN KEY (" + fkColumn + reference;
        statements := statements + statement;
      }
    }
    assert rels[..|rels|] == rels;
  }

  method SqlForEntity(d: EntityDefinition, tables: map<string, string>, version: nat) returns (out: string)
    ensures out == SqlOf(d, tables, version)
  {
    var table := d.entity.table;
    out := "-- V" + NatToString(version) + " create " + table + "\n";
    out := out + "CREATE TABLE " + table + " (\n";
    var fieldColumns := FieldColumnList(d.entity.fields);
    var fks := ForeignKeyColumns(d.relationships);
    var columns := [IdColumn] + fieldColumns + fks;
    assert columns == Columns(d);
    out := out + Join(Indented(columns), ",\n");
    out := out + "\n);\n\n";
    var statements := RelationshipStatementList(table, d.relationships, tables);
    out := out + statements;
  }

  // ---------------------------------------------------------------------------------------------
  // Liquibase changelog

  /** A character that ends the first part of a split at " ". */
  predicate NotSpace(c: char) { c != ' ' }

  /** fkColumn.split(" ")[0]: the text before the first space. */
  function ColumnName(fkColumn: string): (r: string)
    ensures ' ' !in r
  {
    fkColumn[..Span(fkColumn, 0, NotSpace)]
  }

  /** A relationship property without spaces gives the column "fieldName_id". */
  lemma ColumnNameOfForeignKey(r: RelationshipSpec)
    requires ' ' !in r.fieldName
    ensures ColumnName(ForeignKeyColumn(r)) == r.fieldName + "_id"
  {
    var s := ForeignKeyColumn(r);
    var name := r.fieldName + "_id";
    var k := |name|;
    assert s == name + " BIGINT";
    assert s[k] == ' ';
    assert forall i :: 0 <= i < k ==> s[i] == name[i] && NotSpace(s[i]);
    var j := Span(s, 0, NotSpace);
    assert j == k;
    assert s[..k] == name;
  }

  const XmlHead: string :=
    "<?xml version=\"1.0\" encoding=\"UTF-8\"?>\n"
      + "<databaseChangeLog\n"
      + "        xmlns=\"http://www.liquibase.org/xml/ns/dbchangelog\"\n"
      + "        xmlns:xsi=\"http://www.w3.org/2001/XMLSchema-instance\"\n"
      + "        xsi:schemaLocation=\"http://www.liquibase.org/xml/ns/dbchangelog\n"
      + "        http://www.liquibase.org/xml/ns/dbchangelog/dbchangelog-4.20.xsd\">\n\n"

  const XmlTail: string := "    </changeSet>\n" + "</databaseChangeLog>\n"

  function XmlColumn(f: FieldSpec): string {
    "            <column name=\"" + f.name + "\" type=\"" + ToSqlType(f.fieldType) + "\">\n"
      + "                <constraints nullable=\"" + BoolToString(f.nullable) + "\" unique=\"" + BoolToString(f.unique) + "\"/>\n"
      + "            </column>\n"
  }

  function XmlForeignKeyColumn(fkColumn: string): string {
    "            <column name=\"" + ColumnName(fkColumn) + "\" type=\"BIGINT\"/>\n"
  }

  function XmlConstraint(table: string, r: RelationshipSpec, tables: map<string, string>): string {
    if OwnsForeignKey(r) then
      "        <addForeignKeyConstraint baseTableName=\"" + table
        + "\" baseColumnNames=\"" + r.fieldName + "_id"
        + "\" referencedTableName=\"" + TargetTable(tables, r.target)
        + "\" referencedColumnNames=\"id\"/>\n"
    else ""
  }

  function XmlConstraints(table: string, rels: seq<RelationshipSpec>, tables: map<string, string>): string {
    if rels == [] then ""
    else XmlConstraints(table, rels[..|rels| - 1], tables) + XmlConstraint(table, rels[|rels| - 1], tables)
  }

  /** The changeSet header: its id "v{version}-create-{table}" and the createTable with the id column. */
  function XmlChangeSetHead(table: string, version: nat): string {
    var id := "v" + NatToString(version) + "-create-" + table;
    "    <changeSet id=\"" + id + "\" author=\"rest-api-generator\">\n"
      + "        <createTable tableName=\"" + table + "\">\n"
      + "            <column name=\"id\" type=\"BIGINT\" autoIncrement=\"true\">\n"
      + "                <constraints primaryKey=\"true\" nullable=\"false\"/>\n"
      + "            </column>\n"
  }

  /** liquibaseForEntity: one changeSet creating the table, then the foreign-key constraints. */
  function LiquibaseOf(d: EntityDefinition, tables: map<string, string>, version: nat): string {
    var table := d.entity.table;
    XmlHead + XmlChangeSetHead(table, version)
      + Emit(d.entity.fields, XmlColumn)
      + Emit(ForeignKeyColumnsOf(d.relationships), XmlForeignKeyColumn)
      + "        </createTable>\n"
      + XmlConstraints(table, d.relationships, tables)
      + XmlTail
  }

  /** The changelog is an XML document that closes its changeSet and root element. */
  lemma LiquibaseFrame(d: EntityDefinition, tables: map<string, string>, version: nat)
    ensures StartsWith(LiquibaseOf(d, tables, version), XmlHead)
    ensures EndsWith(LiquibaseOf(d, tables, version), XmlTail)
  {
    var table := d.entity.table;
    var s1 := XmlHead + XmlChangeSetHead(table, version);
    var s2 := s1 + Emit(d.entity.fields, XmlColumn);
    var s3 := s2 + Emit(ForeignKeyColumnsOf(d.relationships), XmlForeignKeyColumn);
    var s4 := s3 + "        </createTable>\n";
    var s5 := s4 + XmlConstraints(table, d.relationships, tables);
    StartsWithAppend(XmlHead, XmlChangeSetHead(table, version));
    StartsWithExtend(s1, XmlHead, Emit(d.entity.fields, XmlColumn));
    StartsWithExtend(s2, XmlHead, Emit(ForeignKeyColumnsOf(d.relationships), XmlForeignKeyColumn));
    StartsWithExtend(s3, XmlHead, "        </createTable>\n");
    StartsWithExtend(s4, XmlHead, XmlConstraints(table, d.relationships, tables));
    StartsWithExtend(s5, XmlHead, XmlTail);
    EndsWithAppend(s5, XmlTail);
  }

  /** The column elements of the fields, as the first loop of liquibaseForEntity appends them. */
  method XmlColumnLines(fields: seq<FieldSpec>) returns (columns: string)
    ensures columns == Emit(fields, XmlColumn)
  {
    columns := "";
    for i := 0 to |fields|
      invariant columns == Emit(fields[..i], XmlColumn)
    {
      assert fields[..i + 1][..i] == fields[..i];
      var field := fields[i];
      var column := "            <column name=\"" + field.name + "\" type=\"" + ToSqlType(field.fieldType) + "\">\n"
        + "                <constraints nullable=\"" + BoolToString(field.nullable) + "\" unique=\"" + BoolToString(field.unique) + "\"/>\n"
        + "            </column>\n";
      columns := columns + column;
    }
    assert fields[..|fields|] == fields;
  }

  /** The column elements of the foreign-key columns, as the second loop appends them. */
  method XmlForeignKeyLines(fks: seq<string>) returns (lines: string)
    ensures lines == Emit(fks, XmlForeignKeyColumn)
  {
    lines := "";
    for i := 0 to |fks|
      invariant lines == Emit(fks[..i], XmlForeignKeyColumn)
    {
      assert fks[..i + 1][..i] == fks[..i];
      var line := "            <column name=\"" + ColumnName(fks[i]) + "\" type=\"BIGINT\"/>\n";
      lines := lines + line;
    }
    assert fks[..|fks|] == fks;
  }

  /** The addForeignKeyConstraint elements, as the third loop appends them. */
  method XmlConstraintLines(table: string, rels: seq<RelationshipSpec>, tables: map<string, string>) returns (constraints: string)
    ensures constraints == XmlConstraints(table, rels, tables)
  {
    constraints := "";
    for i := 0 to |rels|
      invariant constraints == XmlConstraints(table, rels[..i], tables)
    {
      assert rels[..i + 1][..i] == rels[..i];
      var relationship := rels[i];
      if relationship.relType == "ManyToOne" || relationship.relType == "OneToOne" {
        var line := "        <addForeignKeyConstraint baseTableName=\"" + table
          + "\" baseColumnNames=\"" + relationship.fieldName + "_id"
          + "\" referencedTableName=\"" + TargetTable(tables, relationship.target)
          + "\" referencedColumnNames=\"id\"/>\n";
        constraints := constraints + line;
      }
    }
    assert rels[..|rels|] == rels;
  }

  method LiquibaseForEntity(d: EntityDefinition, tables: map<string, string>, version: nat) returns (out: string)
    ensures out == LiquibaseOf(d, tables, version)
  {
    var table := d.entity.table;
    out := XmlHead + XmlChangeSetHead(table, version);
    var columns := XmlColumnLines(d.entity.fields);
    var fks := ForeignKeyColumns(d.relationships);
    var fkLines := XmlForeignKeyLines(fks);
    out := out + columns + fkLines + "        </createTable>\n";
    var constraints := XmlConstraintLines(table, d.relationships, tables);
    out := out + constraints + XmlTail;
  }

  // ---------------------------------------------------------------------------------------------
  // generate

  /** The file of the entity with the given version number. */
  function FileFor(tool: string, d: EntityDefinition, tables: map<string, string>, version: nat): GeneratedFile {
    GeneratedFile(
      MigrationFilePath(tool, version, d.entity.table),
      if tool == "liquibase" then LiquibaseOf(d, tables, version) else SqlOf(d, tables, version))
  }

  /** The lower-cased migration tool of the configuration. */
  function ToolOf(context: PluginContext): string {
    Lower(context.config.standards.database.migrationTool)
  }

  /** The files of the entities, the k-th made with version k + 1, as the loop appends them. */
  function Files(entities: seq<EntityDefinition>, make: (EntityDefinition, nat) -> GeneratedFile): seq<GeneratedFile> {
    if entities == [] then []
    else Files(entities[..|entities| - 1], make) + [make(entities[|entities| - 1], |entities|)]
  }

  /** One file per entity, in entity order, with versions 1..n. */
  lemma {:induction false} FilesSpec(entities: seq<EntityDefinition>, make: (EntityDefinition, nat) -> GeneratedFile)
    ensures |Files(entities, make)| == |entities|
    ensures forall k :: 0 <= k < |entities| ==> Files(entities, make)[k] == make(entities[k], k + 1)
    decreases |entities|
  {
    if entities != [] {
      var init := entities[..|entities| - 1];
      FilesSpec(init, make);
      assert forall k :: 0 <= k < |init| ==> init[k] == entities[k];
    }
  }

  /** The file of each entity and version, for one tool and table map. */
  function FileMaker(tool: string, tables: map<string, string>): (EntityDefinition, nat) -> GeneratedFile {
    (d: EntityDefinition, version: nat) => FileFor(tool, d, tables, version)
  }

  /** generate: no files for tool "none" (any case), otherwise the files of all entities. */
  function GenerateOf(spec: ApiSpecification, context: PluginContext): seq<GeneratedFile> {
    var tool := ToolOf(context);
    if tool == "none" then [] else Files(spec.entities, FileMaker(tool, TableMap(spec.entities)))
  }

  /** Tool "none" gives no files; any other tool one per entity, in entity order, the k-th with
      version k + 1 and the path of its table. */
  lemma GenerateSpec(spec: ApiSpecification, context: PluginContext)
    ensures ToolOf(context) == "none" ==> GenerateOf(spec, context) == []
    ensures ToolOf(context) != "none" ==> |GenerateOf(spec, context)| == |spec.entities|
    ensures ToolOf(context) != "none" ==> forall k :: 0 <= k < |spec.entities| ==>
              GenerateOf(spec, context)[k] == FileFor(ToolOf(context), spec.entities[k], TableMap(spec.entities), k + 1)
  {
    FilesSpec(spec.entities, FileMaker(ToolOf(context), TableMap(spec.entities)));
  }

  /** The k-th file of a run lies at the migration path of the k-th entity's table, version k + 1. */
  lemma GeneratedPaths(spec: ApiSpecification, context: PluginContext)
    ensures forall k :: 0 <= k < |GenerateOf(spec, context)| ==>
              k < |spec.entities| &&
              GenerateOf(spec, context)[k].path == MigrationFilePath(ToolOf(context), k + 1, spec.entities[k].entity.table)
  {
    GenerateSpec(spec, context);
  }

  /** Every migration of one run has a file of its own. */
  lemma GeneratedPathsDistinct(spec: ApiSpecification, context: PluginContext, j: nat, k: nat)
    requires j < k < |GenerateOf(spec, context)|
    ensures GenerateOf(spec, context)[j].path != GenerateOf(spec, context)[k].path
  {
    var tool := ToolOf(context);
    var files := GenerateOf(spec, context);
    GeneratedPaths(spec, context);
    assert files[j].path == MigrationFilePath(tool, j + 1, spec.entities[j].entity.table);
    assert files[k].path == MigrationFilePath(tool, k + 1, spec.entities[k].entity.table);
    MigrationFilePathVersion(ToolOf(context), j + 1, spec.entities[j].entity.table, k + 1, spec.entities[k].entity.table);
  }

  /** generate's loop over the entities: the file of each entity, numbered from version 1. */
  method CollectFiles(entities: seq<EntityDefinition>, make: (EntityDefinition, nat) -> GeneratedFile) returns (out: seq<GeneratedFile>)
    ensures out == Files(entities, make)
  {
    out := [];
    var version := 1;
    for i := 0 to |entities|
      invariant version == i + 1
      invariant out == Files(entities[..i], make)
    {
      assert entities[..i + 1][..i] == entities[..i];
      var definition := entities[i];
      out := out + [make(definition, version)];
      version := version + 1;
    }
    assert entities[..|entities|] == entities;
  }

  method Generate(spec: ApiSpecification, context: PluginContext) returns (out: seq<GeneratedFile>)
    ensures out == GenerateOf(spec, context)
  {
    var tool := Lower(context.config.standards.database.migrationTool);
    if tool == "none" {
      return [];
    }
    var tables := BuildTableMap(spec.entities);
    out := CollectFiles(spec.entities, FileMaker(tool, tables));
  }
}
