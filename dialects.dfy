/**
 * The dialect capability interface (SQLDialect) and its two variants modelled here, H2 and
 * SQLite, as a closed datatype with functions and methods over it. Both variants extend
 * SQLDialectDefault, which is not part of this model: the members they inherit from it
 * are gathered in a DialectDefault record passed to every operation.
 */
module Dialects {
  import opened Wrappers
  import opened Text
  import opened Iciql
  import opened Fields

  datatype Dialect = H2 | SQLite

  /** The SQLDialectDefault members that H2 and SQLite inherit, as parameters. */
  datatype DialectDefault = DialectDefault(
    prepareTableName: (Option<string>, string) -> string,
    prepareColumnName: string -> string,
    supportsMemoryTables: bool,
    supportsMerge: bool,
    supportsSavePoints: bool,
    supportsLimitOffset: bool,
    createTablePrefix: string,
    createViewPrefix: string,
    prepareDropView: (Option<string>, string) -> string,
    serialize: (Value, FieldDefinition) -> Value)

  /** A parameterised statement: SQL text with one '?' per parameter, and the parameters in order. */
  datatype Statement = Statement(sql: string, params: seq<Value>)

  // ------------------------------------------------- capability flags

  function SupportsMemoryTables(d: Dialect, base: DialectDefault): bool
  {
    match d
    case H2 => true
    case SQLite => base.supportsMemoryTables
  }

  function SupportsMerge(d: Dialect, base: DialectDefault): bool
  {
    match d
    case H2 => true
    case SQLite => base.supportsMerge
  }

  function SupportsSavePoints(d: Dialect, base: DialectDefault): bool
  {
    match d
    case H2 => base.supportsSavePoints
    case SQLite => false
  }

  function SupportsLimitOffset(d: Dialect, base: DialectDefault): bool
  {
    base.supportsLimitOffset
  }

  /** What each variant overrides: H2 memory tables and MERGE, SQLite's lack of savepoints. */
  lemma Capabilities(base: DialectDefault)
    ensures SupportsMemoryTables(H2, base) && SupportsMerge(H2, base)
    ensures !SupportsSavePoints(SQLite, base)
    ensures forall d :: SupportsLimitOffset(d, base) == base.supportsLimitOffset
  {
  }

  // ------------------------------------------------- names, tables and views

  /** prepareTableName: the schema is optional (None plays Java's null). */
  function PrepareTableName(d: Dialect, base: DialectDefault, schema: Option<string>, table: string): string
  {
    base.prepareTableName(schema, table)
  }

  function PrepareColumnName(d: Dialect, base: DialectDefault, name: string): string
  {
    base.prepareColumnName(name)
  }

  /** The CREATE TABLE keyword phrase: SQLite always asks for IF NOT EXISTS. */
  function CreateTablePrefix(d: Dialect, base: DialectDefault): string
  {
    match d
    case H2 => base.createTablePrefix
    case SQLite => "CREATE TABLE IF NOT EXISTS"
  }

  /** The CREATE VIEW keyword phrase: SQLite always asks for IF NOT EXISTS. */
  function CreateViewPrefix(d: Dialect, base: DialectDefault): string
  {
    match d
    case H2 => base.createViewPrefix
    case SQLite => "CREATE VIEW IF NOT EXISTS"
  }

  /** The DROP VIEW statement; SQLite's drops only a view that exists. */
  function DropViewText(d: Dialect, base: DialectDefault, schema: Option<string>, table: string): string
  {
    match d
    case H2 => base.prepareDropView(schema, table)
    case SQLite => "DROP VIEW IF EXISTS " + PrepareTableName(d, base, schema, table)
  }

  /** The SQLite phrases, independent of what the default dialect would have said. */
  lemma SqliteTablePhrases(base: DialectDefault, schema: Option<string>, table: string)
    ensures CreateTablePrefix(SQLite, base) == "CREATE TABLE IF NOT EXISTS"
    ensures CreateViewPrefix(SQLite, base) == "CREATE VIEW IF NOT EXISTS"
    ensures DropViewText(SQLite, base, schema, table) ==
            "DROP VIEW IF EXISTS " + base.prepareTableName(schema, table)
  {
  }

  // ------------------------------------------------- LIMIT and OFFSET

  /** appendLimit: the statement followed by "LIMIT <limit>". */
  function AppendLimit(sql: string, limit: int): string
  {
    sql + " LIMIT " + IntToString(limit)
  }

  /** appendOffset: the statement followed by "OFFSET <offset>". */
  function AppendOffset(sql: string, offset: int): string
  {
    sql + " OFFSET " + IntToString(offset)
  }

  /** The clauses keep the statement as a prefix, and the number can be read back from them. */
  lemma LimitOffsetRoundTrip(sql: string, limit: int, offset: int)
    ensures var s := AppendLimit(sql, limit);
            s[..|sql| + 7] == sql + " LIMIT " && ParseInt(s[|sql| + 7..]) == Some(limit)
    ensures var s := AppendOffset(sql, offset);
            s[..|sql| + 8] == sql + " OFFSET " && ParseInt(s[|sql| + 8..]) == Some(offset)
  {
    ParseIntToString(limit);
    ParseIntToString(offset);
    assert AppendLimit(sql, limit)[|sql| + 7..] == IntToString(limit);
    assert AppendOffset(sql, offset)[|sql| + 8..] == IntToString(offset);
  }

  // ------------------------------------------------- CREATE INDEX

  /** The keyword placed between CREATE and INDEX. SQLite has no hash indexes. */
  function IndexKeyword(d: Dialect, kind: IndexType): string
  {
    match d
    case H2 => (
      match kind
      case Standard => ""
      case Unique => "UNIQUE "
      case Hash => "HASH "
      case UniqueHash => "UNIQUE HASH ")
    case SQLite => (
      match kind
      case Unique => "UNIQUE "
      case UniqueHash => "UNIQUE "
      case _ => "")
  }

  /** Whether the dialect logs "does not support hash indexes" for this kind (SQLite's default branch). */
  predicate WarnsOnIndex(d: Dialect, kind: IndexType)
  {
    d == SQLite && (kind == Standard || kind == Hash)
  }

  /** The index kind with hashing dropped: what SQLite creates instead. */
  function WithoutHash(kind: IndexType): IndexType
  {
    match kind
    case Hash => Standard
    case UniqueHash => Unique
    case k => k
  }

  /** SQLite downgrades hash indexes: its keyword is H2's keyword for the kind without hashing. */
  lemma SqliteDowngradesHash(kind: IndexType)
    ensures IndexKeyword(SQLite, kind) == IndexKeyword(H2, WithoutHash(kind))
    ensures IndexKeyword(SQLite, kind) in {"", "UNIQUE "}
    ensures WarnsOnIndex(SQLite, kind) <==> WithoutHash(kind) == Standard
    ensures !WarnsOnIndex(H2, kind)
  {
  }

  /**
   * As written, SQLite's "does not support hash indexes" warning fires for a standard index,
   * which asks for no hashing, and stays silent for a unique hash index, whose hashing is dropped.
   */
  lemma WarnsOnIndexMisfires()
    ensures WarnsOnIndex(SQLite, Standard) && WithoutHash(Standard) == Standard
    ensures !WarnsOnIndex(SQLite, UniqueHash) && WithoutHash(UniqueHash) != UniqueHash
  {
  }

  /** The warning as intended: logged exactly when the dialect drops hashing the index asks for. */
  predicate WarnsOnHashIndex(d: Dialect, kind: IndexType)
  {
    d == SQLite && WithoutHash(kind) != kind
  }

  /** The intended warning fires exactly when the dialect writes a different kind than H2 would. */
  lemma WarnsOnHashIndexExactly(d: Dialect, kind: IndexType)
    ensures WarnsOnHashIndex(d, kind) <==> IndexKeyword(d, kind) != IndexKeyword(H2, kind)
    ensures WarnsOnHashIndex(d, kind) <==> d == SQLite && (kind == Hash || kind == UniqueHash)
  {
  }

  /** The index columns as the dialect writes them: H2 verbatim, SQLite through prepareColumnName. */
  function IndexColumns(d: Dialect, base: DialectDefault, cols: seq<string>): seq<string>
  {
    match d
    case H2 => cols
    case SQLite => Apply(base.prepareColumnName, cols)
  }

  lemma IndexColumnsStep(d: Dialect, base: DialectDefault, cols: seq<string>, i: nat)
    requires i < |cols|
    ensures IndexColumns(d, base, cols[..i + 1]) ==
            IndexColumns(d, base, cols[..i]) + [if d == H2 then cols[i] else base.prepareColumnName(cols[i])]
  {
    assert cols[..i + 1] == cols[..i] + [cols[i]];
    if d == SQLite {
      ApplySnoc(base.prepareColumnName, cols[..i], cols[i]);
    }
  }

  /** The CREATE INDEX statement for `index` on table `table`. */
  function CreateIndexText(d: Dialect, base: DialectDefault, table: string, index: IndexDefinition): string
  {
    "CREATE " + (IndexKeyword(d, index.kind) + ("INDEX IF NOT EXISTS " + (index.indexName + (" ON " + (table +
    ("(" + (Join(", ", IndexColumns(d, base, index.columnNames)) + ")")))))))
  }

  /** SQLite's index statement is H2's for the downgraded kind and the prepared column names. */
  lemma SqliteIndexIsDowngradedH2Index(base: DialectDefault, table: string, index: IndexDefinition)
    ensures CreateIndexText(SQLite, base, table, index) ==
            CreateIndexText(H2, base, table,
                            IndexDefinition(WithoutHash(index.kind), index.indexName,
                                            Apply(base.prepareColumnName, index.columnNames)))
  {
    SqliteDowngradesHash(index.kind);
  }

  /** The first and the last character of a concatenation. */
  lemma EndsOfAppend<T>(a: seq<T>, b: seq<T>)
    requires |a| > 0 && |b| > 0
    ensures (a + b)[0] == a[0] && (a + b)[|a + b| - 1] == b[|b| - 1]
  {
  }

  /** Prepending keeps the last character. */
  lemma LastOfAppend<T>(a: seq<T>, b: seq<T>)
    requires |b| > 0
    ensures |a + b| > 0 && (a + b)[|a + b| - 1] == b[|b| - 1]
  {
  }

  /** The index statement starts with "CREATE " and ends with the closing parenthesis. */
  lemma CreateIndexTextEnds(d: Dialect, base: DialectDefault, table: string, index: IndexDefinition)
    ensures var t := CreateIndexText(d, base, table, index);
            |t| > 0 && t[0] == 'C' && t[|t| - 1] == ')'
  {
    var tail := Join(", ", IndexColumns(d, base, index.columnNames)) + ")";
    LastOfAppend(Join(", ", IndexColumns(d, base, index.columnNames)), ")");
    LastOfAppend("(", tail);
    LastOfAppend(table, "(" + tail);
    LastOfAppend(" ON ", table + ("(" + tail));
    LastOfAppend(index.indexName, " ON " + (table + ("(" + tail)));
    LastOfAppend("INDEX IF NOT EXISTS ", index.indexName + (" ON " + (table + ("(" + tail))));
    LastOfAppend(IndexKeyword(d, index.kind), "INDEX IF NOT EXISTS " + (index.indexName + (" ON " + (table + ("(" + tail)))));
    EndsOfAppend("CREATE ", IndexKeyword(d, index.kind) + ("INDEX IF NOT EXISTS " + (index.indexName + (" ON " + (table + ("(" + tail))))));
  }

  /** The column loop of prepareCreateIndex: the index's columns, comma-separated, prepared on SQLite. */
  method IndexColumnList(d: Dialect, base: DialectDefault, cols: seq<string>) returns (list: string)
    ensures list == Join(", ", IndexColumns(d, base, cols))
  {
    list := "";
    var i := 0;
    while i < |cols|
      invariant 0 <= i <= |cols|
      invariant list == Join(", ", IndexColumns(d, base, cols[..i]))
    {
      var col := if d == H2 then cols[i] else base.prepareColumnName(cols[i]);
      IndexColumnsStep(d, base, cols, i);
      JoinSnoc(", ", IndexColumns(d, base, cols[..i]), col);
      if i > 0 {
        list := list + ", ";
      }
      list := list + col;
      i := i + 1;
    }
    assert cols[..i] == cols;
  }

  /**
   * prepareCreateIndex: builds the statement through the kind switch and the column loop.
   * The schema is not used; SQLite trims the trailing blank its builder leaves.
   */
  method PrepareCreateIndex(d: Dialect, base: DialectDefault, schema: Option<string>, table: string,
                            index: IndexDefinition)
    returns (sql: string)
    ensures sql == CreateIndexText(d, base, table, index)
  {
    var columns := IndexColumnList(d, base, index.columnNames);
    sql := "CREATE " + (IndexKeyword(d, index.kind) + ("INDEX IF NOT EXISTS " + (index.indexName + (" ON " + (table +
           ("(" + (columns + ")")))))));
    if d == SQLite {
      CreateIndexTextEnds(d, base, table, index);
      JavaTrimTrailing(sql, " ");
      sql := JavaTrim(sql + " ");
    }
  }

  // ------------------------------------------------- MERGE / INSERT OR REPLACE

  /** The statement keyword: a native MERGE on H2, an INSERT OR REPLACE on SQLite. */
  function MergeHead(d: Dialect): string
  {
    match d
    case H2 => "MERGE INTO "
    case SQLite => "INSERT OR REPLACE INTO "
  }

  /** H2 names the key columns; SQLite relies on the table's own key. */
  function MergeKeyClause(d: Dialect, fs: seq<FieldDefinition>): string
  {
    match d
    case H2 => ") KEY(" + Join(", ", ColumnNames(KeyFields(fs))) + ") "
    case SQLite => ") "
  }

  /** The merge statement's text for the fields `fs`. */
  function MergeText(d: Dialect, base: DialectDefault, schema: Option<string>, table: string,
                     fs: seq<FieldDefinition>): string
  {
    MergeHead(d) + PrepareTableName(d, base, schema, table) + " (" + Join(", ", ColumnNames(fs)) +
    MergeKeyClause(d, fs) + "VALUES (" + Placeholders(|fs|) + ")"
  }

  /** The parameter bound for one field: its converted value, serialized on SQLite. */
  function MergeParameter(d: Dialect, base: DialectDefault, v: Value, f: FieldDefinition): Value
  {
    match d
    case H2 => v
    case SQLite => base.serialize(v, f)
  }

  function MergeParameters(d: Dialect, base: DialectDefault, fs: seq<FieldDefinition>, vs: seq<Value>)
    : (r: seq<Value>)
    requires |fs| == |vs|
    ensures |r| == |fs| && forall k :: 0 <= k < |fs| ==> r[k] == MergeParameter(d, base, vs[k], fs[k])
  {
    if fs == [] then []
    else MergeParameters(d, base, fs[..|fs| - 1], vs[..|vs| - 1]) + [MergeParameter(d, base, vs[|vs| - 1], fs[|fs| - 1])]
  }

  /** The merge statement, or the conversion error of the first field that fails. */
  function MergeStatement(d: Dialect, base: DialectDefault, schema: Option<string>, table: string,
                          fs: seq<FieldDefinition>, obj: Instance): Result<Statement, Error>
  {
    match ConvertedValues(obj, fs)
    case Failure(e) => Failure(e)
    case Success(vs) => Success(Statement(MergeText(d, base, schema, table, fs), MergeParameters(d, base, fs, vs)))
  }

  /**
   * The shape of a merge: one placeholder and one parameter per field, in field order; the
   * H2 KEY list is an order-preserving selection of the column list; SQLite has no KEY list.
   */
  lemma MergeShape(d: Dialect, base: DialectDefault, schema: Option<string>, table: string,
                   fs: seq<FieldDefinition>, obj: Instance)
    requires MergeStatement(d, base, schema, table, fs, obj).Success?
    ensures var st := MergeStatement(d, base, schema, table, fs, obj).value;
            |st.params| == |fs| && Occurrences(Placeholders(|fs|), '?') == |st.params| &&
            EndsWith(st.sql, "VALUES (" + Placeholders(|fs|) + ")") &&
            forall k :: 0 <= k < |fs| ==>
              GetValue(obj, fs[k]).Success? &&
              st.params[k] == MergeParameter(d, base, GetValue(obj, fs[k]).value, fs[k])
    ensures IsSubsequence(ColumnNames(KeyFields(fs)), ColumnNames(fs))
  {
    ConvertedValuesSpec(obj, fs);
    PlaceholderCount(|fs|);
    MergeTextEnds(d, base, schema, table, fs);
    KeyFieldsAreSelection(fs);
    ColumnNamesOfSubsequence(KeyFields(fs), fs);
  }

  /** The merge text is closed by its VALUES list. */
  lemma {:induction false} MergeTextEnds(d: Dialect, base: DialectDefault, schema: Option<string>, table: string,
                      fs: seq<FieldDefinition>)
    ensures EndsWith(MergeText(d, base, schema, table, fs), "VALUES (" + Placeholders(|fs|) + ")")
  {
    var head := MergeHead(d) + PrepareTableName(d, base, schema, table) + " (" + Join(", ", ColumnNames(fs)) +
                MergeKeyClause(d, fs);
    EndsWithLastThree(head, "VALUES (", Placeholders(|fs|), ")");
  }

  /** The column loop of prepareMerge: the names, comma-separated. */
  method MergeColumnList(fs: seq<FieldDefinition>) returns (sql: string)
    ensures sql == Join(", ", ColumnNames(fs))
  {
    sql := "";
    var i := 0;
    while i < |fs|
      invariant 0 <= i <= |fs|
      invariant sql == Join(", ", ColumnNames(fs[..i]))
    {
      assert fs[..i + 1][..i] == fs[..i];
      JoinSnoc(", ", ColumnNames(fs[..i]), fs[i].columnName);
      if i > 0 {
        sql := sql + ", ";
      }
      sql := sql + fs[i].columnName;
      i := i + 1;
    }
    assert fs[..i] == fs;
  }

  /** H2's KEY loop: the names of the primary-key fields, comma-separated, in field order. */
  method MergeKeyList(fs: seq<FieldDefinition>) returns (sql: string)
    ensures sql == Join(", ", ColumnNames(KeyFields(fs)))
  {
    sql := "";
    var keys: seq<string> := [];
    var i := 0;
    while i < |fs|
      invariant 0 <= i <= |fs|
      invariant keys == ColumnNames(KeyFields(fs[..i]))
      invariant sql == Join(", ", keys)
    {
      KeyNamesStep(fs, i);
      if fs[i].isPrimaryKey {
        JoinSnoc(", ", keys, fs[i].columnName);
        if |keys| > 0 {
          sql := sql + ", ";
        }
        sql := sql + fs[i].columnName;
        keys := keys + [fs[i].columnName];
      }
      i := i + 1;
    }
    assert fs[..i] == fs;
  }

  /** What the merge value loop has built after the first `i` fields. */
  ghost predicate MergeValuesSoFar(d: Dialect, base: DialectDefault, obj: Instance, fs: seq<FieldDefinition>, i: nat,
                                   sql: string, params: seq<Value>)
  {
    i <= |fs| && sql == Placeholders(i) && ConvertedValues(obj, fs[..i]).Success? &&
    params == MergeParameters(d, base, fs[..i], ConvertedValues(obj, fs[..i]).value)
  }

  /** One step of the merge value loop: a placeholder, then field i's converted and bound value. */
  lemma MergeValuesStep(d: Dialect, base: DialectDefault, obj: Instance, fs: seq<FieldDefinition>, i: nat,
                        sql: string, params: seq<Value>)
    requires i < |fs| && MergeValuesSoFar(d, base, obj, fs, i, sql, params) && GetValue(obj, fs[i]).Success?
    ensures MergeValuesSoFar(d, base, obj, fs, i + 1, (if i > 0 then sql + ", " else sql) + "?",
                             params + [MergeParameter(d, base, GetValue(obj, fs[i]).value, fs[i])])
  {
    var vs := ConvertedValues(obj, fs[..i]).value;
    var v := GetValue(obj, fs[i]).value;
    PlaceholdersStep(i);
    ConvertedValuesStep(obj, fs, i, vs);
    assert fs[..i + 1][..i] == fs[..i];
    assert (vs + [v])[..i] == vs;
  }

  /** After the last field the loop has built the whole placeholder list and parameter list. */
  lemma MergeValuesDone(d: Dialect, base: DialectDefault, obj: Instance, fs: seq<FieldDefinition>,
                        sql: string, params: seq<Value>)
    requires MergeValuesSoFar(d, base, obj, fs, |fs|, sql, params)
    ensures ConvertedValues(obj, fs).Success? && sql == Placeholders(|fs|) &&
            params == MergeParameters(d, base, fs, ConvertedValues(obj, fs).value)
  {
    assert fs[..|fs|] == fs;
  }

  /**
   * The value loop of prepareMerge: one placeholder per field, and each field's converted
   * value bound in order; the first conversion that fails ends the statement.
   */
  method MergeValues(d: Dialect, base: DialectDefault, fs: seq<FieldDefinition>, obj: Instance)
    returns (r: Result<(string, seq<Value>), Error>)
    ensures ConvertedValues(obj, fs).Failure? ==> r == Failure(ConvertedValues(obj, fs).error)
    ensures ConvertedValues(obj, fs).Success? ==>
              r == Success((Placeholders(|fs|), MergeParameters(d, base, fs, ConvertedValues(obj, fs).value)))
  {
    var sql := "";
    var params: seq<Value> := [];
    var i := 0;
    assert fs[..0] == [];
    while i < |fs|
      invariant MergeValuesSoFar(d, base, obj, fs, i, sql, params)
    {
      var value := GetValue(obj, fs[i]);
      if value.Failure? {
        ConvertedValuesStepFailure(obj, fs, i);
        return Failure(value.error);
      }
      MergeValuesStep(d, base, obj, fs, i, sql, params);
      if i > 0 {
        sql := sql + ", ";
      }
      sql := sql + "?";
      params := params + [MergeParameter(d, base, value.value, fs[i])];
      i := i + 1;
    }
    MergeValuesDone(d, base, obj, fs, sql, params);
    r := Success((sql, params));
  }

  /** prepareMerge: the column list, H2's KEY list, then the converted and bound values. */
  method PrepareMerge(d: Dialect, base: DialectDefault, schema: Option<string>, table: string,
                      fs: seq<FieldDefinition>, obj: Instance)
    returns (r: Result<Statement, Error>)
    ensures r == MergeStatement(d, base, schema, table, fs, obj)
  {
    var sql := MergeHead(d) + PrepareTableName(d, base, schema, table) + " (";
    var columns := MergeColumnList(fs);
    sql := sql + columns;
    if d == H2 {
      var keys := MergeKeyList(fs);
      sql := sql + ") KEY(" + keys + ") ";
    } else {
      sql := sql + ") ";
    }
    assert sql == MergeHead(d) + PrepareTableName(d, base, schema, table) + " (" + Join(", ", ColumnNames(fs)) +
                  MergeKeyClause(d, fs);
    sql := sql + "VALUES (";
    var values := MergeValues(d, base, fs, obj);
    if values.Failure? {
      return Failure(values.error);
    }
    sql := sql + values.value.0 + ")";
    r := Success(Statement(sql, values.value.1));
  }
}
