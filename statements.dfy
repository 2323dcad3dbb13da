/**
 * The statements a TableDefinition synthesises for a model object: INSERT, UPDATE, DELETE,
 * its own MERGE, the CREATE TABLE script and the select list. Each is a function of the
 * table's metadata (schema, table name, field list, key list, indexes) and the object, with
 * the builder loops as methods proved against those functions. Executing a statement is
 * not part of this model: a statement is its SQL text and its ordered parameter list.
 */
module Statements {
  import opened Wrappers
  import opened Text
  import opened Iciql
  import opened Fields
  import opened Dialects

  /** One WHERE condition of an update or delete: the column equals the object's raw value. */
  datatype Condition = Equal(column: string, value: Value)

  /** A statement whose WHERE clause is a list of conditions joined by AND. */
  datatype KeyedStatement = KeyedStatement(sql: string, params: seq<Value>, conditions: seq<Condition>)

  /** Whether a key list is set and non-empty: update, delete and merge need one. */
  predicate HasKey(pk: Option<seq<string>>)
  {
    pk.Some? && |pk.value| > 0
  }

  /** The column names of the fields, each passed through the dialect's prepareColumnName. */
  function PreparedColumns(base: DialectDefault, fs: seq<FieldDefinition>): seq<string>
  {
    Apply(base.prepareColumnName, ColumnNames(fs))
  }

  /** The k-th prepared name is the dialect's rendering of the k-th field's column name. */
  lemma PreparedColumnsPointwise(base: DialectDefault, fs: seq<FieldDefinition>)
    ensures |PreparedColumns(base, fs)| == |fs|
    ensures forall k :: 0 <= k < |fs| ==> PreparedColumns(base, fs)[k] == base.prepareColumnName(fs[k].columnName)
  {
    ApplyPointwise(base.prepareColumnName, ColumnNames(fs));
    ColumnNamesPointwise(fs);
  }

  lemma PreparedColumnsSnoc(base: DialectDefault, fs: seq<FieldDefinition>, f: FieldDefinition)
    ensures PreparedColumns(base, fs + [f]) == PreparedColumns(base, fs) + [base.prepareColumnName(f.columnName)]
  {
    ColumnNamesAppend(fs, [f]);
    ApplySnoc(base.prepareColumnName, ColumnNames(fs), f.columnName);
  }

  // ------------------------------------------------- INSERT

  function InsertText(d: Dialect, base: DialectDefault, schema: Option<string>, table: string,
                      fs: seq<FieldDefinition>): string
  {
    "INSERT INTO " + PrepareTableName(d, base, schema, table) + "(" + Join(", ", PreparedColumns(base, fs)) +
    ") VALUES(" + Placeholders(|fs|) + ")"
  }

  /** insert: every mapped column and one placeholder per field, bound to the converted values. */
  function InsertStatement(d: Dialect, base: DialectDefault, schema: Option<string>, table: string,
                           fs: seq<FieldDefinition>, obj: Instance): Result<Statement, Error>
  {
    match ConvertedValues(obj, fs)
    case Failure(e) => Failure(e)
    case Success(vs) => Success(Statement(InsertText(d, base, schema, table, fs), vs))
  }

  /**
   * An insert succeeds iff every field converts. It then names every column in field order
   * and binds one parameter per placeholder, parameter k being field k's converted value;
   * otherwise it fails with the error of the first field that does not convert.
   */
  lemma InsertShape(d: Dialect, base: DialectDefault, schema: Option<string>, table: string,
                    fs: seq<FieldDefinition>, obj: Instance)
    ensures InsertStatement(d, base, schema, table, fs, obj).Success? <==>
            forall k :: 0 <= k < |fs| ==> GetValue(obj, fs[k]).Success?
    ensures var r := InsertStatement(d, base, schema, table, fs, obj);
            r.Success? ==>
              |r.value.params| == |fs| == Occurrences(Placeholders(|fs|), '?') &&
              EndsWith(r.value.sql, ") VALUES(" + Placeholders(|fs|) + ")") &&
              (forall k :: 0 <= k < |fs| ==> r.value.params[k] == GetValue(obj, fs[k]).value) &&
              (forall k :: 0 <= k < |fs| ==> PreparedColumns(base, fs)[k] == base.prepareColumnName(fs[k].columnName))
    ensures var r := InsertStatement(d, base, schema, table, fs, obj);
            r.Failure? ==>
              exists k :: 0 <= k < |fs| && GetValue(obj, fs[k]) == Failure(r.error) &&
                          forall j :: 0 <= j < k ==> GetValue(obj, fs[j]).Success?
  {
    ConvertedValuesSpec(obj, fs);
    PlaceholderCount(|fs|);
    PreparedColumnsPointwise(base, fs);
    InsertTextEnds(d, base, schema, table, fs);
  }

  /** The insert text is closed by its VALUES list. */
  lemma {:induction false} InsertTextEnds(d: Dialect, base: DialectDefault, schema: Option<string>, table: string,
                       fs: seq<FieldDefinition>)
    ensures EndsWith(InsertText(d, base, schema, table, fs), ") VALUES(" + Placeholders(|fs|) + ")")
  {
    var head := "INSERT INTO " + PrepareTableName(d, base, schema, table) + "(" + Join(", ", PreparedColumns(base, fs));
    EndsWithLastThree(head, ") VALUES(", Placeholders(|fs|), ")");
  }

  // ------------------------------------------------- UPDATE and DELETE

  /** One assignment of the SET clause: the prepared column, " = ?". */
  function SetItems(base: DialectDefault, fs: seq<FieldDefinition>): (r: seq<string>)
    ensures |r| == |fs| && forall k :: 0 <= k < |fs| ==> r[k] == base.prepareColumnName(fs[k].columnName) + " = ?"
  {
    if fs == [] then [] else SetItems(base, fs[..|fs| - 1]) + [base.prepareColumnName(fs[|fs| - 1].columnName) + " = ?"]
  }

  /** The WHERE conditions of update and delete: one per key field, on its raw (unconverted) value. */
  function KeyConditions(obj: Instance, fs: seq<FieldDefinition>): (r: seq<Condition>)
    ensures |r| == |fs| && forall k :: 0 <= k < |fs| ==> r[k] == Equal(fs[k].columnName, RawValue(obj, fs[k]))
  {
    if fs == [] then [] else KeyConditions(obj, fs[..|fs| - 1]) + [Equal(fs[|fs| - 1].columnName, RawValue(obj, fs[|fs| - 1]))]
  }

  function UpdateText(d: Dialect, base: DialectDefault, schema: Option<string>, table: string,
                      fs: seq<FieldDefinition>): string
  {
    "UPDATE " + PrepareTableName(d, base, schema, table) + " SET " + Join(", ", SetItems(base, NonKeyFields(fs)))
  }

  /**
   * update: fails without a key list; otherwise sets every non-key column to its converted
   * value and selects the row by the key columns.
   */
  function UpdateStatement(d: Dialect, base: DialectDefault, className: string, schema: Option<string>,
                           table: string, fs: seq<FieldDefinition>, pk: Option<seq<string>>, obj: Instance)
    : Result<KeyedStatement, Error>
  {
    if !HasKey(pk) then Failure(NoPrimaryKey(className))
    else
      match ConvertedValues(obj, NonKeyFields(fs))
      case Failure(e) => Failure(e)
      case Success(vs) =>
        Success(KeyedStatement(UpdateText(d, base, schema, table, fs), vs, KeyConditions(obj, KeyFields(fs))))
  }

  /** delete: fails without a key list; otherwise selects the row by the key columns, with no parameters of its own. */
  function DeleteStatement(d: Dialect, base: DialectDefault, className: string, schema: Option<string>,
                           table: string, fs: seq<FieldDefinition>, pk: Option<seq<string>>, obj: Instance)
    : Result<KeyedStatement, Error>
  {
    if !HasKey(pk) then Failure(NoPrimaryKey(className))
    else Success(KeyedStatement("DELETE FROM " + PrepareTableName(d, base, schema, table), [], KeyConditions(obj, KeyFields(fs))))
  }

  /**
   * The SET clause covers exactly the non-key fields, in order, one converted parameter
   * each; the WHERE clause has one condition per key field, in order. Together they account
   * for every field once.
   */
  lemma UpdateShape(d: Dialect, base: DialectDefault, className: string, schema: Option<string>,
                    table: string, fs: seq<FieldDefinition>, pk: Option<seq<string>>, obj: Instance)
    ensures var r := UpdateStatement(d, base, className, schema, table, fs, pk, obj);
            !HasKey(pk) ==> r == Failure(NoPrimaryKey(className))
    ensures var r := UpdateStatement(d, base, className, schema, table, fs, pk, obj);
            HasKey(pk) ==> (r.Success? <==> forall f :: f in fs && !f.isPrimaryKey ==> GetValue(obj, f).Success?)
    ensures var r := UpdateStatement(d, base, className, schema, table, fs, pk, obj);
            var setFields := NonKeyFields(fs);
            r.Success? ==>
              |r.value.params| == |setFields| && IsSubsequence(setFields, fs) &&
              forall k :: 0 <= k < |setFields| ==>
                !setFields[k].isPrimaryKey && GetValue(obj, setFields[k]).Success? &&
                r.value.params[k] == GetValue(obj, setFields[k]).value
  {
    var setFields := NonKeyFields(fs);
    ConvertedValuesSpec(obj, setFields);
    NonKeyFieldsAreSelection(fs);
    assert forall k :: 0 <= k < |setFields| ==> setFields[k] in setFields;
  }

  /**
   * A successful update selects its row by one condition per key field, in field order;
   * the SET parameters and the conditions together account for every field once.
   */
  lemma UpdateConditions(d: Dialect, base: DialectDefault, className: string, schema: Option<string>,
                         table: string, fs: seq<FieldDefinition>, pk: Option<seq<string>>, obj: Instance)
    ensures var r := UpdateStatement(d, base, className, schema, table, fs, pk, obj);
            var keys := KeyFields(fs);
            r.Success? ==>
              |r.value.conditions| == |keys| && |r.value.params| + |r.value.conditions| == |fs| &&
              IsSubsequence(keys, fs) &&
              forall k :: 0 <= k < |keys| ==>
                keys[k].isPrimaryKey && r.value.conditions[k] == Equal(keys[k].columnName, RawValue(obj, keys[k]))
  {
    ConvertedValuesSpec(obj, NonKeyFields(fs));
    KeyFieldsAreSelection(fs);
    KeyFieldsPartition(fs);
    assert forall k :: 0 <= k < |KeyFields(fs)| ==> KeyFields(fs)[k] in KeyFields(fs);
  }

  /** A delete fails iff the key list is unset or empty, and otherwise has one condition per key field. */
  lemma DeleteShape(d: Dialect, base: DialectDefault, className: string, schema: Option<string>,
                    table: string, fs: seq<FieldDefinition>, pk: Option<seq<string>>, obj: Instance)
    ensures var r := DeleteStatement(d, base, className, schema, table, fs, pk, obj);
            (r.Failure? <==> !HasKey(pk)) &&
            (r.Success? ==>
               r.value.params == [] && |r.value.conditions| == |KeyFields(fs)| &&
               forall f :: f in fs && f.isPrimaryKey <==> exists k :: 0 <= k < |KeyFields(fs)| && KeyFields(fs)[k] == f)
  {
    KeyFieldsAreSelection(fs);
    assert forall k :: 0 <= k < |KeyFields(fs)| ==> KeyFields(fs)[k] in KeyFields(fs);
  }

  // ------------------------------------------------- TableDefinition's own MERGE

  function TableMergeText(d: Dialect, base: DialectDefault, schema: Option<string>, table: string,
                          fs: seq<FieldDefinition>): string
  {
    "MERGE INTO " + PrepareTableName(d, base, schema, table) + " (" + Join(", ", PreparedColumns(base, fs)) +
    (") KEY(" + Join(", ", PreparedColumns(base, KeyFields(fs))) + ") ") + "VALUES (" + Placeholders(|fs|) + ")"
  }

  /** merge (TableDefinition's): fails without a key list; otherwise an H2-style MERGE with prepared column names. */
  function TableMergeStatement(d: Dialect, base: DialectDefault, className: string, schema: Option<string>,
                               table: string, fs: seq<FieldDefinition>, pk: Option<seq<string>>, obj: Instance)
    : Result<Statement, Error>
  {
    if !HasKey(pk) then Failure(NoPrimaryKey(className))
    else
      match ConvertedValues(obj, fs)
      case Failure(e) => Failure(e)
      case Success(vs) => Success(Statement(TableMergeText(d, base, schema, table, fs), vs))
  }

  /**
   * With a key list, TableDefinition's merge is the H2 dialect's merge whenever the dialect
   * leaves the column names as they are.
   */
  lemma TableMergeIsH2Merge(d: Dialect, base: DialectDefault, className: string, schema: Option<string>,
                            table: string, fs: seq<FieldDefinition>, pk: Option<seq<string>>, obj: Instance)
    requires HasKey(pk)
    requires forall k :: 0 <= k < |fs| ==> base.prepareColumnName(fs[k].columnName) == fs[k].columnName
    ensures TableMergeStatement(d, base, className, schema, table, fs, pk, obj) == MergeStatement(H2, base, schema, table, fs, obj)
  {
    PlainPreparedColumns(base, fs);
    var keys := KeyFields(fs);
    KeyFieldsAreSelection(fs);
    forall k | 0 <= k < |keys|
      ensures base.prepareColumnName(keys[k].columnName) == keys[k].columnName
    {
      assert keys[k] in fs;
    }
    PlainPreparedColumns(base, keys);
    assert TableMergeText(d, base, schema, table, fs) == MergeText(H2, base, schema, table, fs);
    match ConvertedValues(obj, fs)
    case Failure(e) =>
    case Success(vs) =>
      assert MergeParameters(H2, base, fs, vs) == vs;
  }

  /** A dialect that leaves every column name alone prepares the column list to the plain names. */
  lemma PlainPreparedColumns(base: DialectDefault, fs: seq<FieldDefinition>)
    requires forall k :: 0 <= k < |fs| ==> base.prepareColumnName(fs[k].columnName) == fs[k].columnName
    ensures PreparedColumns(base, fs) == ColumnNames(fs)
  {
    PreparedColumnsPointwise(base, fs);
    ColumnNamesPointwise(fs);
  }

  // ------------------------------------------------- CREATE TABLE

  /** Whether a column's default is written: a non-empty, well-formed, type-valid default on a plain column. */
  predicate WritesDefault(md: ModelUtils, f: FieldDefinition)
  {
    !f.isAutoIncrement && !f.isPrimaryKey && f.defaultValue != "" &&
    md.isProperlyFormattedDefaultValue(f.defaultValue) && md.isValidDefaultValue(f.field.javaType, f.defaultValue)
  }

  /** The default a column definition carries, if any. */
  function WrittenDefault(md: ModelUtils, f: FieldDefinition): Option<string>
  {
    if WritesDefault(md, f) then Some(f.defaultValue) else None
  }

  /** "(maxLength)" for a positive length, nothing otherwise. */
  function LengthText(maxLength: int): string
  {
    if maxLength > 0 then "(" + IntToString(maxLength) + ")" else ""
  }

  /** AUTO_INCREMENT, NOT NULL and DEFAULT, each when it applies, in that order. */
  function FlagsText(autoIncrement: bool, notNull: bool, defaultValue: Option<string>): string
  {
    (if autoIncrement then " AUTO_INCREMENT" else "") +
    ((if notNull then " NOT NULL" else "") + (if defaultValue.Some? then " DEFAULT " + defaultValue.value else ""))
  }

  /** What follows the SQL type of a column. */
  function ColumnModifiers(md: ModelUtils, f: FieldDefinition): string
  {
    LengthText(f.maxLength) + FlagsText(f.isAutoIncrement, !f.allowNull, WrittenDefault(md, f))
  }

  /** One column of the CREATE TABLE: prepared name, SQL type, modifiers. */
  function ColumnDefinition(base: DialectDefault, md: ModelUtils, f: FieldDefinition): string
  {
    base.prepareColumnName(f.columnName) + " " + f.dataType + ColumnModifiers(md, f)
  }

  function ColumnDefinitionOfField(base: DialectDefault, md: ModelUtils): FieldDefinition -> string
  {
    (f: FieldDefinition) => ColumnDefinition(base, md, f)
  }

  /** The column definitions, one per field, in field order. */
  function ColumnDefinitions(base: DialectDefault, md: ModelUtils, fs: seq<FieldDefinition>): (r: seq<string>)
    ensures |r| == |fs| && forall k :: 0 <= k < |fs| ==> r[k] == ColumnDefinition(base, md, fs[k])
  {
    ApplyPointwise(ColumnDefinitionOfField(base, md), fs);
    Apply(ColumnDefinitionOfField(base, md), fs)
  }

  function TablePrefix(d: Dialect, base: DialectDefault, memoryTable: bool): string
  {
    if memoryTable && SupportsMemoryTables(d, base) then "CREATE MEMORY TABLE IF NOT EXISTS " else "CREATE TABLE IF NOT EXISTS "
  }

  /** The PRIMARY KEY clause lists the stored key names verbatim; it is absent without a key. */
  function PrimaryKeyClause(pk: Option<seq<string>>): string
  {
    if HasKey(pk) then ", PRIMARY KEY(" + Join(", ", pk.value) + ")" else ""
  }

  function CreateTableText(d: Dialect, base: DialectDefault, md: ModelUtils, schema: Option<string>, table: string,
                           memoryTable: bool, fs: seq<FieldDefinition>, pk: Option<seq<string>>): string
  {
    TablePrefix(d, base, memoryTable) +
    (PrepareTableName(d, base, schema, table) + ("(" + (Join(", ", ColumnDefinitions(base, md, fs)) + (PrimaryKeyClause(pk) + ")"))))
  }

  /** One CREATE INDEX per index, in list order, on the unprepared table name. */
  function IndexStatements(d: Dialect, base: DialectDefault, table: string, indexes: seq<IndexDefinition>)
    : (r: seq<string>)
    ensures |r| == |indexes| && forall k :: 0 <= k < |indexes| ==> r[k] == CreateIndexText(d, base, table, indexes[k])
  {
    if indexes == [] then []
    else IndexStatements(d, base, table, indexes[..|indexes| - 1]) + [CreateIndexText(d, base, table, indexes[|indexes| - 1])]
  }

  /** createTableIfRequired: nothing when creation is switched off, else the table and then its indexes. */
  function CreateScript(d: Dialect, base: DialectDefault, md: ModelUtils, createIfRequired: bool,
                        schema: Option<string>, table: string, memoryTable: bool, fs: seq<FieldDefinition>,
                        pk: Option<seq<string>>, indexes: seq<IndexDefinition>): seq<string>
  {
    if !createIfRequired then []
    else [CreateTableText(d, base, md, schema, table, memoryTable, fs, pk)] + IndexStatements(d, base, table, indexes)
  }

  lemma NotStartsWith(s: string, p: string, i: nat)
    requires i < |p| && i < |s| && s[i] != p[i]
    ensures !StartsWith(s, p)
  {
    if |p| <= |s| {
      assert s[..|p|][i] == s[i];
    }
  }

  /**
   * The script is empty when creation is switched off; otherwise it is the CREATE TABLE
   * followed by one CREATE INDEX per index, in list order.
   */
  lemma CreateScriptShape(d: Dialect, base: DialectDefault, md: ModelUtils, createIfRequired: bool,
                          schema: Option<string>, table: string, memoryTable: bool, fs: seq<FieldDefinition>,
                          pk: Option<seq<string>>, indexes: seq<IndexDefinition>)
    ensures var script := CreateScript(d, base, md, createIfRequired, schema, table, memoryTable, fs, pk, indexes);
            (!createIfRequired <==> script == []) &&
            (createIfRequired ==>
               |script| == |indexes| + 1 &&
               script[0] == CreateTableText(d, base, md, schema, table, memoryTable, fs, pk) &&
               forall k :: 0 <= k < |indexes| ==> script[k + 1] == CreateIndexText(d, base, table, indexes[k]))
  {
    var script := CreateScript(d, base, md, createIfRequired, schema, table, memoryTable, fs, pk, indexes);
    if createIfRequired {
      var rest := IndexStatements(d, base, table, indexes);
      assert script == [CreateTableText(d, base, md, schema, table, memoryTable, fs, pk)] + rest;
      assert forall k :: 0 <= k < |indexes| ==> script[k + 1] == rest[k];
    }
  }

  lemma EndsWithExtend(x: string, y: string, z: string)
    requires EndsWith(y, z)
    ensures EndsWith(x + y, z)
  {
    assert (x + y)[|x + y| - |z|..] == y[|y| - |z|..];
  }

  /** Only the MEMORY form of the CREATE prefix starts with "CREATE MEMORY ", whatever follows it. */
  lemma MemoryPrefixOf(memory: bool, rest: string)
    ensures var prefix := if memory then "CREATE MEMORY TABLE IF NOT EXISTS " else "CREATE TABLE IF NOT EXISTS ";
            StartsWith(prefix + rest, "CREATE MEMORY ") <==> memory
  {
    var prefix := if memory then "CREATE MEMORY TABLE IF NOT EXISTS " else "CREATE TABLE IF NOT EXISTS ";
    if memory {
      assert (prefix + rest)[..14] == prefix[..14];
    } else {
      assert (prefix + rest)[7] == prefix[7];
      NotStartsWith(prefix + rest, "CREATE MEMORY ", 7);
    }
  }

  /** The CREATE TABLE uses the MEMORY form iff the table is a memory table and the dialect supports them. */
  lemma MemoryTablePrefix(d: Dialect, base: DialectDefault, md: ModelUtils, schema: Option<string>, table: string,
                          memoryTable: bool, fs: seq<FieldDefinition>, pk: Option<seq<string>>)
    ensures StartsWith(CreateTableText(d, base, md, schema, table, memoryTable, fs, pk), "CREATE MEMORY ") <==>
            memoryTable && SupportsMemoryTables(d, base)
  {
    var rest := PrepareTableName(d, base, schema, table) +
                ("(" + (Join(", ", ColumnDefinitions(base, md, fs)) + (PrimaryKeyClause(pk) + ")")));
    MemoryPrefixOf(memoryTable && SupportsMemoryTables(d, base), rest);
  }

  /**
   * With a non-empty key list the CREATE TABLE closes with PRIMARY KEY(...) over the stored
   * names; without one the column list closes the statement directly.
   */
  lemma PrimaryKeyClauseAtEnd(d: Dialect, base: DialectDefault, md: ModelUtils, schema: Option<string>, table: string,
                              memoryTable: bool, fs: seq<FieldDefinition>, pk: Option<seq<string>>)
    ensures var text := CreateTableText(d, base, md, schema, table, memoryTable, fs, pk);
            (HasKey(pk) ==> EndsWith(text, ", PRIMARY KEY(" + Join(", ", pk.value) + ")" + ")")) &&
            (!HasKey(pk) ==> EndsWith(text, "(" + (Join(", ", ColumnDefinitions(base, md, fs)) + ")")))
  {
    var prefix := TablePrefix(d, base, memoryTable);
    var name := PrepareTableName(d, base, schema, table);
    var columns := Join(", ", ColumnDefinitions(base, md, fs));
    var close := PrimaryKeyClause(pk) + ")";
    if HasKey(pk) {
      EndsWithAppend(columns, close);
      EndsWithExtend("(", columns + close, close);
      EndsWithExtend(name, "(" + (columns + close), close);
      EndsWithExtend(prefix, name + ("(" + (columns + close)), close);
    } else {
      assert close == ")";
      EndsWithAppend(name, "(" + (columns + close));
      EndsWithExtend(prefix, name + ("(" + (columns + close)), "(" + (columns + close));
    }
  }

  // ------------------------------------------------- reading a column definition back

  /** What a column definition says about its column, as iciql intends it. */
  datatype ColumnShape = ColumnShape(length: Option<nat>, autoIncrement: bool, notNull: bool, defaultValue: Option<string>)

  /** The shape a field's definition should have: a length iff positive, AUTO_INCREMENT iff set, and so on. */
  function ShapeOf(md: ModelUtils, f: FieldDefinition): ColumnShape
  {
    ColumnShape(if f.maxLength > 0 then Some(f.maxLength as nat) else None,
                f.isAutoIncrement, !f.allowNull, WrittenDefault(md, f))
  }

  function LeadingDigits(s: string): (n: nat)
    ensures n <= |s| && forall k :: 0 <= k < n ==> IsDigit(s[k])
  {
    if s == [] || !IsDigit(s[0]) then 0 else 1 + LeadingDigits(s[1..])
  }

  lemma {:induction false} LeadingDigitsOf(ds: string, t: string)
    requires forall k :: 0 <= k < |ds| ==> IsDigit(ds[k])
    requires t == [] || !IsDigit(t[0])
    ensures LeadingDigits(ds + t) == |ds|
  {
    if ds == [] {
      assert ds + t == t;
    } else {
      assert (ds + t)[1..] == ds[1..] + t;
      LeadingDigitsOf(ds[1..], t);
    }
  }

  /** Reads the optional "(n)" length from the front of a modifier text. */
  function DecodeLength(m: string): Option<(Option<nat>, string)>
  {
    if |m| > 0 && m[0] == '(' then
      var n := LeadingDigits(m[1..]);
      if 0 < n && n + 1 < |m| && m[n + 1] == ')' then
        assert forall k :: 0 <= k < n ==> m[1..n + 1][k] == m[1..][k];
        Some((Some(ParseNat(m[1..n + 1])), m[n + 2..]))
      else None
    else Some((None, m))
  }

  /** Reads an optional keyword from the front of a text. */
  function DecodeFlag(s: string, flag: string): (bool, string)
  {
    if StartsWith(s, flag) then (true, s[|flag|..]) else (false, s)
  }

  /** Reads AUTO_INCREMENT, NOT NULL and DEFAULT back, in that order; None when something else is left. */
  function DecodeFlags(s: string): Option<(bool, bool, Option<string>)>
  {
    var (auto, afterAuto) := DecodeFlag(s, " AUTO_INCREMENT");
    var (notNull, afterNull) := DecodeFlag(afterAuto, " NOT NULL");
    if afterNull == "" then Some((auto, notNull, None))
    else if StartsWith(afterNull, " DEFAULT ") then Some((auto, notNull, Some(afterNull[9..])))
    else None
  }

  /** Reads a modifier text back into the shape it describes, or None when it describes none. */
  function DecodeModifiers(m: string): Option<ColumnShape>
  {
    match DecodeLength(m)
    case None => None
    case Some((length, rest)) =>
      match DecodeFlags(rest)
      case None => None
      case Some((auto, notNull, dv)) => Some(ColumnShape(length, auto, notNull, dv))
  }

  lemma DecodeNullAndDefault(notNull: bool, dv: Option<string>)
    ensures var tail := (if notNull then " NOT NULL" else "") + (if dv.Some? then " DEFAULT " + dv.value else "");
            var (n, rest) := DecodeFlag(tail, " NOT NULL");
            n == notNull && (dv.None? ==> rest == "") && (dv.Some? ==> StartsWith(rest, " DEFAULT ") && rest[9..] == dv.value)
  {
    var d := if dv.Some? then " DEFAULT " + dv.value else "";
    if notNull {
      assert (" NOT NULL" + d)[..9] == " NOT NULL";
      assert (" NOT NULL" + d)[9..] == d;
    } else if dv.Some? {
      assert d[1] == 'D';
      NotStartsWith(d, " NOT NULL", 1);
    }
    if dv.Some? {
      assert d[..9] == " DEFAULT ";
    }
  }

  lemma DecodeAutoIncrement(auto: bool, notNull: bool, dv: Option<string>)
    ensures var rest := (if notNull then " NOT NULL" else "") + (if dv.Some? then " DEFAULT " + dv.value else "");
            DecodeFlag(FlagsText(auto, notNull, dv), " AUTO_INCREMENT") == (auto, rest)
  {
    var rest := (if notNull then " NOT NULL" else "") + (if dv.Some? then " DEFAULT " + dv.value else "");
    assert FlagsText(auto, notNull, dv) == if auto then " AUTO_INCREMENT" + rest else rest;
    if auto {
      assert (" AUTO_INCREMENT" + rest)[..15] == " AUTO_INCREMENT";
      assert (" AUTO_INCREMENT" + rest)[15..] == rest;
    } else if notNull {
      assert rest[1] == 'N';
      NotStartsWith(rest, " AUTO_INCREMENT", 1);
    } else if dv.Some? {
      assert rest == " DEFAULT " + dv.value;
      assert rest[1] == 'D';
      NotStartsWith(rest, " AUTO_INCREMENT", 1);
    }
  }

  /** The flags text reads back as written. */
  lemma DecodeFlagsRoundTrip(auto: bool, notNull: bool, dv: Option<string>)
    ensures DecodeFlags(FlagsText(auto, notNull, dv)) == Some((auto, notNull, dv))
  {
    DecodeAutoIncrement(auto, notNull, dv);
    DecodeNullAndDefault(notNull, dv);
  }

  /** The pieces of an opener, a body, a closer and a tail, found again by position. */
  lemma Bracketed<T>(open: seq<T>, body: seq<T>, close: seq<T>, tail: seq<T>)
    requires |open| == 1 && |close| == 1
    ensures var m := open + body + close + tail;
            m[0] == open[0] && m[1..] == body + (close + tail) && m[1..|body| + 1] == body &&
            m[|body| + 1] == close[0] && m[|body| + 2..] == tail
  {
    var m := open + body + close + tail;
    assert m[1..] == body + (close + tail);
  }

  /** A parenthesised digit string reads back as its value, leaving what follows it. */
  lemma DecodeParenthesised(ds: string, rest: string)
    requires |ds| > 0 && forall k :: 0 <= k < |ds| ==> IsDigit(ds[k])
    ensures DecodeLength("(" + ds + ")" + rest) == Some((Some(ParseNat(ds)), rest))
  {
    var m := "(" + ds + ")" + rest;
    Bracketed("(", ds, ")", rest);
    LeadingDigitsOf(ds, ")" + rest);
  }

  /** The length text reads back as written, whatever flags follow it. */
  lemma DecodeLengthRoundTrip(maxLength: int, rest: string)
    requires rest == [] || rest[0] == ' '
    ensures DecodeLength(LengthText(maxLength) + rest) == Some((if maxLength > 0 then Some(maxLength as nat) else None, rest))
  {
    if maxLength > 0 {
      var ds := NatToString(maxLength);
      assert LengthText(maxLength) + rest == "(" + ds + ")" + rest;
      DecodeParenthesised(ds, rest);
      ParseNatToString(maxLength);
    } else {
      assert LengthText(maxLength) + rest == rest;
    }
  }

  /**
   * A column's modifiers can be read back: the definition carries a length iff maxLength is
   * positive (and then that length), AUTO_INCREMENT iff the column auto-increments, NOT NULL
   * iff it disallows null, and DEFAULT iff the default is written.
   */
  lemma ColumnModifiersRoundTrip(md: ModelUtils, f: FieldDefinition)
    ensures DecodeModifiers(ColumnModifiers(md, f)) == Some(ShapeOf(md, f))
  {
    var flags := FlagsText(f.isAutoIncrement, !f.allowNull, WrittenDefault(md, f));
    assert flags == [] || flags[0] == ' ';
    DecodeLengthRoundTrip(f.maxLength, flags);
    DecodeFlagsRoundTrip(f.isAutoIncrement, !f.allowNull, WrittenDefault(md, f));
  }

  // ------------------------------------------------- builder loops

  /** The prepared column names, comma-separated. */
  method PreparedColumnList(base: DialectDefault, fs: seq<FieldDefinition>) returns (sql: string)
    ensures sql == Join(", ", PreparedColumns(base, fs))
  {
    sql := "";
    var i := 0;
    while i < |fs|
      invariant 0 <= i <= |fs|
      invariant sql == Join(", ", PreparedColumns(base, fs[..i]))
    {
      assert fs[..i + 1] == fs[..i] + [fs[i]];
      PreparedColumnsSnoc(base, fs[..i], fs[i]);
      JoinSnoc(", ", PreparedColumns(base, fs[..i]), base.prepareColumnName(fs[i].columnName));
      if i > 0 {
        sql := sql + ", ";
      }
      sql := sql + base.prepareColumnName(fs[i].columnName);
      i := i + 1;
    }
    assert fs[..i] == fs;
  }

  /** One step of the key-column loop: a key field extends the joined list, any other field leaves it. */
  lemma PreparedKeysStep(base: DialectDefault, fs: seq<FieldDefinition>, i: nat)
    requires i < |fs|
    ensures |KeyFields(fs[..i + 1])| == |KeyFields(fs[..i])| + (if fs[i].isPrimaryKey then 1 else 0)
    ensures var before := PreparedColumns(base, KeyFields(fs[..i]));
            var name := base.prepareColumnName(fs[i].columnName);
            fs[i].isPrimaryKey ==>
              Join(", ", PreparedColumns(base, KeyFields(fs[..i + 1]))) ==
              if |KeyFields(fs[..i])| == 0 then name else Join(", ", before) + ", " + name
    ensures !fs[i].isPrimaryKey ==> PreparedColumns(base, KeyFields(fs[..i + 1])) == PreparedColumns(base, KeyFields(fs[..i]))
  {
    KeyFieldsStep(fs, i);
    if fs[i].isPrimaryKey {
      PreparedColumnsSnoc(base, KeyFields(fs[..i]), fs[i]);
      JoinSnoc(", ", PreparedColumns(base, KeyFields(fs[..i])), base.prepareColumnName(fs[i].columnName));
    } else {
      assert KeyFields(fs[..i + 1]) == KeyFields(fs[..i]);
    }
  }

  /** The prepared names of the key-flagged columns, comma-separated, in field order. */
  method PreparedKeyColumnList(base: DialectDefault, fs: seq<FieldDefinition>) returns (sql: string)
    ensures sql == Join(", ", PreparedColumns(base, KeyFields(fs)))
  {
    sql := "";
    var count := 0;
    var i := 0;
    while i < |fs|
      invariant 0 <= i <= |fs|
      invariant count == |KeyFields(fs[..i])|
      invariant sql == Join(", ", PreparedColumns(base, KeyFields(fs[..i])))
    {
      PreparedKeysStep(base, fs, i);
      if fs[i].isPrimaryKey {
        if count > 0 {
          sql := sql + ", ";
        }
        sql := sql + base.prepareColumnName(fs[i].columnName);
        count := count + 1;
      }
      i := i + 1;
    }
    assert fs[..i] == fs;
  }

  /** The placeholder loop: one '?' per field and each field's converted value, in order. */
  method BindFieldValues(fs: seq<FieldDefinition>, obj: Instance) returns (r: Result<(string, seq<Value>), Error>)
    ensures ConvertedValues(obj, fs).Failure? ==> r == Failure(ConvertedValues(obj, fs).error)
    ensures ConvertedValues(obj, fs).Success? ==> r == Success((Placeholders(|fs|), ConvertedValues(obj, fs).value))
  {
    var sql := "";
    var params: seq<Value> := [];
    var i := 0;
    while i < |fs|
      invariant 0 <= i <= |fs|
      invariant sql == Placeholders(i)
      invariant ConvertedValues(obj, fs[..i]) == Success(params)
    {
      PlaceholdersStep(i);
      if i > 0 {
        sql := sql + ", ";
      }
      sql := sql + "?";
      var value := GetValue(obj, fs[i]);
      if value.Failure? {
        ConvertedValuesStepFailure(obj, fs, i);
        return Failure(value.error);
      }
      ConvertedValuesStep(obj, fs, i, params);
      params := params + [value.value];
      i := i + 1;
    }
    assert fs[..i] == fs;
    r := Success((sql, params));
  }

  lemma SetItemsSnoc(base: DialectDefault, fs: seq<FieldDefinition>, f: FieldDefinition)
    ensures SetItems(base, fs + [f]) == SetItems(base, fs) + [base.prepareColumnName(f.columnName) + " = ?"]
  {
    assert (fs + [f])[..|fs|] == fs;
  }

  /** A non-key field that fails to convert fails the whole SET clause, if the ones before it converted. */
  lemma SetClauseFailure(obj: Instance, fs: seq<FieldDefinition>, i: nat)
    requires i < |fs| && !fs[i].isPrimaryKey && GetValue(obj, fs[i]).Failure?
    requires ConvertedValues(obj, NonKeyFields(fs[..i])).Success?
    ensures ConvertedValues(obj, NonKeyFields(fs)) == Failure(GetValue(obj, fs[i]).error)
  {
    KeyFieldsStep(fs, i);
    ConvertedValuesSnocFailure(obj, NonKeyFields(fs[..i]), fs[i]);
    NonKeyFieldsPrefix(fs, i + 1);
    ConvertedValuesPrefixOfFailure(obj, NonKeyFields(fs[..i + 1]), NonKeyFields(fs));
  }

  /** What the SET loop of update has built after the first `i` fields. */
  ghost predicate SetClauseSoFar(base: DialectDefault, obj: Instance, fs: seq<FieldDefinition>, i: nat,
                                 sql: string, params: seq<Value>)
  {
    i <= |fs| && sql == Join(", ", SetItems(base, NonKeyFields(fs[..i]))) &&
    ConvertedValues(obj, NonKeyFields(fs[..i])) == Success(params)
  }

  /** A key field leaves the SET clause as it is. */
  lemma SetClauseKeyStep(base: DialectDefault, obj: Instance, fs: seq<FieldDefinition>, i: nat, sql: string, params: seq<Value>)
    requires i < |fs| && fs[i].isPrimaryKey && SetClauseSoFar(base, obj, fs, i, sql, params)
    ensures SetClauseSoFar(base, obj, fs, i + 1, sql, params)
  {
    KeyFieldsStep(fs, i);
    assert NonKeyFields(fs[..i + 1]) == NonKeyFields(fs[..i]);
  }

  /** A non-key field that converts adds its assignment, after a separator unless it is the first, and its value. */
  lemma SetClauseNonKeyStep(base: DialectDefault, obj: Instance, fs: seq<FieldDefinition>, i: nat, sql: string, params: seq<Value>)
    requires i < |fs| && !fs[i].isPrimaryKey && GetValue(obj, fs[i]).Success?
    requires SetClauseSoFar(base, obj, fs, i, sql, params)
    ensures SetClauseSoFar(base, obj, fs, i + 1,
                           (if |params| > 0 then sql + ", " else sql) + (base.prepareColumnName(fs[i].columnName) + " = ?"),
                           params + [GetValue(obj, fs[i]).value])
  {
    KeyFieldsStep(fs, i);
    SetItemsStep(base, fs, i, sql, |params|);
    ConvertedValuesSnoc(obj, NonKeyFields(fs[..i]), fs[i], params);
  }

  /** The SET text after a non-key field: one more assignment, after a separator unless it is the first. */
  lemma SetItemsStep(base: DialectDefault, fs: seq<FieldDefinition>, i: nat, sql: string, n: nat)
    requires i < |fs| && !fs[i].isPrimaryKey && n == |NonKeyFields(fs[..i])|
    requires NonKeyFields(fs[..i + 1]) == NonKeyFields(fs[..i]) + [fs[i]]
    requires sql == Join(", ", SetItems(base, NonKeyFields(fs[..i])))
    ensures Join(", ", SetItems(base, NonKeyFields(fs[..i + 1]))) ==
            (if n > 0 then sql + ", " else sql) + (base.prepareColumnName(fs[i].columnName) + " = ?")
  {
    var before := NonKeyFields(fs[..i]);
    SetItemsSnoc(base, before, fs[i]);
    JoinSnoc(", ", SetItems(base, before), base.prepareColumnName(fs[i].columnName) + " = ?");
  }

  /** After the last field the SET loop has built the whole clause and parameter list. */
  lemma SetClauseDone(base: DialectDefault, obj: Instance, fs: seq<FieldDefinition>, sql: string, params: seq<Value>)
    requires SetClauseSoFar(base, obj, fs, |fs|, sql, params)
    ensures sql == Join(", ", SetItems(base, NonKeyFields(fs))) && ConvertedValues(obj, NonKeyFields(fs)) == Success(params)
  {
    assert fs[..|fs|] == fs;
  }

  /** The SET loop of update: an assignment and a converted parameter per non-key field. */
  method SetClauseList(base: DialectDefault, fs: seq<FieldDefinition>, obj: Instance)
    returns (r: Result<(string, seq<Value>), Error>)
    ensures ConvertedValues(obj, NonKeyFields(fs)).Failure? ==> r == Failure(ConvertedValues(obj, NonKeyFields(fs)).error)
    ensures ConvertedValues(obj, NonKeyFields(fs)).Success? ==>
              r == Success((Join(", ", SetItems(base, NonKeyFields(fs))), ConvertedValues(obj, NonKeyFields(fs)).value))
  {
    var sql := "";
    var params: seq<Value> := [];
    var i := 0;
    assert fs[..0] == [];
    while i < |fs|
      invariant SetClauseSoFar(base, obj, fs, i, sql, params)
    {
      if !fs[i].isPrimaryKey {
        ghost var sql0, params0 := sql, params;
        if |params| > 0 {
          sql := sql + ", ";
        }
        sql := sql + (base.prepareColumnName(fs[i].columnName) + " = ?");
        var value := GetValue(obj, fs[i]);
        if value.Failure? {
          SetClauseFailure(obj, fs, i);
          return Failure(value.error);
        }
        params := params + [value.value];
        SetClauseNonKeyStep(base, obj, fs, i, sql0, params0);
      } else {
        SetClauseKeyStep(base, obj, fs, i, sql, params);
      }
      i := i + 1;
    }
    SetClauseDone(base, obj, fs, sql, params);
    r := Success((sql, params));
  }

  /** The WHERE loop of update and delete: one condition per key field, in field order. */
  method KeyConditionList(fs: seq<FieldDefinition>, obj: Instance) returns (conditions: seq<Condition>)
    ensures conditions == KeyConditions(obj, KeyFields(fs))
  {
    conditions := [];
    var i := 0;
    while i < |fs|
      invariant 0 <= i <= |fs|
      invariant conditions == KeyConditions(obj, KeyFields(fs[..i]))
    {
      var keys := KeyFields(fs[..i]);
      assert fs[..i + 1] == fs[..i] + [fs[i]];
      KeyFieldsSnoc(fs[..i], fs[i]);
      if fs[i].isPrimaryKey {
        assert (keys + [fs[i]])[..|keys|] == keys;
        conditions := conditions + [Equal(fs[i].columnName, RawValue(obj, fs[i]))];
      }
      i := i + 1;
    }
    assert fs[..i] == fs;
  }

  /** One column of createTableIfRequired: name and type, then each modifier that applies. */
  method ColumnDefinitionOf(base: DialectDefault, md: ModelUtils, f: FieldDefinition) returns (column: string)
    ensures column == ColumnDefinition(base, md, f)
  {
    var length := "";
    if f.maxLength > 0 {
      length := "(" + IntToString(f.maxLength) + ")";
    }
    var autoIncrement := "";
    if f.isAutoIncrement {
      autoIncrement := " AUTO_INCREMENT";
    }
    var notNull := "";
    if !f.allowNull {
      notNull := " NOT NULL";
    }
    var defaultValue := "";
    if !f.isAutoIncrement && !f.isPrimaryKey {
      var dv := f.defaultValue;
      if dv != "" {
        if md.isProperlyFormattedDefaultValue(dv) && md.isValidDefaultValue(f.field.javaType, dv) {
          defaultValue := " DEFAULT " + dv;
        }
      }
    }
    column := base.prepareColumnName(f.columnName) + " " + f.dataType + (length + (autoIncrement + (notNull + defaultValue)));
  }

  lemma ColumnDefinitionsStep(base: DialectDefault, md: ModelUtils, fs: seq<FieldDefinition>, i: nat)
    requires i < |fs|
    ensures ColumnDefinitions(base, md, fs[..i + 1]) == ColumnDefinitions(base, md, fs[..i]) + [ColumnDefinition(base, md, fs[i])]
  {
    assert fs[..i + 1] == fs[..i] + [fs[i]];
    ApplySnoc(ColumnDefinitionOfField(base, md), fs[..i], fs[i]);
  }

  /** The column loop of createTableIfRequired. */
  method ColumnDefinitionList(base: DialectDefault, md: ModelUtils, fs: seq<FieldDefinition>) returns (sql: string)
    ensures sql == Join(", ", ColumnDefinitions(base, md, fs))
  {
    sql := "";
    var i := 0;
    while i < |fs|
      invariant 0 <= i <= |fs|
      invariant sql == Join(", ", ColumnDefinitions(base, md, fs[..i]))
    {
      ColumnDefinitionsStep(base, md, fs, i);
      var column := ColumnDefinitionOf(base, md, fs[i]);
      JoinSnoc(", ", ColumnDefinitions(base, md, fs[..i]), column);
      if i > 0 {
        sql := sql + ", ";
      }
      sql := sql + column;
      i := i + 1;
    }
    assert fs[..i] == fs;
  }

  /** Joins names with ", ": the PRIMARY KEY loop of createTableIfRequired. */
  method NameList(names: seq<string>) returns (sql: string)
    ensures sql == Join(", ", names)
  {
    sql := "";
    var i := 0;
    while i < |names|
      invariant 0 <= i <= |names|
      invariant sql == Join(", ", names[..i])
    {
      assert names[..i + 1] == names[..i] + [names[i]];
      JoinSnoc(", ", names[..i], names[i]);
      if i > 0 {
        sql := sql + ", ";
      }
      sql := sql + names[i];
      i := i + 1;
    }
    assert names[..i] == names;
  }

  lemma IndexStatementsSnoc(d: Dialect, base: DialectDefault, table: string, xs: seq<IndexDefinition>, x: IndexDefinition)
    ensures IndexStatements(d, base, table, xs + [x]) == IndexStatements(d, base, table, xs) + [CreateIndexText(d, base, table, x)]
  {
    assert (xs + [x])[..|xs|] == xs;
  }

  lemma IndexStatementsStep(d: Dialect, base: DialectDefault, table: string, indexes: seq<IndexDefinition>, i: nat)
    requires i < |indexes|
    ensures IndexStatements(d, base, table, indexes[..i + 1]) ==
            IndexStatements(d, base, table, indexes[..i]) + [CreateIndexText(d, base, table, indexes[i])]
  {
    assert indexes[..i + 1] == indexes[..i] + [indexes[i]];
    IndexStatementsSnoc(d, base, table, indexes[..i], indexes[i]);
  }

  /** The index loop of createTableIfRequired: the dialect's statement for each index, in order. */
  method IndexStatementList(d: Dialect, base: DialectDefault, schema: Option<string>, table: string,
                            indexes: seq<IndexDefinition>)
    returns (statements: seq<string>)
    ensures statements == IndexStatements(d, base, table, indexes)
  {
    statements := [];
    var i := 0;
    while i < |indexes|
      invariant 0 <= i <= |indexes|
      invariant statements == IndexStatements(d, base, table, indexes[..i])
    {
      IndexStatementsStep(d, base, table, indexes, i);
      var sql := PrepareCreateIndex(d, base, schema, table, indexes[i]);
      statements := statements + [sql];
      i := i + 1;
    }
    assert indexes[..i] == indexes;
  }
}
