/**
 * TableDefinition: the mutable mapping of one model class to one table. It holds the
 * schema and table names, the table version, the field definitions, the identity map from
 * each field's sentinel object to its definition, the primary-key column list and the
 * index definitions; mapFields and mapObject fill it in from the class's annotations, and
 * insert, merge, update, delete, createTableIfRequired and appendSelectList synthesise SQL
 * from it.
 */
module Tables {
  import opened Wrappers
  import opened Text
  import opened Iciql
  import opened Fields
  import opened Dialects
  import opened Statements
  import opened Mapping

  /** The distinct object initObject stores into a field of the alias; only its identity matters. */
  class Sentinel
  {
    constructor()
    {
    }
  }

  /** A map whose keys are exactly `handles`, handle i mapping to i, has the positions as its values. */
  lemma ValuesOfHandles(m: map<Sentinel, nat>, handles: seq<Sentinel>)
    requires forall s :: s in m <==> s in handles
    requires forall i :: 0 <= i < |handles| ==> m[handles[i]] == i
    ensures m.Values == Positions(|handles|)
  {
    forall v | v in m.Values
      ensures v in Positions(|handles|)
    {
      var s :| s in m && m[s] == v;
      var i :| 0 <= i < |handles| && handles[i] == s;
    }
    forall k | k in Positions(|handles|)
      ensures k in m.Values
    {
      assert handles[k] in m;
    }
  }

  /** Extending the processed prefix of `list` by one element. */
  lemma SnocSlice<T>(before: seq<T>, list: seq<T>, i: nat)
    requires i < |list|
    ensures before + list[..i + 1] == (before + list[..i]) + [list[i]]
  {
    assert list[..i + 1] == list[..i] + [list[i]];
  }

  /** Every index the identity map holds is below `n` when every entry is. */
  lemma ValuesBelow(m: map<Sentinel, nat>, n: nat)
    requires forall s :: s in m ==> m[s] < n
    ensures forall v :: v in m.Values ==> v < n
  {
    forall v | v in m.Values
      ensures v < n
    {
      var s :| s in m && m[s] == v;
    }
  }

  /** The key loop of mapFields: the names of the key-flagged fields, in field order. */
  method KeyColumnList(fs: seq<FieldDefinition>) returns (names: seq<string>)
    ensures names == ColumnNames(KeyFields(fs))
  {
    names := [];
    var j := 0;
    while j < |fs|
      invariant 0 <= j <= |fs|
      invariant names == ColumnNames(KeyFields(fs[..j]))
    {
      KeyNamesStep(fs, j);
      if fs[j].isPrimaryKey {
        names := names + [fs[j].columnName];
      }
      j := j + 1;
    }
    assert fs[..j] == fs;
  }

  class TableDefinition
  {
    const clazz: ModelClass
    var schemaName: Option<string>
    var tableName: string
    var tableVersion: int
    var createTableIfRequired: bool
    var fields: seq<FieldDefinition>
    /** The identity map: each sentinel stands for the field definition at that position of `fields`. */
    var fieldMap: map<Sentinel, nat>
    var primaryKeyColumnNames: Option<seq<string>>
    var indexes: seq<IndexDefinition>
    /** Never set by the mapping core; it only switches the CREATE prefix. */
    var memoryTable: bool

    /** Every sentinel refers to an existing field definition. */
    ghost predicate Valid()
      reads this
    {
      forall s :: s in fieldMap ==> fieldMap[s] < |fields|
    }

    constructor(clazz: ModelClass)
      ensures this.clazz == clazz && schemaName == None && tableName == clazz.simpleName
      ensures tableVersion == 0 && createTableIfRequired && !memoryTable
      ensures fields == [] && fieldMap == map[] && primaryKeyColumnNames == None && indexes == []
      ensures Valid()
    {
      this.clazz := clazz;
      schemaName := None;
      tableName := clazz.simpleName;
      tableVersion := 0;
      createTableIfRequired := true;
      fields := [];
      fieldMap := map[];
      primaryKeyColumnNames := None;
      indexes := [];
      memoryTable := false;
    }

    /** getField: the first field whose column name equals `name` ignoring case, if any. */
    method GetField(name: string) returns (r: Option<FieldDefinition>)
      ensures r.Some? ==>
                exists i :: 0 <= i < |fields| && fields[i] == r.value && EqualsIgnoreCase(fields[i].columnName, name) &&
                            forall j :: 0 <= j < i ==> !EqualsIgnoreCase(fields[j].columnName, name)
      ensures r.None? ==> forall i :: 0 <= i < |fields| ==> !EqualsIgnoreCase(fields[i].columnName, name)
    {
      var i := 0;
      while i < |fields|
        invariant 0 <= i <= |fields|
        invariant forall j :: 0 <= j < i ==> !EqualsIgnoreCase(fields[j].columnName, name)
      {
        if EqualsIgnoreCase(fields[i].columnName, name) {
          return Some(fields[i]);
        }
        i := i + 1;
      }
      return None;
    }

    method SetSchemaName(schemaName: Option<string>)
      modifies this`schemaName
      ensures this.schemaName == schemaName
    {
      this.schemaName := schemaName;
    }

    method SetTableName(tableName: string)
      modifies this`tableName
      ensures this.tableName == tableName
    {
      this.tableName := tableName;
    }

    /**
     * setPrimaryKey(columnNames): stores the key list and re-flags every field the identity
     * map refers to, leaving the others alone.
     */
    method SetPrimaryKey(columnNames: seq<string>)
      requires Valid()
      modifies this`fields, this`primaryKeyColumnNames
      ensures Valid()
      ensures primaryKeyColumnNames == Some(columnNames)
      ensures fields == WithKeyFlags(old(fields), fieldMap.Values, columnNames)
    {
      primaryKeyColumnNames := Some(columnNames);
      var pending := fieldMap.Values;
      ghost var done: set<nat> := {};
      ValuesBelow(fieldMap, |fields|);
      while pending != {}
        invariant pending <= fieldMap.Values && done == fieldMap.Values - pending
        invariant forall v :: v in pending ==> v < |old(fields)|
        invariant fields == WithKeyFlags(old(fields), done, columnNames)
        invariant primaryKeyColumnNames == Some(columnNames)
        decreases |pending|
      {
        var k :| k in pending;
        WithKeyFlagsStep(old(fields), done, k, columnNames);
        fields := fields[k := fields[k].(isPrimaryKey := fields[k].columnName in columnNames)];
        pending := pending - {k};
        done := done + {k};
      }
      assert done == fieldMap.Values;
    }

    /** getColumnName: the column name of the field a sentinel stands for, or None for any other object. */
    function GetColumnName(o: Sentinel): (r: Option<string>)
      reads this
      requires Valid()
      ensures r.Some? <==> o in fieldMap
      ensures r.Some? ==> r.value == fields[fieldMap[o]].columnName
    {
      if o in fieldMap then Some(fields[fieldMap[o]].columnName) else None
    }

    /** mapColumnNames: the column name behind each object, in order, None where an object is no sentinel. */
    method MapColumnNames(columns: seq<Sentinel>) returns (names: seq<Option<string>>)
      requires Valid()
      ensures |names| == |columns|
      ensures forall k :: 0 <= k < |columns| ==> (names[k].Some? <==> columns[k] in fieldMap)
      ensures forall k :: 0 <= k < |columns| && columns[k] in fieldMap ==>
                names[k] == Some(fields[fieldMap[columns[k]]].columnName)
    {
      names := [];
      var i := 0;
      while i < |columns|
        invariant 0 <= i <= |columns| && |names| == i
        invariant forall k :: 0 <= k < i ==> names[k] == GetColumnName(columns[k])
      {
        names := names + [GetColumnName(columns[i])];
        i := i + 1;
      }
    }

    /**
     * addIndex(name, type, columnNames): appends one index; a missing or empty name becomes
     * the table name, "_", and the number of indexes already present.
     */
    method AddIndex(name: Option<string>, kind: IndexType, columnNames: seq<string>)
      modifies this`indexes
      ensures indexes == old(indexes) + [IndexDefinition(kind, IndexName(name, tableName, |old(indexes)|), columnNames)]
    {
      var indexName;
      if name.None? || name.value == "" {
        indexName := tableName + "_" + NatToString(|indexes|);
      } else {
        indexName := name.value;
      }
      indexes := indexes + [IndexDefinition(kind, indexName, columnNames)];
    }

    /** addIndex(IQIndex): the annotation's name, type and columns. */
    method AddIndexFromAnnotation(index: IQIndex)
      modifies this`indexes
      ensures indexes == old(indexes) + [IndexDefinition(index.kind, IndexName(Some(index.name), tableName, |old(indexes)|), index.value)]
    {
      AddIndex(Some(index.name), index.kind, index.value);
    }

    /** setColumnName: renames the field a sentinel stands for; any other object changes nothing. */
    method SetColumnName(o: Sentinel, columnName: string)
      requires Valid()
      modifies this`fields
      ensures Valid()
      ensures o !in fieldMap ==> fields == old(fields)
      ensures o in fieldMap ==> fields == old(fields)[fieldMap[o] := old(fields)[fieldMap[o]].(columnName := columnName)]
    {
      if o in fieldMap {
        var k := fieldMap[o];
        fields := fields[k := fields[k].(columnName := columnName)];
      }
    }

    /** setMaxLength: sets the length of the field a sentinel stands for; any other object changes nothing. */
    method SetMaxLength(o: Sentinel, maxLength: int)
      requires Valid()
      modifies this`fields
      ensures Valid()
      ensures o !in fieldMap ==> fields == old(fields)
      ensures o in fieldMap ==> fields == old(fields)[fieldMap[o] := old(fields)[fieldMap[o]].(maxLength := maxLength)]
    {
      if o in fieldMap {
        var k := fieldMap[o];
        fields := fields[k := fields[k].(maxLength := maxLength)];
      }
    }

    /** The field loop of mapFields: appends the definition of every mapped field, in declaration order. */
    method AppendMappedFields(md: ModelUtils)
      requires Valid()
      modifies this`fields
      ensures Valid()
      ensures fields == old(fields) + MappedFields(clazz, md)
    {
      var settings := TableSettings(clazz);
      var classFields := ClassFields(clazz);
      var i := 0;
      while i < |classFields|
        invariant 0 <= i <= |classFields|
        invariant fields == old(fields) + MapAll(classFields[..i], settings, md)
        invariant |fields| >= |old(fields)|
      {
        MapAllStep(classFields, i, settings, md);
        var def := MapField(classFields[i], settings, md);
        if def.Some? {
          fields := fields + [def.value];
        }
        i := i + 1;
      }
      assert classFields[..i] == classFields;
    }

    /**
     * mapFields: appends a definition for every mapped field of the class (and of its
     * superclass when columns are inherited), then, when some field is flagged as key, makes
     * the flagged column names, in field order, the key list.
     */
    method MapFields(md: ModelUtils)
      requires Valid()
      modifies this`fields, this`primaryKeyColumnNames
      ensures Valid()
      ensures var mapped := old(fields) + MappedFields(clazz, md);
              var key := ColumnNames(KeyFields(mapped));
              if |key| > 0 then
                primaryKeyColumnNames == Some(key) && fields == WithKeyFlags(mapped, fieldMap.Values, key)
              else
                primaryKeyColumnNames == old(primaryKeyColumnNames) && fields == mapped
    {
      AppendMappedFields(md);
      var primaryKey := KeyColumnList(fields);
      if |primaryKey| > 0 {
        SetPrimaryKey(primaryKey);
      }
    }

    /**
     * initObject: stores a fresh sentinel for every field definition and registers sentinel
     * i as standing for field i; earlier registrations of other objects stay.
     */
    method InitObject() returns (handles: seq<Sentinel>)
      requires Valid()
      modifies this`fieldMap
      ensures Valid()
      ensures |handles| == |fields|
      ensures forall k :: 0 <= k < |handles| ==> fresh(handles[k])
      ensures forall k, j :: 0 <= k < j < |handles| ==> handles[k] != handles[j]
      ensures forall s :: s in fieldMap <==> s in old(fieldMap) || s in handles
      ensures forall s :: s in old(fieldMap) && s !in handles ==> fieldMap[s] == old(fieldMap)[s]
      ensures forall k :: 0 <= k < |handles| ==> fieldMap[handles[k]] == k
    {
      handles := [];
      var i := 0;
      while i < |fields|
        invariant 0 <= i <= |fields| && |handles| == i
        invariant forall k :: 0 <= k < i ==> fresh(handles[k])
        invariant forall k, j :: 0 <= k < j < i ==> handles[k] != handles[j]
        invariant forall s :: s in fieldMap <==> s in old(fieldMap) || s in handles
        invariant forall s :: s in old(fieldMap) && s !in handles ==> fieldMap[s] == old(fieldMap)[s]
        invariant forall k :: 0 <= k < i ==> fieldMap[handles[k]] == k
        invariant Valid()
      {
        var handle := new Sentinel();
        fieldMap := fieldMap[handle := i];
        handles := handles + [handle];
        i := i + 1;
      }
    }

    /**
     * mapObject: re-registers every field with a fresh sentinel, then applies the class's
     * IQSchema, IQTable (name, createIfRequired, IQVersion, primary key spec), IQIndex and
     * IQIndexes, in that order.
     */
    method MapObject() returns (handles: seq<Sentinel>)
      requires Valid()
      modifies this`fieldMap, this`schemaName, this`tableName, this`createTableIfRequired, this`tableVersion
      modifies this`fields, this`primaryKeyColumnNames, this`indexes
      ensures Valid()
      ensures |handles| == |fields| == |old(fields)|
      ensures forall k :: 0 <= k < |handles| ==> fresh(handles[k])
      ensures forall k, j :: 0 <= k < j < |handles| ==> handles[k] != handles[j]
      ensures forall s :: s in fieldMap <==> s in handles
      ensures forall k :: 0 <= k < |handles| ==> fieldMap[handles[k]] == k
      ensures schemaName ==
              if clazz.schema.Some? && clazz.schema.value.value != "" then Some(clazz.schema.value.value) else old(schemaName)
      ensures tableName ==
              if clazz.table.Some? && clazz.table.value.name != "" then clazz.table.value.name else old(tableName)
      ensures createTableIfRequired ==
              if clazz.table.Some? then clazz.table.value.createIfRequired else old(createTableIfRequired)
      ensures tableVersion ==
              if clazz.table.Some? && clazz.version.Some? && clazz.version.value.value > 0 then clazz.version.value.value
              else old(tableVersion)
      ensures AnnotatedPrimaryKey(clazz).Some? ==>
                primaryKeyColumnNames == AnnotatedPrimaryKey(clazz) &&
                fields == WithKeyFlags(old(fields), Positions(|old(fields)|), AnnotatedPrimaryKey(clazz).value)
      ensures AnnotatedPrimaryKey(clazz).None? ==>
                primaryKeyColumnNames == old(primaryKeyColumnNames) && fields == old(fields)
      ensures indexes == old(indexes) + IndexDefinitionsFrom(tableName, |old(indexes)|, AnnotatedIndexes(clazz))
    {
      handles := ResetFieldMap();
      ApplyClassAnnotations();
    }

    /** The first two lines of mapObject: clear the identity map, then register fresh sentinels. */
    method ResetFieldMap() returns (handles: seq<Sentinel>)
      requires Valid()
      modifies this`fieldMap
      ensures Valid()
      ensures |handles| == |fields|
      ensures forall k :: 0 <= k < |handles| ==> fresh(handles[k])
      ensures forall k, j :: 0 <= k < j < |handles| ==> handles[k] != handles[j]
      ensures forall s :: s in fieldMap <==> s in handles
      ensures forall k :: 0 <= k < |handles| ==> fieldMap[handles[k]] == k
      ensures fieldMap.Values == Positions(|fields|)
    {
      fieldMap := map[];
      handles := InitObject();
      ValuesOfHandles(fieldMap, handles);
    }

    /** The annotation part of mapObject, once every field is registered in the identity map. */
    method ApplyClassAnnotations()
      requires Valid()
      requires fieldMap.Values == Positions(|fields|)
      modifies this`schemaName, this`tableName, this`createTableIfRequired, this`tableVersion
      modifies this`fields, this`primaryKeyColumnNames, this`indexes
      ensures Valid()
      ensures |fields| == |old(fields)|
      ensures schemaName ==
              if clazz.schema.Some? && clazz.schema.value.value != "" then Some(clazz.schema.value.value) else old(schemaName)
      ensures tableName ==
              if clazz.table.Some? && clazz.table.value.name != "" then clazz.table.value.name else old(tableName)
      ensures createTableIfRequired ==
              if clazz.table.Some? then clazz.table.value.createIfRequired else old(createTableIfRequired)
      ensures tableVersion ==
              if clazz.table.Some? && clazz.version.Some? && clazz.version.value.value > 0 then clazz.version.value.value
              else old(tableVersion)
      ensures AnnotatedPrimaryKey(clazz).Some? ==>
                primaryKeyColumnNames == AnnotatedPrimaryKey(clazz) &&
                fields == WithKeyFlags(old(fields), Positions(|old(fields)|), AnnotatedPrimaryKey(clazz).value)
      ensures AnnotatedPrimaryKey(clazz).None? ==>
                primaryKeyColumnNames == old(primaryKeyColumnNames) && fields == old(fields)
      ensures indexes == old(indexes) + IndexDefinitionsFrom(tableName, |old(indexes)|, AnnotatedIndexes(clazz))
    {
      if clazz.schema.Some? && clazz.schema.value.value != "" {
        schemaName := Some(clazz.schema.value.value);
      }
      if clazz.table.Some? {
        ApplyTableAnnotation(clazz.table.value);
      }
      AddAnnotatedIndexes();
    }

    /** The IQTable part of mapObject. */
    method ApplyTableAnnotation(t: IQTable)
      requires Valid()
      requires clazz.table == Some(t)
      modifies this`tableName, this`createTableIfRequired, this`tableVersion, this`fields, this`primaryKeyColumnNames
      ensures Valid()
      ensures tableName == if t.name != "" then t.name else old(tableName)
      ensures createTableIfRequired == t.createIfRequired
      ensures tableVersion ==
              if clazz.version.Some? && clazz.version.value.value > 0 then clazz.version.value.value else old(tableVersion)
      ensures AnnotatedPrimaryKey(clazz).Some? ==>
                primaryKeyColumnNames == AnnotatedPrimaryKey(clazz) &&
                fields == WithKeyFlags(old(fields), fieldMap.Values, AnnotatedPrimaryKey(clazz).value)
      ensures AnnotatedPrimaryKey(clazz).None? ==>
                primaryKeyColumnNames == old(primaryKeyColumnNames) && fields == old(fields)
    {
      if t.name != "" {
        tableName := t.name;
      }
      createTableIfRequired := t.createIfRequired;
      if clazz.version.Some? && clazz.version.value.value > 0 {
        tableVersion := clazz.version.value.value;
      }
      var primaryKey := GetColumns(Some(t.primaryKey));
      if primaryKey.Some? {
        SetPrimaryKey(primaryKey.value);
      }
    }

    /** The IQIndex and IQIndexes part of mapObject. */
    method AddAnnotatedIndexes()
      modifies this`indexes
      ensures indexes == old(indexes) + IndexDefinitionsFrom(tableName, |old(indexes)|, AnnotatedIndexes(clazz))
    {
      ghost var done: seq<IQIndex> := [];
      if clazz.index.Some? {
        IndexDefinitionsStep(old(indexes), indexes, tableName, done, clazz.index.value);
        AddIndexFromAnnotation(clazz.index.value);
        done := done + [clazz.index.value];
      }
      var list := if clazz.indexes.Some? then clazz.indexes.value else [];
      AddIndexesFromAnnotation(list, old(indexes), done);
    }

    /** The IQIndexes loop of mapObject: addIndex for each annotation, in order. */
    method AddIndexesFromAnnotation(list: seq<IQIndex>, ghost prior: seq<IndexDefinition>, ghost before: seq<IQIndex>)
      requires indexes == prior + IndexDefinitionsFrom(tableName, |prior|, before)
      modifies this`indexes
      ensures indexes == prior + IndexDefinitionsFrom(tableName, |prior|, before + list)
    {
      var i := 0;
      assert before + list[..0] == before;
      while i < |list|
        invariant 0 <= i <= |list|
        invariant indexes == prior + IndexDefinitionsFrom(tableName, |prior|, before + list[..i])
      {
        IndexDefinitionsStep(prior, indexes, tableName, before + list[..i], list[i]);
        SnocSlice(before, list, i);
        AddIndexFromAnnotation(list[i]);
        i := i + 1;
      }
      assert list[..i] == list;
    }

    // ------------------------------------------------- statement synthesis

    /** insert: all columns, a placeholder each, and every field's converted value. */
    method Insert(d: Dialect, base: DialectDefault, obj: Instance) returns (r: Result<Statement, Error>)
      ensures r == InsertStatement(d, base, schemaName, tableName, fields, obj)
    {
      var columns := PreparedColumnList(base, fields);
      var values := BindFieldValues(fields, obj);
      if values.Failure? {
        return Failure(values.error);
      }
      var sql := "INSERT INTO " + PrepareTableName(d, base, schemaName, tableName) + "(" + columns +
                 ") VALUES(" + values.value.0 + ")";
      r := Success(Statement(sql, values.value.1));
    }

    /** merge: refused without a key list; otherwise MERGE ... KEY(...) over all columns. */
    method Merge(d: Dialect, base: DialectDefault, obj: Instance) returns (r: Result<Statement, Error>)
      ensures r == TableMergeStatement(d, base, clazz.simpleName, schemaName, tableName, fields, primaryKeyColumnNames, obj)
    {
      if primaryKeyColumnNames.None? || |primaryKeyColumnNames.value| == 0 {
        return Failure(NoPrimaryKey(clazz.simpleName));
      }
      var columns := PreparedColumnList(base, fields);
      var keys := PreparedKeyColumnList(base, fields);
      var values := BindFieldValues(fields, obj);
      if values.Failure? {
        return Failure(values.error);
      }
      var sql := "MERGE INTO " + PrepareTableName(d, base, schemaName, tableName) + " (" + columns +
                 (") KEY(" + keys + ") ") + "VALUES (" + values.value.0 + ")";
      r := Success(Statement(sql, values.value.1));
    }

    /** update: refused without a key list; otherwise SET over the non-key columns, WHERE over the key columns. */
    method Update(d: Dialect, base: DialectDefault, obj: Instance) returns (r: Result<KeyedStatement, Error>)
      ensures r == UpdateStatement(d, base, clazz.simpleName, schemaName, tableName, fields, primaryKeyColumnNames, obj)
    {
      if primaryKeyColumnNames.None? || |primaryKeyColumnNames.value| == 0 {
        return Failure(NoPrimaryKey(clazz.simpleName));
      }
      var assignments := SetClauseList(base, fields, obj);
      if assignments.Failure? {
        return Failure(assignments.error);
      }
      var conditions := KeyConditionList(fields, obj);
      var sql := "UPDATE " + PrepareTableName(d, base, schemaName, tableName) + " SET " + assignments.value.0;
      r := Success(KeyedStatement(sql, assignments.value.1, conditions));
    }

    /** delete: refused without a key list; otherwise DELETE FROM with the key columns as conditions. */
    method Delete(d: Dialect, base: DialectDefault, obj: Instance) returns (r: Result<KeyedStatement, Error>)
      ensures r == DeleteStatement(d, base, clazz.simpleName, schemaName, tableName, fields, primaryKeyColumnNames, obj)
    {
      if primaryKeyColumnNames.None? || |primaryKeyColumnNames.value| == 0 {
        return Failure(NoPrimaryKey(clazz.simpleName));
      }
      var conditions := KeyConditionList(fields, obj);
      r := Success(KeyedStatement("DELETE FROM " + PrepareTableName(d, base, schemaName, tableName), [], conditions));
    }

    /** createTableIfRequired: the CREATE TABLE statement and one CREATE INDEX per index, unless creation is off. */
    method CreateTableIfRequired(d: Dialect, base: DialectDefault, md: ModelUtils) returns (script: seq<string>)
      ensures script == CreateScript(d, base, md, createTableIfRequired, schemaName, tableName, memoryTable, fields,
                                     primaryKeyColumnNames, indexes)
    {
      if !createTableIfRequired {
        return [];
      }
      var prefix;
      if memoryTable && SupportsMemoryTables(d, base) {
        prefix := "CREATE MEMORY TABLE IF NOT EXISTS ";
      } else {
        prefix := "CREATE TABLE IF NOT EXISTS ";
      }
      var columns := ColumnDefinitionList(base, md, fields);
      var key := "";
      if primaryKeyColumnNames.Some? && |primaryKeyColumnNames.value| > 0 {
        var names := NameList(primaryKeyColumnNames.value);
        key := ", PRIMARY KEY(" + names + ")";
      }
      var table := prefix + (PrepareTableName(d, base, schemaName, tableName) + ("(" + (columns + (key + ")"))));
      var indexStatements := IndexStatementList(d, base, schemaName, tableName, indexes);
      script := [table] + indexStatements;
    }

    /** appendSelectList: every column, as the statement's appendColumn writes it, comma-separated, in field order. */
    method AppendSelectList(appendColumn: string -> string) returns (sql: string)
      ensures sql == Join(", ", Apply(appendColumn, ColumnNames(fields)))
    {
      sql := "";
      var i := 0;
      while i < |fields|
        invariant 0 <= i <= |fields|
        invariant sql == Join(", ", Apply(appendColumn, ColumnNames(fields[..i])))
      {
        assert fields[..i + 1] == fields[..i] + [fields[i]];
        ColumnNamesAppend(fields[..i], [fields[i]]);
        ApplySnoc(appendColumn, ColumnNames(fields[..i]), fields[i].columnName);
        JoinSnoc(", ", Apply(appendColumn, ColumnNames(fields[..i])), appendColumn(fields[i].columnName));
        if i > 0 {
          sql := sql + ", ";
        }
        sql := sql + appendColumn(fields[i].columnName);
        i := i + 1;
      }
      assert fields[..i] == fields;
    }
  }
}
