# iciql mapping and statement synthesis, in Dafny

This project models the core of iciql, a small Java object-relational mapper. It covers:

- how `TableDefinition` turns a model class and its annotations (`IQTable`, `IQColumn`, `IQEnum`,
  `IQSchema`, `IQVersion`, `IQIndex`, `IQIndexes`) into table metadata: field definitions,
  primary key, indexes, schema and table names, version;
- the alias technique: every mapped field holds a fresh sentinel object, and an identity map
  leads from the sentinel back to the field definition;
- the write-side value conversion `getValue`: enum encoding and string clipping;
- the SQL that `TableDefinition` synthesises: INSERT, MERGE, UPDATE, DELETE, CREATE TABLE with
  its CREATE INDEX statements, and the select list;
- the dialect variants H2 and SQLite: CREATE INDEX, MERGE / INSERT OR REPLACE, capability flags,
  CREATE/DROP VIEW phrases, LIMIT/OFFSET.

Modules, one per file:

| file | module | contents |
|---|---|---|
| wrappers.dfy | Wrappers | `Option` (Java's null) and `Result` (a thrown exception) |
| text.dfy | Text | separator joining, decimal rendering, Java `trim`, the `(,\|\s)` split |
| iciql.dfy | Iciql | index kinds, enum encodings, the annotations with their defaults, explicit reflection descriptors |
| fields.dfy | Fields | `FieldDefinition`, `IndexDefinition`, `getValue`, key / non-key selections |
| mapping.dfy | Mapping | the rules of `mapFields`, `getColumns`, index naming and key re-flagging, as functions |
| dialects.dfy | Dialects | `SQLDialect` with its H2 and SQLite variants |
| statements.dfy | Statements | the statements as functions of the metadata, and the builder loops as methods proved against them |
| tables.dfy | Tables | `class TableDefinition`, whose methods update its fields in place |

`TableDefinition` is a Dafny class. Its fields are the Java fields, its
methods carry `modifies` clauses, and each method's `ensures` states the whole new state. The
new state is given either outright or via a function in `Mapping` or `Statements`. Lemmas
about those functions prove what the source promises. The identity map is a
`map<Sentinel, nat>` from sentinel objects to positions in the field list. Java's map values
alias the list's `FieldDefinition` objects; positions capture that aliasing.

Helpers that live outside the modelled files are parameters:

- `ModelUtils` holds the type mapping and the two default-value checks.
- `DialectDefault` holds everything H2 and SQLite inherit from `SQLDialectDefault`:
  `prepareTableName`, `prepareColumnName`, the default flags, the CREATE prefixes, DROP VIEW and
  `serialize`.
- `appendColumn` of the statement is a parameter of `AppendSelectList`.
- An object is an `Instance`, a function from a field's identity to the value it holds.

Where the code and the design description differ, the model follows the code:

- A NAME-encoded enum is clipped to maxLength only when the field also has trimString set.
- An unannotated field allows null, while an annotated one takes IQColumn's `allowNull`
  default, which is false.
- SQLite's CREATE INDEX never uses the schema name.
- SQLite warns about hash indexes in its default branch (see Findings).

## Model

| member | source | states |
|---|---|---|
| Text.JoinSnoc | src/com/iciql/TableDefinition.java:383-386 | appending one more item to a joined list adds the separator only when the list was not empty (appendExceptFirst) |
| Text.PlaceholdersStep | src/com/iciql/TableDefinition.java:389-391 | one more field adds ", ?" to a non-empty placeholder list and "?" to an empty one |
| Text.PlaceholderCount | src/com/iciql/TableDefinition.java:387-395 | the VALUES list written for n fields holds exactly n question marks |
| Text.ParseNatToString | src/com/iciql/TableDefinition.java:530-532 | a length written in decimal reads back as the same number |
| Text.NatToStringInjective | src/com/iciql/TableDefinition.java:228-229 | distinct index counts are written as distinct decimal suffixes |
| Text.SplitAtSeparators | src/com/iciql/TableDefinition.java:595 | splitting at commas and whitespace yields at least one piece, and no piece contains a separator |
| Text.JavaTrimIsInfix | src/com/iciql/TableDefinition.java:597-598 | trim keeps a contiguous part of the input with no blank at either end |
| Text.NonBlankPiecesArePlain | src/com/iciql/TableDefinition.java:596-600 | every column name getColumns keeps is non-empty, separator-free and already trimmed |
| Text.SplitSpaced | src/com/iciql/TableDefinition.java:595-600 | plain words, each followed by its own run of separators (non-empty between two words, optional after the last), split back into exactly those words, in order |
| Text.LeadingSeparatorsDropped | src/com/iciql/TableDefinition.java:595-600 | separators in front of a spec only open empty pieces, so the kept pieces are those of the rest |
| Text.JoinIsSpaced | src/com/iciql/TableDefinition.java:595 | a list joined with one separator throughout is the spaced form with that separator in every gap but the last |
| Text.JavaTrimEmpty | src/com/iciql/TableDefinition.java:597 | trim yields the empty string exactly when every character is at most U+0020 |
| Text.NoPiecesIffBlank | src/com/iciql/TableDefinition.java:595-600 | no piece survives the split and the blank filter exactly when the spec consists only of commas and characters up to U+0020 |
| Text.JavaTrimTrailing | src/main/java/com/iciql/SQLDialectSQLite.java:86-88 | trimming a text with non-blank ends, after blanks were appended, gives that text back |
| Fields.Clip | src/com/iciql/TableDefinition.java:367-371 | substring(0, n): at most n characters, a prefix of the input, the input itself when it is short enough and exactly n characters otherwise |
| Fields.GetValueByName | src/com/iciql/TableDefinition.java:347-353 | a NAME-encoded enum is written as a prefix of its name: exactly its first maxLength characters when the field clips and the name is longer, and the whole name otherwise |
| Fields.GetValueByOrdinal | src/com/iciql/TableDefinition.java:354-355 | an ORDINAL-encoded enum is written as its ordinal |
| Fields.GetValueByEnumId | src/com/iciql/TableDefinition.java:356-361 | ENUMID encoding fails iff the constant does not implement EnumId, and otherwise writes its enumId |
| Fields.GetValueClipsStrings | src/com/iciql/TableDefinition.java:364-374 | a string in a field with trimString and a positive maxLength is written as its first maxLength characters; otherwise unchanged |
| Fields.GetValueFailsOnlyOnEnums | src/com/iciql/TableDefinition.java:341-377 | conversion can fail only on enum fields; a value that is neither an enum nor a clipped string passes through unchanged |
| Fields.ConvertedValues | src/com/iciql/TableDefinition.java:389-394 | a successful conversion of a field list yields one value per field |
| Fields.ConvertedValuesSpec | src/com/iciql/TableDefinition.java:389-394 | converting the fields succeeds iff every field converts; value k is field k's, and a failure carries the error of the first field that fails |
| Fields.ConvertedValuesPrefixFailure | src/com/iciql/TableDefinition.java:392-393 | once a field fails, the rest of the list is not looked at: the whole list fails with that error |
| Fields.KeyFieldsAreSelection | src/com/iciql/TableDefinition.java:419-424 | the key loop selects exactly the key-flagged fields, in field order |
| Fields.NonKeyFieldsAreSelection | src/com/iciql/TableDefinition.java:451-459 | the SET loop selects exactly the fields not flagged as key, in field order |
| Fields.KeyFieldsPartition | src/com/iciql/TableDefinition.java:451-473 | every field goes to exactly one of SET and WHERE |
| Dialects.Capabilities | src/com/iciql/SQLDialectH2.java:28-36 | H2 supports memory tables and MERGE, SQLite has no savepoints, LIMIT/OFFSET support is inherited |
| Dialects.SqliteTablePhrases | src/main/java/com/iciql/SQLDialectSQLite.java:42-58 | SQLite's CREATE TABLE / CREATE VIEW phrases use IF NOT EXISTS, and its DROP VIEW uses IF EXISTS on the prepared table name |
| Dialects.LimitOffsetRoundTrip | src/com/iciql/SQLDialect.java:92-110 | LIMIT and OFFSET keep the statement as a prefix, and the number reads back from the clause |
| Dialects.SqliteDowngradesHash | src/main/java/com/iciql/SQLDialectSQLite.java:64-74 | SQLite writes the H2 keyword of the kind with hashing dropped, and warns exactly on its default branch |
| Dialects.WarnsOnIndexMisfires | src/main/java/com/iciql/SQLDialectSQLite.java:65-74 | as written, the hash warning fires for a standard index and not for a unique hash index |
| Dialects.WarnsOnHashIndexExactly | src/main/java/com/iciql/SQLDialectSQLite.java:65-74 | the intended warning fires exactly when SQLite writes a different kind than H2 would: on HASH and UNIQUE_HASH |
| Dialects.SqliteIndexIsDowngradedH2Index | src/main/java/com/iciql/SQLDialectSQLite.java:61-89 | SQLite's CREATE INDEX is H2's for the downgraded kind over the prepared column names |
| Dialects.CreateIndexTextEnds | src/main/java/com/iciql/SQLDialectSQLite.java:64-86 | the CREATE INDEX text starts with "C" and ends with ")", so SQLite's trim removes only the trailing blank |
| Dialects.IndexColumnList | src/com/iciql/SQLDialectH2.java:60-63 | the column loop writes the index's columns comma-separated, prepared on SQLite |
| Dialects.PrepareCreateIndex | src/main/java/com/iciql/SQLDialectSQLite.java:61-89 | prepareCreateIndex (both dialects) builds exactly CreateIndexText: CREATE, the kind keyword, INDEX IF NOT EXISTS, name, ON table, columns |
| Dialects.MergeParameters | src/main/java/com/iciql/SQLDialectSQLite.java:104-110 | merge parameter k is field k's converted value, serialized on SQLite |
| Dialects.MergeShape | src/com/iciql/SQLDialectH2.java:68-96 | a merge's text ends with a VALUES list of one placeholder per field, it binds one parameter per field in order, and H2's KEY list is an order-preserving selection of its column list |
| Dialects.MergeColumnList | src/com/iciql/SQLDialectH2.java:73-76 | the column loop writes the column names comma-separated |
| Dialects.MergeKeyList | src/com/iciql/SQLDialectH2.java:79-84 | the KEY loop writes the key-flagged column names comma-separated, in field order |
| Dialects.MergeValues | src/main/java/com/iciql/SQLDialectSQLite.java:103-111 | the value loop writes one placeholder per field and binds each converted parameter in order, or stops at the first failure |
| Dialects.PrepareMerge | src/main/java/com/iciql/SQLDialectSQLite.java:92-113 | prepareMerge (both dialects) builds exactly MergeStatement: MERGE ... KEY(...) on H2, INSERT OR REPLACE on SQLite |
| Mapping.MapField | src/com/iciql/TableDefinition.java:270-324 | a field is mapped iff annotated or public without annotationsOnly; the column name, flags, length, default, data type and enum encoding (field, then enum type, then NAME) are as the annotations say |
| Mapping.UnannotatedDefaultsDiffer | src/com/iciql/TableDefinition.java:277-290 | an unannotated field allows null; a field with an all-default IQColumn does not |
| Mapping.MapAllKeepsOrder | src/com/iciql/TableDefinition.java:263-325 | the mapped definitions keep the declaration order of the class's fields |
| Mapping.MapAllMembers | src/com/iciql/TableDefinition.java:309-324 | every definition comes from one declared field, and every mapped field has its definition in the list |
| Mapping.GetColumns | src/com/iciql/TableDefinition.java:590-605 | no list for a missing or empty spec; for a present spec, no list exactly when it consists only of commas and characters up to U+0020; any list is non-empty and holds trimmed, separator-free names |
| Mapping.GetColumnsRoundTrip | src/com/iciql/TableDefinition.java:592-604 | plain column names come back from getColumns however they are spaced: optional separators in front, then each name followed by its own separator run, non-empty between names and optional after the last |
| Mapping.UniformJoinRoundTrip | src/com/iciql/TableDefinition.java:592-604 | a key list joined with any one separator run throughout comes back from getColumns |
| Mapping.GetColumnsCommaOrSpace | src/com/iciql/TableDefinition.java:584-595 | "id, name" and "id name" give the same key list |
| Mapping.GeneratedIndexNamesDistinct | src/com/iciql/TableDefinition.java:228-229 | generated index names on one table never collide |
| Mapping.IndexDefinitionsFrom | src/com/iciql/TableDefinition.java:651-656 | IQIndexes adds one index per annotation |
| Mapping.IndexDefinitionsPointwise | src/com/iciql/TableDefinition.java:660-663 | annotated index k keeps its kind and columns and, when unnamed, is named after the number of indexes before it |
| Mapping.WithKeyFlagsPointwise | src/com/iciql/TableDefinition.java:187-189 | re-flagging sets a registered field's key flag iff its column is in the key list and changes nothing else |
| Mapping.DerivedKeyIsConsistent | src/com/iciql/TableDefinition.java:326-334 | re-flagging by the key list mapFields derives from the flags changes no field, given distinct column names |
| Statements.PreparedColumnsPointwise | src/com/iciql/TableDefinition.java:383-386 | prepared column k is the dialect's rendering of field k's column name |
| Statements.InsertShape | src/com/iciql/TableDefinition.java:379-396 | an insert succeeds iff every field converts; its text then ends with a VALUES list of one placeholder per field, and it binds one parameter per placeholder, parameter k being field k's converted value, and otherwise reports the first failure |
| Statements.SetItems | src/com/iciql/TableDefinition.java:453-455 | assignment k is the prepared column name of field k followed by " = ?" |
| Statements.KeyConditions | src/com/iciql/TableDefinition.java:463-472 | WHERE condition k compares key field k's column with its raw value |
| Statements.UpdateShape | src/com/iciql/TableDefinition.java:441-459 | update fails without a key list; with one it succeeds iff every non-key field converts, with one parameter per non-key field, in order |
| Statements.UpdateConditions | src/com/iciql/TableDefinition.java:460-475 | a successful update has one condition per key field in order, and its parameters and conditions together cover every field once |
| Statements.DeleteShape | src/com/iciql/TableDefinition.java:480-504 | delete fails iff there is no key list, and otherwise has no parameters and one condition per key field |
| Statements.TableMergeIsH2Merge | src/com/iciql/TableDefinition.java:404-435 | given a key list and a dialect that leaves column names alone, TableDefinition's merge equals H2's prepareMerge |
| Statements.ColumnDefinitions | src/com/iciql/TableDefinition.java:527-552 | column definition k is the definition of field k |
| Statements.IndexStatements | src/com/iciql/TableDefinition.java:569-575 | index statement k is the dialect's CREATE INDEX for index k |
| Statements.CreateScriptShape | src/com/iciql/TableDefinition.java:509-581 | the script is empty iff creation is off, and otherwise is the CREATE TABLE followed by one CREATE INDEX per index, in order |
| Statements.MemoryTablePrefix | src/com/iciql/TableDefinition.java:519-523 | CREATE TABLE uses the MEMORY form iff the table is a memory table and the dialect supports it |
| Statements.PrimaryKeyClauseAtEnd | src/com/iciql/TableDefinition.java:554-564 | with a key list the statement ends with PRIMARY KEY over the stored names; without one the column list closes it |
| Statements.DecodeLengthRoundTrip | src/com/iciql/TableDefinition.java:530-532 | the "(n)" length appears iff maxLength is positive and reads back as maxLength |
| Statements.DecodeFlagsRoundTrip | src/com/iciql/TableDefinition.java:534-551 | AUTO_INCREMENT, NOT NULL and DEFAULT read back as written, in that order |
| Statements.ColumnModifiersRoundTrip | src/com/iciql/TableDefinition.java:529-551 | a column's modifiers describe it exactly: length iff positive, AUTO_INCREMENT iff set, NOT NULL iff null is not allowed, DEFAULT iff the default is written |
| Statements.PreparedColumnList | src/com/iciql/TableDefinition.java:413-416 | the column loop writes the prepared column names comma-separated |
| Statements.PreparedKeyColumnList | src/com/iciql/TableDefinition.java:419-424 | the KEY loop writes the prepared key column names comma-separated, in field order |
| Statements.BindFieldValues | src/com/iciql/TableDefinition.java:389-394 | the placeholder loop writes n placeholders and binds the converted values in order, or stops at the first failure |
| Statements.SetClauseList | src/com/iciql/TableDefinition.java:451-459 | the SET loop writes one assignment and binds one converted value per non-key field, or stops at the first failure |
| Statements.KeyConditionList | src/com/iciql/TableDefinition.java:463-473 | the WHERE loop adds one condition per key field, in field order |
| Statements.ColumnDefinitionOf | src/com/iciql/TableDefinition.java:529-551 | the column body writes name, type, length, AUTO_INCREMENT, NOT NULL and DEFAULT exactly as ColumnDefinition says |
| Statements.ColumnDefinitionList | src/com/iciql/TableDefinition.java:527-552 | the column loop writes every column definition, comma-separated |
| Statements.NameList | src/com/iciql/TableDefinition.java:556-562 | the PRIMARY KEY loop writes the key names comma-separated |
| Statements.IndexStatementList | src/com/iciql/TableDefinition.java:570-575 | the index loop yields the dialect's CREATE INDEX for each index, in order |
| Tables.KeyColumnList | src/com/iciql/TableDefinition.java:326-331 | the key names collected by mapFields are the key-flagged column names, in field order |
| Tables.TableDefinition.constructor | src/com/iciql/TableDefinition.java:136-140 | a new definition has no schema, the class's simple name as table name, creation switched on and no fields, key or indexes |
| Tables.TableDefinition.GetField | src/com/iciql/TableDefinition.java:150-157 | getField returns the first field whose column name equals the name ignoring case, and nothing iff there is none |
| Tables.TableDefinition.SetSchemaName | src/com/iciql/TableDefinition.java:159-161 | sets the schema name |
| Tables.TableDefinition.SetTableName | src/com/iciql/TableDefinition.java:163-165 | sets the table name |
| Tables.TableDefinition.SetPrimaryKey | src/com/iciql/TableDefinition.java:184-190 | stores the key list and re-flags exactly the fields registered in the identity map |
| Tables.TableDefinition.GetColumnName | src/com/iciql/TableDefinition.java:192-195 | a sentinel's column name, and nothing iff the object is not registered |
| Tables.TableDefinition.MapColumnNames | src/com/iciql/TableDefinition.java:197-203 | one entry per object, in order, holding the column name of the field a sentinel stands for |
| Tables.TableDefinition.AddIndex | src/com/iciql/TableDefinition.java:226-236 | appends one index; a missing or empty name becomes table_count |
| Tables.TableDefinition.AddIndexFromAnnotation | src/com/iciql/TableDefinition.java:660-663 | an IQIndex adds the index with its name, type and columns |
| Tables.TableDefinition.SetColumnName | src/com/iciql/TableDefinition.java:238-243 | renames only the field a sentinel stands for; any other object changes nothing |
| Tables.TableDefinition.SetMaxLength | src/com/iciql/TableDefinition.java:245-250 | sets the length of only the field a sentinel stands for; any other object changes nothing |
| Tables.TableDefinition.AppendMappedFields | src/com/iciql/TableDefinition.java:263-325 | the field loop appends the definitions of the mapped fields, in declaration order |
| Tables.TableDefinition.MapFields | src/com/iciql/TableDefinition.java:252-335 | mapFields appends the mapped fields and, when some are key-flagged, makes their names the key list |
| Tables.TableDefinition.InitObject | src/com/iciql/TableDefinition.java:669-674 | registers a fresh, distinct sentinel for every field, sentinel k standing for field k |
| Tables.TableDefinition.ResetFieldMap | src/com/iciql/TableDefinition.java:608-609 | after clearing and re-registering, the identity map holds exactly the new sentinels and reaches every field |
| Tables.TableDefinition.MapObject | src/com/iciql/TableDefinition.java:607-658 | mapObject registers fresh sentinels, then applies IQSchema, IQTable (name, createIfRequired, IQVersion, primary key) and the index annotations |
| Tables.TableDefinition.ApplyClassAnnotations | src/com/iciql/TableDefinition.java:611-657 | the annotation part of mapObject, with each annotation's effect on the state |
| Tables.TableDefinition.ApplyTableAnnotation | src/com/iciql/TableDefinition.java:619-643 | the IQTable part: a non-empty name, createIfRequired, a positive version, and a key list from getColumns |
| Tables.TableDefinition.AddAnnotatedIndexes | src/com/iciql/TableDefinition.java:645-657 | IQIndex and then IQIndexes add their indexes, in order |
| Tables.TableDefinition.AddIndexesFromAnnotation | src/com/iciql/TableDefinition.java:654-656 | the IQIndexes loop adds one index per annotation, in order |
| Tables.TableDefinition.Insert | src/com/iciql/TableDefinition.java:379-402 | insert builds exactly InsertStatement for the current state |
| Tables.TableDefinition.Merge | src/com/iciql/TableDefinition.java:404-439 | merge refuses a missing or empty key list and otherwise builds exactly TableMergeStatement |
| Tables.TableDefinition.Update | src/com/iciql/TableDefinition.java:441-478 | update refuses a missing or empty key list and otherwise builds exactly UpdateStatement |
| Tables.TableDefinition.Delete | src/com/iciql/TableDefinition.java:480-507 | delete refuses a missing or empty key list and otherwise builds exactly DeleteStatement |
| Tables.TableDefinition.CreateTableIfRequired | src/com/iciql/TableDefinition.java:509-581 | yields exactly CreateScript: nothing when creation is off, else CREATE TABLE then one CREATE INDEX per index |
| Tables.TableDefinition.AppendSelectList | src/com/iciql/TableDefinition.java:692-700 | writes every column through appendColumn, comma-separated, in field order |

## Left out

- Execution is not modelled: `executeUpdate`, `executeInsert`, the returned key or row count of
  `insert`, and `readRow` / `setValue` (the read side) all need JDBC. A statement is modelled as
  its SQL text and its parameter list.
- `db.upgradeTable` (the schema-version upgrade callback) is outside the core. `CreateTableIfRequired`
  yields only the statements.
- `Query.appendWhere` is not part of this model. The WHERE clause of update and delete is the
  list of `Equal(column, raw value)` conditions joined by AND, not its rendered text.
- Logging (`StatementLogger`, `IciqlLogger`) is not modelled. SQLite's warning is a predicate:
  `WarnsOnIndex` as written, `WarnsOnHashIndex` as intended.
- `configureDialect` and SQLite's `PRAGMA foreign_keys = ON` need a live connection.
- Reflection and object construction are replaced by explicit descriptors (`ModelClass`,
  `Field`, `Instance`). `Utils.newObject` and `initWithNewObject` become fresh `Sentinel` objects.
- These helpers are not part of this model and are function-valued parameters:
  `ModelUtils.getDataType`, `isProperlyFormattedDefaultValue`, `isValidDefaultValue`,
  `SQLDialectDefault` (`prepareTableName`, `prepareColumnName`, `serialize`, its default flags
  and prefixes) and `SQLStatement.appendColumn`.
- `AppendLimit` and `AppendOffset` follow the " LIMIT n" / " OFFSET n" form that SQLDialect
  documents; the default dialect's own text is not part of this model.
- `setPrimaryKey(Object[])` and `addIndex(IndexType, Object[])` are left out; they pass
  `mapColumnNames`' result on. `MapColumnNames` models that translation, with `None` where Java
  would put null.
- `initSelectObject`, `copyAttributeValues` and `appendSelectList(stat, query, x)` belong to the
  query layer.
- `getModelClass`, `getFields` and `getIndexes` are plain getters; the model reads the fields directly.
- `memoryTable` is never set by the mapping core. It stays false unless set directly, and only
  switches the CREATE prefix.
- Fields.Clip: lengths and clipping count Unicode code points, not Java's UTF-16 code units, for
  strings and NAME-encoded enum names alike. For text with characters outside the Basic
  Multilingual Plane the model keeps maxLength code points where `substring(0, maxLength)` keeps
  maxLength code units, so it keeps more text and never splits a surrogate pair.
- `EqualsIgnoreCase` folds ASCII letters only. Java's `equalsIgnoreCase` also folds other
  Unicode letters.
- Error messages are not modelled. An error carries its kind and the field or class name.
  update, delete and merge all report `NoPrimaryKey`.
- A null `dataType` or `defaultValue` is written as the empty string.
- TableDefinition reads `IQColumn.length()` / `trim()` and the enum annotations `IQEnum` /
  `EnumType` / `EnumId`, which this revision's Iciql.java does not declare. The model reads
  `maxLength` / `trimString` from IQColumn, and models EnumType as NAME / ORDINAL / ENUMID with
  NAME as the default.
- `TableDefinition.createTableIfRequired` calls `prepareCreateIndex(schema, table, index)` as
  returning the text; SQLDialect declares a statement-setting variant instead. The model takes
  the text-returning form for both dialects.
- TableDefinition's own `merge` uses `prepareColumnName` and no `serialize`, exactly as written.
  `Statements.TableMergeIsH2Merge` relates it to H2 only for dialects that leave names unchanged.
- Java's `int` maxLength and `long` LIMIT/OFFSET are unbounded integers here. No arithmetic on
  them can overflow in the core.

## Findings

| source | as written | input that shows it | evidently intended | confidence | as-written member | corrected member |
|---|---|---|---|---|---|---|
| src/main/java/com/iciql/SQLDialectSQLite.java:65-74 | the "does not support hash indexes" warning is in the `default` branch, which STANDARD and HASH reach | an index of type STANDARD logs the warning; one of type UNIQUE_HASH, whose hashing is dropped, logs none | warn exactly for the kinds whose hashing SQLite drops: HASH and UNIQUE_HASH | medium; not executed | Dialects.WarnsOnIndexMisfires | Dialects.WarnsOnHashIndexExactly |
