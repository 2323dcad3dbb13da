/**
 * The metadata rules TableDefinition applies while it maps a model class: which declared
 * fields become columns and with what settings (mapFields), how an IQTable primary-key
 * spec is split into column names (getColumns), how unnamed indexes are named (addIndex),
 * and how setPrimaryKey re-flags the registered fields. All of them are functions over
 * values; the class in module Tables applies them to its state.
 */
module Mapping {
  import opened Wrappers
  import opened Text
  import opened Iciql
  import opened Fields

  // ------------------------------------------------- which fields are mapped

  /** The IQTable switches mapFields reads; without an IQTable all three are off. */
  datatype Settings = Settings(annotationsOnly: bool, inheritColumns: bool, strictTypeMapping: bool)

  function TableSettings(c: ModelClass): Settings
  {
    match c.table
    case None => Settings(false, false, false)
    case Some(t) => Settings(t.annotationsOnly, t.inheritColumns, t.strictTypeMapping)
  }

  /** The class's own declared fields, followed by its superclass's when columns are inherited. */
  function ClassFields(c: ModelClass): seq<Field>
  {
    c.declaredFields + (if TableSettings(c).inheritColumns then c.superclassFields else [])
  }

  /** A field becomes a column iff it is annotated, or it is public and the table is not annotations-only. */
  predicate IsMapped(f: Field, s: Settings)
  {
    f.column.Some? || (f.isPublic && !s.annotationsOnly)
  }

  /** The enum encoding of a field: the annotation on the field, else the one on the enum type, else the default. */
  function EnumEncoding(f: Field): Option<EnumType>
  {
    match f.javaType
    case EnumKind(e) =>
      var encoding := if f.iqEnum.Some? then f.iqEnum.value
                      else if e.iqEnum.Some? then e.iqEnum.value
                      else DefaultEnumType;
      Some(encoding)
    case _ => None
  }

  /**
   * The FieldDefinition mapFields builds for one declared field, or None when the field is
   * not mapped. Without an IQColumn the column takes mapFields' own defaults, which allow
   * null (unlike IQColumn's allowNull default).
   */
  function MapField(f: Field, s: Settings, md: ModelUtils): (r: Option<FieldDefinition>)
    ensures r.Some? <==> IsMapped(f, s)
    ensures r.Some? ==> r.value.field == f
    ensures r.Some? ==>
              r.value.columnName == (if f.column.Some? && f.column.value.name != "" then f.column.value.name else f.Name())
    ensures r.Some? ==> (r.value.enumType.Some? <==> f.javaType.IsEnum())
    ensures r.Some? && f.javaType.IsEnum() && f.iqEnum.Some? ==> r.value.enumType == f.iqEnum
    ensures r.Some? && f.javaType.IsEnum() && f.iqEnum.None? ==>
              r.value.enumType == Some(if f.javaType.enumClass.iqEnum.Some? then f.javaType.enumClass.iqEnum.value else DefaultEnumType)
    ensures r.Some? && f.column.None? ==>
              r.value.allowNull && !r.value.isPrimaryKey && !r.value.isAutoIncrement &&
              r.value.maxLength == 0 && !r.value.trimString && r.value.defaultValue == ""
    ensures r.Some? && f.column.Some? ==>
              var c := f.column.value;
              r.value.allowNull == c.allowNull && r.value.isPrimaryKey == c.primaryKey &&
              r.value.isAutoIncrement == c.autoIncrement && r.value.maxLength == c.maxLength &&
              r.value.trimString == c.trimString && r.value.defaultValue == c.defaultValue
    ensures r.Some? ==> r.value.dataType == md.dataType(r.value.(dataType := ""), s.strictTypeMapping)
  {
    var columnName := if f.column.Some? && f.column.value.name != "" then f.column.value.name else f.Name();
    var isAutoIncrement := if f.column.Some? then f.column.value.autoIncrement else false;
    var isPrimaryKey := if f.column.Some? then f.column.value.primaryKey else false;
    var maxLength := if f.column.Some? then f.column.value.maxLength else 0;
    var trimString := if f.column.Some? then f.column.value.trimString else false;
    var allowNull := if f.column.Some? then f.column.value.allowNull else true;
    var defaultValue := if f.column.Some? then f.column.value.defaultValue else "";
    if f.column.Some? || (f.isPublic && !s.annotationsOnly) then
      var def := FieldDefinition(columnName, f, "", maxLength, isPrimaryKey, isAutoIncrement, trimString,
                                 allowNull, defaultValue, EnumEncoding(f));
      Some(def.(dataType := md.dataType(def, s.strictTypeMapping)))
    else
      None
  }

  /** The definitions of the mapped fields among `fs`, in declaration order. */
  function MapAll(fs: seq<Field>, s: Settings, md: ModelUtils): seq<FieldDefinition>
  {
    if fs == [] then []
    else
      var last := fs[|fs| - 1];
      MapAll(fs[..|fs| - 1], s, md) + (if IsMapped(last, s) then [MapField(last, s, md).value] else [])
  }

  /**
   * An unannotated field gets mapFields' own defaults, which allow null, while a field
   * annotated with an all-default IQColumn does not allow null.
   */
  lemma UnannotatedDefaultsDiffer(f: Field, s: Settings, md: ModelUtils)
    requires f.column.None? && f.isPublic && !s.annotationsOnly
    ensures MapField(f, s, md).Some? && MapField(f, s, md).value.allowNull
    ensures var annotated := f.(column := Some(DefaultColumn));
            MapField(annotated, s, md).Some? && !MapField(annotated, s, md).value.allowNull
  {
  }

  /** The field list mapFields appends for a model class. */
  function MappedFields(c: ModelClass, md: ModelUtils): seq<FieldDefinition>
  {
    MapAll(ClassFields(c), TableSettings(c), md)
  }

  lemma MapAllSnoc(fs: seq<Field>, f: Field, s: Settings, md: ModelUtils)
    ensures MapAll(fs + [f], s, md) == MapAll(fs, s, md) + (if IsMapped(f, s) then [MapField(f, s, md).value] else [])
  {
    assert (fs + [f])[..|fs|] == fs;
  }

  /** One step of mapFields' loop: field i adds its definition iff it is mapped. */
  lemma MapAllStep(fs: seq<Field>, i: nat, s: Settings, md: ModelUtils)
    requires i < |fs|
    ensures MapField(fs[i], s, md).Some? <==> IsMapped(fs[i], s)
    ensures MapAll(fs[..i + 1], s, md) ==
            MapAll(fs[..i], s, md) + (if MapField(fs[i], s, md).Some? then [MapField(fs[i], s, md).value] else [])
  {
    assert fs[..i + 1] == fs[..i] + [fs[i]];
    MapAllSnoc(fs[..i], fs[i], s, md);
  }

  /** The declared fields behind a list of definitions. */
  function FieldsOf(defs: seq<FieldDefinition>): (r: seq<Field>)
    ensures |r| == |defs| && forall k :: 0 <= k < |defs| ==> r[k] == defs[k].field
  {
    if defs == [] then [] else FieldsOf(defs[..|defs| - 1]) + [defs[|defs| - 1].field]
  }

  /** The mapped fields keep declaration order: their declared fields are a subsequence of the class's. */
  lemma {:induction false} MapAllKeepsOrder(fs: seq<Field>, s: Settings, md: ModelUtils)
    ensures IsSubsequence(FieldsOf(MapAll(fs, s, md)), fs)
  {
    if fs != [] {
      var init := fs[..|fs| - 1];
      var last := fs[|fs| - 1];
      MapAllKeepsOrder(init, s, md);
      var before := MapAll(init, s, md);
      assert fs[..|fs| - 1] == init;
      if IsMapped(last, s) {
        var def := MapField(last, s, md).value;
        var all := before + [def];
        assert MapAll(fs, s, md) == all;
        assert all[..|all| - 1] == before;
        assert FieldsOf(all) == FieldsOf(before) + [last];
        assert FieldsOf(all)[..|all| - 1] == FieldsOf(before);
      } else {
        assert MapAll(fs, s, md) == before;
        assert fs == init + [last];
        SubsequenceOfLonger(FieldsOf(before), init, last);
      }
    }
  }

  /**
   * Every mapped definition is MapField's definition of one of the declared fields, and
   * every declared field IsMapped selects has its definition among them.
   */
  lemma {:induction false} MapAllMembers(fs: seq<Field>, s: Settings, md: ModelUtils)
    ensures forall def :: def in MapAll(fs, s, md) ==> def.field in fs && MapField(def.field, s, md) == Some(def)
    ensures forall f :: f in fs && IsMapped(f, s) ==> MapField(f, s, md).value in MapAll(fs, s, md)
  {
    if fs != [] {
      var init := fs[..|fs| - 1];
      var last := fs[|fs| - 1];
      MapAllMembers(init, s, md);
      assert fs == init + [last];
    }
  }

  // ------------------------------------------------- primary-key specs

  /**
   * getColumns: None for a missing or empty spec; otherwise the spec split at commas and
   * whitespace, each piece trimmed, empty pieces dropped, None when nothing is left.
   */
  function GetColumns(spec: Option<string>): (r: Option<seq<string>>)
    ensures spec.None? || spec.value == "" ==> r.None?
    ensures spec.Some? ==> (r.None? <==> forall k :: 0 <= k < |spec.value| ==> spec.value[k] == ',' || spec.value[k] <= ' ')
    ensures r.Some? ==> |r.value| > 0
    ensures r.Some? ==>
              forall k :: 0 <= k < |r.value| ==>
                |r.value[k]| > 0 && HasNoSeparator(r.value[k]) && JavaTrim(r.value[k]) == r.value[k]
  {
    if spec.None? || spec.value == "" then None
    else
      var pieces := SplitAtSeparators(spec.value);
      NonBlankPiecesArePlain(pieces);
      NoPiecesIffBlank(spec.value);
      var columns := NonBlankPieces(pieces);
      if |columns| == 0 then None else Some(columns)
  }

  /**
   * Plain column names come back from their spec however they are spaced: an optional run
   * of separators in front, then each name followed by its own run of commas and whitespace
   * (non-empty between two names, optional after the last).
   */
  lemma {:induction false} GetColumnsRoundTrip(lead: string, names: seq<string>, gaps: seq<string>)
    requires AllSeparators(lead)
    requires |gaps| == |names| > 0
    requires forall k :: 0 <= k < |names| ==> IsPlainWord(names[k]) && AllSeparators(gaps[k])
    requires forall k :: 0 <= k < |names| - 1 ==> |gaps[k]| > 0
    ensures GetColumns(Some(lead + Spaced(names, gaps))) == Some(names)
  {
    LeadingSeparatorsDropped(lead, Spaced(names, gaps));
    SplitSpaced(names, gaps);
  }

  /** In particular both "id, name" and "id name" give ["id", "name"]. */
  lemma {:induction false} GetColumnsCommaOrSpace(names: seq<string>)
    requires |names| > 0 && forall k :: 0 <= k < |names| ==> IsPlainWord(names[k])
    ensures GetColumns(Some(Join(", ", names))) == Some(names)
    ensures GetColumns(Some(Join(" ", names))) == Some(names)
  {
    assert GetColumns(Some(Join(", ", names))) == Some(names) by {
      assert AllSeparators(", ") by {
        assert ", "[0] == ',' && ", "[1] == ' ';
      }
      UniformJoinRoundTrip(", ", names);
    }
    assert GetColumns(Some(Join(" ", names))) == Some(names) by {
      assert AllSeparators(" ") by {
        assert " "[0] == ' ';
      }
      UniformJoinRoundTrip(" ", names);
    }
  }

  lemma {:induction false} UniformJoinRoundTrip(sep: string, names: seq<string>)
    requires |sep| > 0 && AllSeparators(sep)
    requires |names| > 0 && forall k :: 0 <= k < |names| ==> IsPlainWord(names[k])
    ensures GetColumns(Some(Join(sep, names))) == Some(names)
  {
    var gaps := Repeat(sep, |names| - 1) + [""];
    JoinIsSpaced(sep, names);
    assert "" + Spaced(names, gaps) == Spaced(names, gaps);
    GetColumnsRoundTrip("", names, gaps);
  }

  // ------------------------------------------------- index names

  /** addIndex's naming: a null or empty name becomes "<table>_<number of indexes already present>". */
  function IndexName(name: Option<string>, table: string, existing: nat): string
  {
    if name.None? || name.value == "" then table + "_" + NatToString(existing) else name.value
  }

  /** Generated names on the same table never collide. */
  lemma GeneratedIndexNamesDistinct(table: string, m: nat, n: nat)
    requires m != n
    ensures IndexName(None, table, m) != IndexName(None, table, n)
  {
    var a := IndexName(None, table, m);
    var b := IndexName(None, table, n);
    if a == b {
      assert a[|table| + 1..] == NatToString(m);
      assert b[|table| + 1..] == NatToString(n);
      NatToStringInjective(m, n);
    }
  }

  lemma IndexDefinitionsSnoc(table: string, existing: nat, iqs: seq<IQIndex>, x: IQIndex)
    ensures IndexDefinitionsFrom(table, existing, iqs + [x]) ==
            IndexDefinitionsFrom(table, existing, iqs) +
            [IndexDefinition(x.kind, IndexName(Some(x.name), table, existing + |iqs|), x.value)]
  {
    assert (iqs + [x])[..|iqs|] == iqs;
  }

  /** Appending the next annotated index extends the definitions by that index, numbered by the current count. */
  lemma IndexDefinitionsStep(prior: seq<IndexDefinition>, current: seq<IndexDefinition>, table: string,
                             done: seq<IQIndex>, x: IQIndex)
    requires current == prior + IndexDefinitionsFrom(table, |prior|, done)
    ensures current + [IndexDefinition(x.kind, IndexName(Some(x.name), table, |current|), x.value)] ==
            prior + IndexDefinitionsFrom(table, |prior|, done + [x])
  {
    var entry := IndexDefinition(x.kind, IndexName(Some(x.name), table, |current|), x.value);
    AppendAssoc(prior, IndexDefinitionsFrom(table, |prior|, done), current, entry);
    IndexDefinitionsSnoc(table, |prior|, done, x);
  }

  lemma AppendAssoc<T>(prior: seq<T>, head: seq<T>, current: seq<T>, e: T)
    requires current == prior + head
    ensures current + [e] == prior + (head + [e]) && |current| == |prior| + |head|
  {
  }

  /** The index definitions addIndex(IQIndex) appends for `iqs`, when `existing` indexes are already present. */
  function IndexDefinitionsFrom(table: string, existing: nat, iqs: seq<IQIndex>): (r: seq<IndexDefinition>)
    ensures |r| == |iqs|
  {
    if iqs == [] then []
    else
      var last := iqs[|iqs| - 1];
      IndexDefinitionsFrom(table, existing, iqs[..|iqs| - 1]) +
      [IndexDefinition(last.kind, IndexName(Some(last.name), table, existing + |iqs| - 1), last.value)]
  }

  /** Annotated index k is defined with its own kind and columns, and named after its position when unnamed. */
  lemma {:induction false} IndexDefinitionsPointwise(table: string, existing: nat, iqs: seq<IQIndex>)
    ensures forall k :: 0 <= k < |iqs| ==>
              IndexDefinitionsFrom(table, existing, iqs)[k] ==
              IndexDefinition(iqs[k].kind, IndexName(Some(iqs[k].name), table, existing + k), iqs[k].value)
  {
    if iqs != [] {
      var init := iqs[..|iqs| - 1];
      IndexDefinitionsPointwise(table, existing, init);
      assert forall k :: 0 <= k < |init| ==> init[k] == iqs[k];
    }
  }

  /** The class's IQIndex, then the members of its IQIndexes, in that order. */
  function AnnotatedIndexes(c: ModelClass): seq<IQIndex>
  {
    (if c.index.Some? then [c.index.value] else []) + (if c.indexes.Some? then c.indexes.value else [])
  }

  /** The key list an IQTable's primaryKey spec gives, if any. */
  function AnnotatedPrimaryKey(c: ModelClass): Option<seq<string>>
  {
    if c.table.Some? then GetColumns(Some(c.table.value.primaryKey)) else None
  }

  // ------------------------------------------------- key flags

  /** The positions 0 .. n-1 of a field list. */
  function Positions(n: nat): (r: set<nat>)
    ensures forall k: nat :: k in r <==> k < n
  {
    if n == 0 then {} else Positions(n - 1) + {n - 1}
  }

  /** One step of setPrimaryKey's loop: re-flagging one more registered field. */
  lemma WithKeyFlagsStep(fs: seq<FieldDefinition>, done: set<nat>, k: nat, pk: seq<string>)
    requires k < |fs| && k !in done
    ensures var cur := WithKeyFlags(fs, done, pk);
            WithKeyFlags(fs, done + {k}, pk) == cur[k := cur[k].(isPrimaryKey := cur[k].columnName in pk)]
  {
    var a := WithKeyFlags(fs, done + {k}, pk);
    var b := WithKeyFlags(fs, done, pk);
    assert forall j :: 0 <= j < |fs| ==> a[j] == b[k := b[k].(isPrimaryKey := fs[k].columnName in pk)][j];
  }

  /**
   * setPrimaryKey's effect on the field list: each field registered in the identity map
   * (its index is in `registered`) is flagged iff its column name is in the key list; no
   * other field and no other attribute changes.
   */
  function WithKeyFlags(fs: seq<FieldDefinition>, registered: set<nat>, pk: seq<string>): (r: seq<FieldDefinition>)
    ensures |r| == |fs|
  {
    seq(|fs|, k requires 0 <= k < |fs| => if k in registered then fs[k].(isPrimaryKey := fs[k].columnName in pk) else fs[k])
  }

  /** What re-flagging does to each field: only registered fields change, and only in their key flag. */
  lemma WithKeyFlagsPointwise(fs: seq<FieldDefinition>, registered: set<nat>, pk: seq<string>)
    ensures var r := WithKeyFlags(fs, registered, pk);
            forall k :: 0 <= k < |fs| && k in registered ==> (r[k].isPrimaryKey <==> r[k].columnName in pk)
    ensures var r := WithKeyFlags(fs, registered, pk);
            forall k :: 0 <= k < |fs| && k !in registered ==> r[k] == fs[k]
    ensures var r := WithKeyFlags(fs, registered, pk);
            forall k :: 0 <= k < |fs| ==> r[k].(isPrimaryKey := fs[k].isPrimaryKey) == fs[k]
  {
  }


  /** Column names are unique across the field list. */
  predicate DistinctColumnNames(fs: seq<FieldDefinition>)
  {
    forall i, j :: 0 <= i < j < |fs| ==> fs[i].columnName != fs[j].columnName
  }

  /**
   * The key list mapFields derives from the flags is consistent with them: re-flagging any
   * fields by that list changes nothing, provided the column names are distinct.
   */
  lemma DerivedKeyIsConsistent(fs: seq<FieldDefinition>, registered: set<nat>)
    requires DistinctColumnNames(fs)
    ensures WithKeyFlags(fs, registered, ColumnNames(KeyFields(fs))) == fs
  {
    var keys := KeyFields(fs);
    var names := ColumnNames(keys);
    ColumnNamesPointwise(keys);
    KeyFieldsAreSelection(fs);
    forall k | 0 <= k < |fs|
      ensures fs[k].columnName in names <==> fs[k].isPrimaryKey
    {
      if fs[k].columnName in names {
        var j :| 0 <= j < |names| && names[j] == fs[k].columnName;
        assert keys[j] in keys;
        var m :| 0 <= m < |fs| && fs[m] == keys[j];
        assert m == k;
      }
      if fs[k].isPrimaryKey {
        assert fs[k] in keys;
        var j :| 0 <= j < |keys| && keys[j] == fs[k];
        assert names[j] == fs[k].columnName;
      }
    }
    var r := WithKeyFlags(fs, registered, names);
    WithKeyFlagsPointwise(fs, registered, names);
    assert forall k :: 0 <= k < |fs| ==> r[k] == fs[k];
  }
}
