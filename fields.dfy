/**
 * The per-column and per-index metadata of a table (TableDefinition.FieldDefinition and
 * TableDefinition.IndexDefinition) and the write-side conversion TableDefinition.getValue
 * applies to a field's value before it is bound as a statement parameter.
 */
module Fields {
  import opened Wrappers
  import opened Iciql

  /** The metadata of one mapped column. */
  datatype FieldDefinition = FieldDefinition(
    columnName: string,
    field: Field,
    dataType: string,
    maxLength: int,
    isPrimaryKey: bool,
    isAutoIncrement: bool,
    trimString: bool,
    allowNull: bool,
    defaultValue: string,
    enumType: Option<EnumType>)

  /** The metadata of one index. */
  datatype IndexDefinition = IndexDefinition(kind: IndexType, indexName: string, columnNames: seq<string>)

  /** The exceptions the mapping core raises. */
  datatype Error =
    | NullPointer(fieldName: string)           // an enum field holding null
    | ClassCast(fieldName: string)             // an enum field holding a non-enum value
    | NotEnumId(fieldName: string)             // ENUMID encoding of an enum without EnumId
    | NoPrimaryKey(className: string)          // update, delete or merge without a key

  /**
   * The ModelUtils helpers the mapping core calls, which are not part of this model: the
   * SQL type of a field (getDataType, given strict type mapping or not) and the two checks
   * a column default must pass before it is written into a CREATE TABLE.
   */
  datatype ModelUtils = ModelUtils(
    dataType: (FieldDefinition, bool) -> string,
    isProperlyFormattedDefaultValue: string -> bool,
    isValidDefaultValue: (JavaType, string) -> bool)

  /** FieldDefinition.getValue: the raw value of the field in `obj`. */
  function RawValue(obj: Instance, def: FieldDefinition): Value
  {
    obj(def.field.key)
  }

  /** The first `n` characters of `s`, or `s` when it is not longer: s.substring(0, n). */
  function Clip(s: string, n: nat): (r: string)
    ensures |r| <= n && r <= s
    ensures |s| <= n ==> r == s
    ensures |s| > n ==> |r| == n
  {
    if |s| > n then s[..n] else s
  }

  /** Whether the field clips strings on write: trimString with a positive maxLength. */
  predicate Clips(def: FieldDefinition)
  {
    def.trimString && def.maxLength > 0
  }

  /**
   * TableDefinition.getValue(obj, field): enum constants become their name (clipped when
   * the field clips), their ordinal or their EnumId; strings are clipped when the field
   * clips; everything else passes through.
   */
  function GetValue(obj: Instance, def: FieldDefinition): Result<Value, Error>
  {
    var value := RawValue(obj, def);
    match def.enumType
    case Some(encoding) =>
      if value.Null? then Failure(NullPointer(def.field.Name()))
      else if !value.EnumConstant? then Failure(ClassCast(def.field.Name()))
      else (
        match encoding
        case Name =>
          Success(Str(if Clips(def) then Clip(value.constantName, def.maxLength) else value.constantName))
        case Ordinal =>
          Success(Int(value.ordinal))
        case EnumId =>
          if value.enumId.None? then Failure(NotEnumId(def.field.Name()))
          else Success(Int(value.enumId.value)))
    case None =>
      if Clips(def) && value.Str? then Success(Str(Clip(value.s, def.maxLength)))
      else Success(value)
  }

  /** A NAME-encoded enum constant is written as its name, cut to maxLength when the field clips. */
  lemma GetValueByName(obj: Instance, def: FieldDefinition)
    requires def.enumType == Some(Name) && RawValue(obj, def).EnumConstant?
    ensures var name := RawValue(obj, def).constantName;
            GetValue(obj, def).Success? && GetValue(obj, def).value.Str? &&
            var written := GetValue(obj, def).value.s;
            written <= name &&
            (Clips(def) ==> |written| <= def.maxLength && (|name| > def.maxLength ==> |written| == def.maxLength)) &&
            (!Clips(def) || |name| <= def.maxLength ==> written == name)
  {
  }

  /** A string in a clipping field is written as its first maxLength characters. */
  lemma GetValueClipsStrings(obj: Instance, def: FieldDefinition)
    requires def.enumType.None? && RawValue(obj, def).Str?
    ensures var s := RawValue(obj, def).s;
            GetValue(obj, def).Success? && GetValue(obj, def).value.Str? &&
            var written := GetValue(obj, def).value.s;
            written <= s &&
            (Clips(def) ==> |written| <= def.maxLength && (|s| > def.maxLength ==> |written| == def.maxLength)) &&
            (!Clips(def) || |s| <= def.maxLength ==> written == s)
  {
  }

  /** ORDINAL encoding writes the constant's ordinal. */
  lemma GetValueByOrdinal(obj: Instance, def: FieldDefinition)
    requires def.enumType == Some(Ordinal) && RawValue(obj, def).EnumConstant?
    ensures GetValue(obj, def) == Success(Int(RawValue(obj, def).ordinal))
  {
  }

  /** ENUMID encoding fails exactly when the constant does not implement EnumId. */
  lemma GetValueByEnumId(obj: Instance, def: FieldDefinition)
    requires def.enumType == Some(EnumId) && RawValue(obj, def).EnumConstant?
    ensures GetValue(obj, def).Failure? <==> RawValue(obj, def).enumId.None?
    ensures GetValue(obj, def).Failure? ==> GetValue(obj, def).error == NotEnumId(def.field.Name())
    ensures GetValue(obj, def).Success? ==> GetValue(obj, def).value == Int(RawValue(obj, def).enumId.value)
  {
  }

  /** Conversion only fails on enum fields; a non-enum, non-string value passes through unchanged. */
  lemma GetValueFailsOnlyOnEnums(obj: Instance, def: FieldDefinition)
    ensures GetValue(obj, def).Failure? ==> def.enumType.Some?
    ensures def.enumType.None? && (!Clips(def) || !RawValue(obj, def).Str?) ==>
              GetValue(obj, def) == Success(RawValue(obj, def))
  {
  }

  // ------------------------------------------------- lists over the field list, in field order

  /** f applied to every element, in order. */
  function Apply<A, B>(f: A -> B, xs: seq<A>): (r: seq<B>)
    ensures |r| == |xs|
  {
    if xs == [] then [] else Apply(f, xs[..|xs| - 1]) + [f(xs[|xs| - 1])]
  }

  lemma {:induction false} ApplyPointwise<A, B>(f: A -> B, xs: seq<A>)
    ensures forall k :: 0 <= k < |xs| ==> Apply(f, xs)[k] == f(xs[k])
  {
    if xs != [] {
      ApplyPointwise(f, xs[..|xs| - 1]);
    }
  }

  lemma ApplySnoc<A, B>(f: A -> B, xs: seq<A>, x: A)
    ensures Apply(f, xs + [x]) == Apply(f, xs) + [f(x)]
  {
    assert (xs + [x])[..|xs|] == xs;
  }

  /** The column names of the fields, in field order. */
  function ColumnNames(fs: seq<FieldDefinition>): (r: seq<string>)
    ensures |r| == |fs|
  {
    if fs == [] then [] else ColumnNames(fs[..|fs| - 1]) + [fs[|fs| - 1].columnName]
  }

  /** The k-th column name is the k-th field's. */
  lemma {:induction false} ColumnNamesPointwise(fs: seq<FieldDefinition>)
    ensures forall k :: 0 <= k < |fs| ==> ColumnNames(fs)[k] == fs[k].columnName
  {
    if fs != [] {
      ColumnNamesPointwise(fs[..|fs| - 1]);
    }
  }

  lemma ColumnNamesAppend(a: seq<FieldDefinition>, b: seq<FieldDefinition>)
    ensures ColumnNames(a + b) == ColumnNames(a) + ColumnNames(b)
  {
    ColumnNamesPointwise(a + b);
    ColumnNamesPointwise(a);
    ColumnNamesPointwise(b);
    assert forall k :: 0 <= k < |a + b| ==> ColumnNames(a + b)[k] == (ColumnNames(a) + ColumnNames(b))[k];
  }

  /** The fields flagged as primary key, in field order. */
  function KeyFields(fs: seq<FieldDefinition>): seq<FieldDefinition>
  {
    if fs == [] then []
    else KeyFields(fs[..|fs| - 1]) + (if fs[|fs| - 1].isPrimaryKey then [fs[|fs| - 1]] else [])
  }

  lemma KeyFieldsSnoc(fs: seq<FieldDefinition>, f: FieldDefinition)
    ensures KeyFields(fs + [f]) == KeyFields(fs) + (if f.isPrimaryKey then [f] else [])
    ensures NonKeyFields(fs + [f]) == NonKeyFields(fs) + (if f.isPrimaryKey then [] else [f])
  {
    assert (fs + [f])[..|fs|] == fs;
  }

  lemma KeyFieldsStep(fs: seq<FieldDefinition>, i: nat)
    requires i < |fs|
    ensures KeyFields(fs[..i + 1]) == KeyFields(fs[..i]) + (if fs[i].isPrimaryKey then [fs[i]] else [])
    ensures NonKeyFields(fs[..i + 1]) == NonKeyFields(fs[..i]) + (if fs[i].isPrimaryKey then [] else [fs[i]])
  {
    assert fs[..i + 1] == fs[..i] + [fs[i]];
    KeyFieldsSnoc(fs[..i], fs[i]);
  }

  /** One step of a loop collecting the key column names. */
  lemma KeyNamesStep(fs: seq<FieldDefinition>, i: nat)
    requires i < |fs|
    ensures ColumnNames(KeyFields(fs[..i + 1])) ==
            ColumnNames(KeyFields(fs[..i])) + (if fs[i].isPrimaryKey then [fs[i].columnName] else [])
  {
    KeyFieldsStep(fs, i);
    ColumnNamesAppend(KeyFields(fs[..i]), if fs[i].isPrimaryKey then [fs[i]] else []);
  }

  /** The fields not flagged as primary key, in field order. */
  function NonKeyFields(fs: seq<FieldDefinition>): seq<FieldDefinition>
  {
    if fs == [] then []
    else NonKeyFields(fs[..|fs| - 1]) + (if fs[|fs| - 1].isPrimaryKey then [] else [fs[|fs| - 1]])
  }

  /** The non-key fields of a prefix of the field list are a prefix of its non-key fields. */
  lemma {:induction false} NonKeyFieldsPrefix(fs: seq<FieldDefinition>, n: nat)
    requires n <= |fs|
    ensures NonKeyFields(fs[..n]) <= NonKeyFields(fs)
  {
    if n < |fs| {
      var init := fs[..|fs| - 1];
      NonKeyFieldsPrefix(init, n);
      assert init[..n] == fs[..n];
    } else {
      assert fs[..n] == fs;
    }
  }

  /** `a` is obtained from `b` by deleting elements: it keeps b's order. */
  predicate IsSubsequence<T(==)>(a: seq<T>, b: seq<T>)
    decreases |b|
  {
    if a == [] then true
    else if b == [] then false
    else if a[|a| - 1] == b[|b| - 1] then IsSubsequence(a[..|a| - 1], b[..|b| - 1])
    else IsSubsequence(a, b[..|b| - 1])
  }

  /** The key fields are exactly the flagged fields, kept in field order. */
  lemma {:induction false} KeyFieldsAreSelection(fs: seq<FieldDefinition>)
    ensures IsSubsequence(KeyFields(fs), fs)
    ensures forall f :: f in KeyFields(fs) <==> f in fs && f.isPrimaryKey
  {
    if fs != [] {
      var init := fs[..|fs| - 1];
      var last := fs[|fs| - 1];
      KeyFieldsAreSelection(init);
      assert fs == init + [last];
      if last.isPrimaryKey {
        assert KeyFields(fs)[..|KeyFields(fs)| - 1] == KeyFields(init);
      } else {
        assert KeyFields(fs) == KeyFields(init);
        SubsequenceOfLonger(KeyFields(init), init, last);
      }
    }
  }

  /** The non-key fields are exactly the unflagged fields, kept in field order. */
  lemma {:induction false} NonKeyFieldsAreSelection(fs: seq<FieldDefinition>)
    ensures IsSubsequence(NonKeyFields(fs), fs)
    ensures forall f :: f in NonKeyFields(fs) <==> f in fs && !f.isPrimaryKey
  {
    if fs != [] {
      var init := fs[..|fs| - 1];
      var last := fs[|fs| - 1];
      NonKeyFieldsAreSelection(init);
      assert fs == init + [last];
      if !last.isPrimaryKey {
        assert NonKeyFields(fs)[..|NonKeyFields(fs)| - 1] == NonKeyFields(init);
      } else {
        assert NonKeyFields(fs) == NonKeyFields(init);
        SubsequenceOfLonger(NonKeyFields(init), init, last);
      }
    }
  }

  /** Every field is either a key field or a non-key field. */
  lemma {:induction false} KeyFieldsPartition(fs: seq<FieldDefinition>)
    ensures |KeyFields(fs)| + |NonKeyFields(fs)| == |fs|
  {
    if fs != [] {
      KeyFieldsPartition(fs[..|fs| - 1]);
    }
  }

  lemma {:induction false} SubsequenceOfLonger<T>(a: seq<T>, b: seq<T>, x: T)
    requires IsSubsequence(a, b)
    ensures IsSubsequence(a, b + [x])
    decreases |b|, 1
  {
    if a != [] {
      var bx := b + [x];
      assert bx[..|bx| - 1] == b;
      if a[|a| - 1] == x {
        SubsequenceDropLast(a, b);
      }
    }
  }

  lemma {:induction false} SubsequenceDropLast<T>(a: seq<T>, b: seq<T>)
    requires a != [] && IsSubsequence(a, b)
    ensures IsSubsequence(a[..|a| - 1], b)
    decreases |b|, 0
  {
    var a' := a[..|a| - 1];
    if a[|a| - 1] != b[|b| - 1] {
      SubsequenceDropLast(a, b[..|b| - 1]);
    }
    SubsequenceOfLonger(a', b[..|b| - 1], b[|b| - 1]);
    assert b[..|b| - 1] + [b[|b| - 1]] == b;
  }

  /** Column names of an order-preserving selection are a selection of the column names. */
  lemma {:induction false} ColumnNamesOfSubsequence(a: seq<FieldDefinition>, b: seq<FieldDefinition>)
    requires IsSubsequence(a, b)
    ensures IsSubsequence(ColumnNames(a), ColumnNames(b))
    decreases |b|
  {
    if a != [] {
      assert ColumnNames(a)[..|a| - 1] == ColumnNames(a[..|a| - 1]);
      assert ColumnNames(b)[..|b| - 1] == ColumnNames(b[..|b| - 1]);
      if a[|a| - 1] == b[|b| - 1] {
        ColumnNamesOfSubsequence(a[..|a| - 1], b[..|b| - 1]);
      } else {
        ColumnNamesOfSubsequence(a, b[..|b| - 1]);
        if ColumnNames(a)[|a| - 1] == ColumnNames(b)[|b| - 1] {
          SubsequenceDropLast(ColumnNames(a), ColumnNames(b[..|b| - 1]));
        }
      }
    }
  }

  /** The converted values of the fields, in field order; the first failing field's error otherwise. */
  function ConvertedValues(obj: Instance, fs: seq<FieldDefinition>): (r: Result<seq<Value>, Error>)
    ensures r.Success? ==> |r.value| == |fs|
  {
    if fs == [] then Success([])
    else
      match ConvertedValues(obj, fs[..|fs| - 1])
      case Failure(e) => Failure(e)
      case Success(vs) =>
        match GetValue(obj, fs[|fs| - 1])
        case Failure(e) => Failure(e)
        case Success(v) => Success(vs + [v])
  }

  /**
   * Conversion of a field list succeeds iff every field converts, and then gives one value
   * per field, in order; otherwise it reports the error of the first field that fails.
   */
  lemma {:induction false} ConvertedValuesSpec(obj: Instance, fs: seq<FieldDefinition>)
    ensures ConvertedValues(obj, fs).Success? <==> forall k :: 0 <= k < |fs| ==> GetValue(obj, fs[k]).Success?
    ensures ConvertedValues(obj, fs).Success? ==>
              var vs := ConvertedValues(obj, fs).value;
              |vs| == |fs| && forall k :: 0 <= k < |fs| ==> vs[k] == GetValue(obj, fs[k]).value
    ensures ConvertedValues(obj, fs).Failure? ==>
              exists k :: 0 <= k < |fs| && GetValue(obj, fs[k]) == Failure(ConvertedValues(obj, fs).error) &&
                          forall j :: 0 <= j < k ==> GetValue(obj, fs[j]).Success?
  {
    if fs != [] {
      var init := fs[..|fs| - 1];
      ConvertedValuesSpec(obj, init);
      assert forall k :: 0 <= k < |init| ==> init[k] == fs[k];
      if ConvertedValues(obj, init).Success? {
        var vs := ConvertedValues(obj, init).value;
        if GetValue(obj, fs[|fs| - 1]).Success? {
          var r := vs + [GetValue(obj, fs[|fs| - 1]).value];
          assert ConvertedValues(obj, fs) == Success(r);
          assert forall k :: 0 <= k < |fs| ==> r[k] == GetValue(obj, fs[k]).value;
        }
      } else {
        var k :| 0 <= k < |init| && GetValue(obj, init[k]) == Failure(ConvertedValues(obj, init).error) &&
                 forall j :: 0 <= j < k ==> GetValue(obj, init[j]).Success?;
        assert GetValue(obj, fs[k]) == Failure(ConvertedValues(obj, fs).error);
      }
    }
  }

  /** Once a prefix of the fields fails to convert, the whole list fails with the same error. */
  lemma {:induction false} ConvertedValuesPrefixFailure(obj: Instance, fs: seq<FieldDefinition>, n: nat)
    requires n <= |fs| && ConvertedValues(obj, fs[..n]).Failure?
    ensures ConvertedValues(obj, fs) == ConvertedValues(obj, fs[..n])
    decreases |fs| - n
  {
    if n < |fs| {
      assert fs[..n + 1][..n] == fs[..n];
      ConvertedValuesPrefixFailure(obj, fs, n + 1);
    } else {
      assert fs[..n] == fs;
    }
  }

  /** A list whose converted prefix fails fails with that prefix's error. */
  lemma ConvertedValuesPrefixOfFailure(obj: Instance, pre: seq<FieldDefinition>, fs: seq<FieldDefinition>)
    requires pre <= fs && ConvertedValues(obj, pre).Failure?
    ensures ConvertedValues(obj, fs) == ConvertedValues(obj, pre)
  {
    assert fs[..|pre|] == pre;
    ConvertedValuesPrefixFailure(obj, fs, |pre|);
  }

  /** One more field that fails to convert, after a list that converts, fails the list with its error. */
  lemma ConvertedValuesSnocFailure(obj: Instance, fs: seq<FieldDefinition>, f: FieldDefinition)
    requires ConvertedValues(obj, fs).Success? && GetValue(obj, f).Failure?
    ensures ConvertedValues(obj, fs + [f]) == Failure(GetValue(obj, f).error)
  {
    assert (fs + [f])[..|fs|] == fs;
  }

  /** One step of a conversion loop over the fields: field i converts and extends the values. */
  lemma ConvertedValuesStep(obj: Instance, fs: seq<FieldDefinition>, i: nat, vs: seq<Value>)
    requires i < |fs| && ConvertedValues(obj, fs[..i]) == Success(vs) && GetValue(obj, fs[i]).Success?
    ensures ConvertedValues(obj, fs[..i + 1]) == Success(vs + [GetValue(obj, fs[i]).value])
  {
    assert fs[..i + 1][..i] == fs[..i];
  }

  /** One step of a conversion loop over the fields: field i fails and so does the whole list. */
  lemma ConvertedValuesStepFailure(obj: Instance, fs: seq<FieldDefinition>, i: nat)
    requires i < |fs| && ConvertedValues(obj, fs[..i]).Success? && GetValue(obj, fs[i]).Failure?
    ensures ConvertedValues(obj, fs) == Failure(GetValue(obj, fs[i]).error)
  {
    assert fs[..i + 1] == fs[..i] + [fs[i]];
    ConvertedValuesSnocFailure(obj, fs[..i], fs[i]);
    ConvertedValuesPrefixOfFailure(obj, fs[..i + 1], fs);
  }

  /** One more field that converts, after a list that converts, extends the values. */
  lemma ConvertedValuesSnoc(obj: Instance, fs: seq<FieldDefinition>, f: FieldDefinition, vs: seq<Value>)
    requires ConvertedValues(obj, fs) == Success(vs) && GetValue(obj, f).Success?
    ensures ConvertedValues(obj, fs + [f]) == Success(vs + [GetValue(obj, f).value])
  {
    assert (fs + [f])[..|fs|] == fs;
  }
}
