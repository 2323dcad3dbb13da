/**
 * The configuration surface of a model class: the index kinds, the enum encodings and the
 * IQTable / IQColumn / IQIndex / IQVersion / IQSchema annotations with their defaults
 * (Iciql.java), plus the explicit descriptors that stand in for Java reflection: the
 * declared fields of a model class, their types, and the values an instance holds.
 */
module Iciql {
  import opened Wrappers

  /** Iciql.IndexType: the four index kinds. */
  datatype IndexType = Standard | Unique | Hash | UniqueHash

  /** Iciql.EnumType: how an enum constant is written to its column. */
  datatype EnumType = Name | Ordinal | EnumId

  /** EnumType.DEFAULT_TYPE, the encoding of an enum field that nothing else configures. */
  const DefaultEnumType: EnumType := Name

  /** @IQVersion(value); value defaults to 0. */
  datatype IQVersion = IQVersion(value: int)

  /** @IQSchema(value); value defaults to "". */
  datatype IQSchema = IQSchema(value: string)

  /** @IQIndex(name, type, value); an empty name asks iciql to generate one. */
  datatype IQIndex = IQIndex(name: string, kind: IndexType, value: seq<string>)

  /** @IQTable, one member per annotation element. */
  datatype IQTable = IQTable(
    name: string,
    primaryKey: string,
    inheritColumns: bool,
    createIfRequired: bool,
    strictTypeMapping: bool,
    annotationsOnly: bool,
    memoryTable: bool)

  /** @IQColumn, one member per annotation element. */
  datatype IQColumn = IQColumn(
    name: string,
    primaryKey: bool,
    autoIncrement: bool,
    maxLength: int,
    trimString: bool,
    allowNull: bool,
    defaultValue: string)

  /** The annotation elements' declared defaults. */
  const DefaultVersion: IQVersion := IQVersion(0)
  const DefaultSchema: IQSchema := IQSchema("")
  const DefaultIndex: IQIndex := IQIndex("", Standard, [])
  const DefaultTable: IQTable := IQTable("", "", false, true, true, true, false)
  const DefaultColumn: IQColumn := IQColumn("", false, false, 0, false, false, "")

  // ------------------------------------------------- reflection, made explicit

  /** An enum class: its name, the @IQEnum on the type (if any), whether it implements EnumId. */
  datatype EnumClass = EnumClass(name: string, iqEnum: Option<EnumType>, implementsEnumId: bool)

  /** The declared Java type of a field, as far as the mapping core distinguishes types. */
  datatype JavaType = StringType | IntegerType | LongType | BooleanType | EnumKind(enumClass: EnumClass) | OtherType(className: string)
  {
    predicate IsEnum() { EnumKind? }
  }

  /** Identifies a field: the class that declares it and its name. */
  datatype FieldKey = FieldKey(declaringClass: string, name: string)

  /**
   * A declared field as reflection sees it: name, visibility, type, and the @IQColumn and
   * @IQEnum annotations present on it.
   */
  datatype Field = Field(
    key: FieldKey,
    isPublic: bool,
    javaType: JavaType,
    column: Option<IQColumn>,
    iqEnum: Option<EnumType>)
  {
    function Name(): string { key.name }
  }

  /**
   * A model class: its simple name, its own declared fields, its superclass's declared
   * fields, and the class-level annotations present on it.
   */
  datatype ModelClass = ModelClass(
    simpleName: string,
    declaredFields: seq<Field>,
    superclassFields: seq<Field>,
    table: Option<IQTable>,
    schema: Option<IQSchema>,
    version: Option<IQVersion>,
    index: Option<IQIndex>,
    indexes: Option<seq<IQIndex>>)

  /** A Java value held by a field: null, a string, a number, an enum constant, or anything else. */
  datatype Value =
    | Null
    | Str(s: string)
    | Int(i: int)
    | Bool(b: bool)
    | EnumConstant(constantName: string, ordinal: nat, enumId: Option<int>)
    | OtherValue(description: string)

  /** A model object: the value each of its fields holds. */
  type Instance = FieldKey -> Value
}
