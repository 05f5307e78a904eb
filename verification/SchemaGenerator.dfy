/**
 The schema generator. It visits a new object, and for a field with a default it writes the
 default into the schema, which fails like any other write.
 */
module SchemaGenerator {
  import opened Basics
  import opened Serialization

  datatype Schema =
    | Leaf(typeName: string)
    | Items(items: Schema)
    | Properties(props: seq<Property>, required: seq<string>)

  datatype Property = Property(name: string, schema: Schema, default: Option<Json>)

  // ---------------------------------------------------------------- the generator

  function Describe(ty: Type): Result<Schema>
    requires WellFormed(ty)
    decreases ty, 0
  {
    match ty
    case IntType => Ok(Leaf("integer"))
    case BoolType => Ok(Leaf("integer"))  // the test for integers comes first
    case StringType => Ok(Leaf("string"))
    case BlobType => Ok(Leaf("binary"))
    case VectorType(elem) =>
      var items := Describe(elem);
      if items.Err? then Err(items.error) else Ok(Items(items.value))
    case StructType(fields) =>
      var props := DescribeFields(fields);
      if props.Err? then Err(props.error) else Ok(Properties(props.value, RequiredNames(fields)))
  }

  function DescribeFields(fields: seq<FieldDecl>): Result<seq<Property>>
    requires FieldsWellFormed(fields)
    decreases fields, 0
  {
    if fields == [] then Ok([])
    else
      var first := DescribeField(fields[0]);
      if first.Err? then Err(first.error)
      else
        var rest := DescribeFields(fields[1..]);
        if rest.Err? then rest else Ok([first.value] + rest.value)
  }

  /** The type first, then the default, if the field of a new object has one. */
  function DescribeField(f: FieldDecl): Result<Property>
    requires WellFormed(f.ty) && (f.init.Default? ==> HasType(f.init.value, f.ty))
    decreases f, 0
  {
    var schema := Describe(f.ty);
    if schema.Err? then Err(schema.error)
    else if !FreshField(f).defaultSet then Ok(Property(f.name, schema.value, None))
    else
      var default := Write(FreshField(f).value.value, f.ty);
      if default.Err? then Err(default.error) else Ok(Property(f.name, schema.value, Some(default.value)))
  }

  /** A field of a new object that has no default and is required. */
  function RequiredNames(fields: seq<FieldDecl>): seq<string> {
    if fields == [] then []
    else
      var f := FreshField(fields[0]);
      (if !f.defaultSet && f.required then [fields[0].name] else []) + RequiredNames(fields[1..])
  }

  // ---------------------------------------------------------------- when there is a schema

  /** The schema of a type, whether or not the generator gets that far. */
  function SchemaOf(ty: Type): Schema
    decreases ty, 0
  {
    match ty
    case IntType => Leaf("integer")
    case BoolType => Leaf("integer")
    case StringType => Leaf("string")
    case BlobType => Leaf("binary")
    case VectorType(elem) => Items(SchemaOf(elem))
    case StructType(fields) => Properties(PropertiesOf(fields), RequiredNames(fields))
  }

  function PropertiesOf(fields: seq<FieldDecl>): seq<Property>
    decreases fields, 0
  {
    if fields == [] then []
    else [Property(fields[0].name, SchemaOf(fields[0].ty), DefaultOf(fields[0]))] + PropertiesOf(fields[1..])
  }

  function DefaultOf(f: FieldDecl): Option<Json> {
    if f.init.Default? && HasType(f.init.value, f.ty) && Write(f.init.value, f.ty).Ok? then
      Some(Write(f.init.value, f.ty).value)
    else None
  }

  /** Every declared default, at every level, can be written. */
  predicate DefaultsWritable(ty: Type)
    requires WellFormed(ty)
    decreases ty
  {
    match ty
    case VectorType(elem) => DefaultsWritable(elem)
    case StructType(fields) => AllDefaultsWritable(fields)
    case _ => true
  }

  predicate AllDefaultsWritable(fields: seq<FieldDecl>)
    requires FieldsWellFormed(fields)
    decreases fields
  {
    fields != [] ==>
      && DefaultsWritable(fields[0].ty)
      && (fields[0].init.Default? ==> Writable(fields[0].init.value, fields[0].ty))
      && AllDefaultsWritable(fields[1..])
  }

  /** There is a schema exactly if every declared default can be written; otherwise the
      generator fails for a required field that is not set. */
  lemma {:induction false} DescribesIff(ty: Type)
    requires WellFormed(ty)
    ensures Describe(ty).Ok? <==> DefaultsWritable(ty)
    ensures Describe(ty).Ok? ==> Describe(ty).value == SchemaOf(ty)
    ensures Describe(ty).Err? ==> Describe(ty).error.NotSet?
    decreases ty, 0
  {
    match ty {
      case VectorType(elem) => DescribesIff(elem);
      case StructType(fields) => FieldsDescribeIff(fields);
      case _ =>
    }
  }

  lemma {:induction false} FieldsDescribeIff(fields: seq<FieldDecl>)
    requires FieldsWellFormed(fields)
    ensures DescribeFields(fields).Ok? <==> AllDefaultsWritable(fields)
    ensures DescribeFields(fields).Ok? ==> DescribeFields(fields).value == PropertiesOf(fields)
    ensures DescribeFields(fields).Err? ==> DescribeFields(fields).error.NotSet?
    decreases fields, 0
  {
    if fields != [] {
      var f := fields[0];
      DescribesIff(f.ty);
      if f.init.Default? {
        WritesIffWritable(f.init.value, f.ty);
      }
      FieldsDescribeIff(fields[1..]);
    }
  }

  /** In a schema that was generated a property has the default its field declares, if it
      declares one, and reading that into a new value gives the declared default if and only if
      a new value already has what the writer leaves out. */
  lemma {:induction false} DefaultReadsBack(fields: seq<FieldDecl>, i: nat)
    requires FieldsWellFormed(fields) && DescribeFields(fields).Ok? && i < |fields|
    ensures WellFormed(fields[i].ty)
    ensures var props, f := DescribeFields(fields).value, fields[i];
      && |props| == |fields| && props[i].name == f.name
      && (props[i].default.Some? <==> f.init.Default?)
      && (f.init.Default? ==>
            && HasType(f.init.value, f.ty)
            && (Restored(Read(props[i].default.value, f.ty, Fresh(f.ty)), f.init.value)
                <==> Recoverable(f.init.value, f.ty, Fresh(f.ty))))
    decreases |fields|
  {
    if i == 0 {
      DescribedLength(fields);
      if fields[0].init.Default? {
        RoundTripIff(fields[0].init.value, fields[0].ty, Fresh(fields[0].ty));
      }
    } else {
      DefaultReadsBack(fields[1..], i - 1);
      assert DescribeFields(fields).value[1..] == DescribeFields(fields[1..]).value;
    }
  }

  lemma {:induction false} DescribedLength(fields: seq<FieldDecl>)
    requires FieldsWellFormed(fields) && DescribeFields(fields).Ok?
    ensures |DescribeFields(fields).value| == |fields|
    decreases |fields|
  {
    if fields != [] {
      DescribedLength(fields[1..]);
    }
  }

  /** The default of a struct with a required field: the declaration is a usual one, and the
      generator fails on it. */
  lemma UnwritableDefault() returns (ty: Type)
    ensures WellFormed(ty) && PlainDefaults(ty) && Describe(ty) == Err(NotSet("a"))
  {
    var a := FieldDecl("a", IntType, Required);
    var inner := StructType([a]);
    assert Fresh(inner) == Struct([FreshField(a)]);
    var f := FieldDecl("f", inner, Default(Fresh(inner)));
    ty := StructType([f]);
    assert WellFormed(inner) && WellFormed(ty);
    assert Write(Fresh(inner), inner) == Err(NotSet("a"));
    assert FieldsPlain([]) && [a][1..] == [] && [f][1..] == [];
    assert PlainDefaults(inner) && DefaultsWritable(inner);
    DescribesIff(inner);
    assert DescribeField(f) == Err(NotSet("a"));
  }
}
