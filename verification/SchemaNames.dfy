/**
 The type names in a generated schema, next to the kinds of the values that are written.
 */
module SchemaNames {
  import opened Basics
  import opened SchemaGenerator
  import opened Serialization

  /** The type name a JSON value has in a schema. */
  function KindOf(j: Json): string {
    match j
    case Null => "null"
    case Number(_) => "integer"
    case Boolean(_) => "boolean"
    case Text(_) => "string"
    case Binary(_) => "binary"
    case Array(_) => "array"
    case Object(_) => "object"
  }

  /** Where the kinds are compared. */
  datatype Levels = Leaves | All

  /** What is written has the kinds the schema names. */
  predicate Fits(schema: Schema, j: Json, levels: Levels)
    decreases schema
  {
    match schema
    case Leaf(name) => KindOf(j) == name
    case Items(items) =>
      && (levels.All? ==> KindOf(j) == "array")
      && forall i :: 0 <= i < |Elements(j)| ==> Fits(items, Elements(j)[i], levels)
    case Properties(props, _) =>
      && (levels.All? ==> KindOf(j) == "object")
      && forall i :: 0 <= i < |props| ==> PropertyFits(props[i], j, levels)
  }

  predicate PropertyFits(p: Property, j: Json, levels: Levels)
    decreases p
  {
    Lookup(j, p.name).Some? ==> Fits(p.schema, Lookup(j, p.name).value, levels)
  }

  /** The flags of a field are those of its declaration, at every level: it can be given a
      value or emptied, and stops being the default for good. */
  predicate AsDeclared(v: Value, ty: Type)
    requires HasType(v, ty)
    decreases ty
  {
    match ty
    case VectorType(elem) => forall i :: 0 <= i < |v.elems| ==> AsDeclared(v.elems[i], elem)
    case StructType(fields) => FieldsAsDeclared(v.fields, fields)
    case _ => true
  }

  predicate FieldsAsDeclared(vs: seq<Field>, fields: seq<FieldDecl>)
    requires FieldsTyped(vs, fields)
    decreases fields
  {
    fields != [] ==>
      && vs[0].required == fields[0].init.Required? && (vs[0].defaultSet ==> fields[0].init.Default?)
      && (vs[0].value.Some? ==> AsDeclared(vs[0].value.value, fields[0].ty))
      && FieldsAsDeclared(vs[1..], fields[1..])
  }

  // ---------------------------------------------------------------- the condition

  predicate HasRequired(fields: seq<FieldDecl>) {
    fields != [] && (fields[0].init.Required? || HasRequired(fields[1..]))
  }

  /** A `bool`, or a struct that is written as null when all its fields are left out. */
  predicate Misnamed(ty: Type, levels: Levels) {
    ty.BoolType? || (levels.All? && ty.StructType? && !HasRequired(ty.fields))
  }

  predicate HasMisnamed(ty: Type, levels: Levels)
    decreases ty
  {
    || Misnamed(ty, levels)
    || match ty
       case VectorType(elem) => HasMisnamed(elem, levels)
       case StructType(fields) => AnyMisnamed(fields, levels)
       case _ => false
  }

  predicate AnyMisnamed(fields: seq<FieldDecl>, levels: Levels)
    decreases fields
  {
    fields != [] && (HasMisnamed(fields[0].ty, levels) || AnyMisnamed(fields[1..], levels))
  }

  lemma {:induction false} NotMisnamedAt(fields: seq<FieldDecl>, i: nat, levels: Levels)
    requires i < |fields| && !AnyMisnamed(fields, levels)
    ensures !HasMisnamed(fields[i].ty, levels)
    decreases i
  {
    if i > 0 {
      NotMisnamedAt(fields[1..], i - 1, levels);
    }
  }

  lemma {:induction false} FindMisnamed(fields: seq<FieldDecl>, levels: Levels) returns (i: nat)
    requires AnyMisnamed(fields, levels)
    ensures i < |fields| && HasMisnamed(fields[i].ty, levels)
    decreases |fields|
  {
    i := 0;
    if !HasMisnamed(fields[0].ty, levels) {
      i := FindMisnamed(fields[1..], levels);
      i := i + 1;
    }
  }

  // ---------------------------------------------------------------- where the names fit

  lemma {:induction false} PropertyAt(fields: seq<FieldDecl>, i: nat)
    requires i < |fields|
    ensures |PropertiesOf(fields)| == |fields|
    ensures PropertiesOf(fields)[i].name == fields[i].name
    ensures PropertiesOf(fields)[i].schema == SchemaOf(fields[i].ty)
    decreases |fields|
  {
    if |fields| > 1 {
      PropertyAt(fields[1..], if i > 0 then i - 1 else 0);
    }
  }

  lemma {:induction false} AsDeclaredAt(vs: seq<Field>, fields: seq<FieldDecl>, i: nat)
    requires FieldsTyped(vs, fields) && FieldsAsDeclared(vs, fields) && i < |fields|
    ensures |vs| == |fields| && (vs[i].value.Some? ==> HasType(vs[i].value.value, fields[i].ty))
    ensures vs[i].value.Some? ==> AsDeclared(vs[i].value.value, fields[i].ty)
    decreases i
  {
    FieldsTypedLength(vs, fields);
    if i > 0 {
      AsDeclaredAt(vs[1..], fields[1..], i - 1);
    }
  }

  /** A struct with a required field is never written as null. */
  lemma {:induction false} RequiredIsWritten(vs: seq<Field>, fields: seq<FieldDecl>)
    requires FieldsTyped(vs, fields) && FieldsAsDeclared(vs, fields) && HasRequired(fields)
    requires WriteFields(vs, fields).Ok?
    ensures WriteFields(vs, fields).value != []
    decreases |fields|
  {
    if !fields[0].init.Required? {
      RequiredIsWritten(vs[1..], fields[1..]);
    }
  }

  /** Everything written is of the kinds the schema names. */
  lemma {:induction false} NamesFit(v: Value, ty: Type, levels: Levels)
    requires WellFormed(ty) && HasType(v, ty) && Write(v, ty).Ok? && !HasMisnamed(ty, levels)
    requires levels.All? ==> AsDeclared(v, ty)
    ensures Fits(SchemaOf(ty), Write(v, ty).value, levels)
    decreases ty
  {
    match ty {
      case VectorType(elem) =>
        var js := WriteElems(v.elems, elem).value;
        WrittenLength(v.elems, elem);
        forall i | 0 <= i < |js| ensures Fits(SchemaOf(elem), js[i], levels) {
          WrittenElemAt(v.elems, elem, i);
          NamesFit(v.elems[i], elem, levels);
        }
      case StructType(fields) =>
        var props := PropertiesOf(fields);
        forall i | 0 <= i < |props| ensures PropertyFits(props[i], Write(v, ty).value, levels) {
          FieldFits(v.fields, fields, i, levels);
        }
        if levels.All? {
          RequiredIsWritten(v.fields, fields);
        }
      case _ =>
    }
  }

  lemma {:induction false} FieldFits(vs: seq<Field>, fields: seq<FieldDecl>, i: nat, levels: Levels)
    requires FieldsWellFormed(fields) && FieldsTyped(vs, fields) && WriteFields(vs, fields).Ok?
    requires !AnyMisnamed(fields, levels) && (levels.All? ==> FieldsAsDeclared(vs, fields))
    requires i < |PropertiesOf(fields)|
    ensures var ms := WriteFields(vs, fields).value;
      PropertyFits(PropertiesOf(fields)[i], if ms == [] then Null else Object(ms), levels)
    decreases fields, 0
  {
    PropertiesLength(fields);
    PropertyAt(fields, i);
    NotMisnamedAt(fields, i, levels);
    WellFormedAt(fields, i);
    WriteFieldsWrites(vs, fields, i);
    if levels.All? {
      AsDeclaredAt(vs, fields, i);
    }
    if Emitted(vs[i]) {
      NamesFit(vs[i].value.value, fields[i].ty, levels);
    }
  }

  lemma {:induction false} PropertiesLength(fields: seq<FieldDecl>)
    ensures |PropertiesOf(fields)| == |fields|
    decreases |fields|
  {
    if fields != [] {
      PropertiesLength(fields[1..]);
    }
  }

  // ---------------------------------------------------------------- and where they do not

  /** A value in which only what is required is filled. */
  function Sparse(ty: Type): (v: Value)
    ensures HasType(v, ty)
    decreases ty, 0
  {
    match ty
    case IntType => Int(0)
    case BoolType => Bool(false)
    case StringType => String("")
    case BlobType => Blob([])
    case VectorType(_) => Vector([])
    case StructType(fields) => Struct(SparseFields(fields))
  }

  function SparseFields(fields: seq<FieldDecl>): (vs: seq<Field>)
    ensures FieldsTyped(vs, fields)
    decreases fields, 0
  {
    if fields == [] then []
    else [Field(if fields[0].init.Required? then Some(Sparse(fields[0].ty)) else None, fields[0].init.Required?, false)]
         + SparseFields(fields[1..])
  }

  lemma {:induction false} SparseIsWritten(ty: Type)
    ensures AsDeclared(Sparse(ty), ty) && Write(Sparse(ty), ty).Ok?
    decreases ty, 0
  {
    if ty.StructType? {
      SparseFieldsAreWritten(ty.fields);
    }
  }

  lemma {:induction false} SparseFieldsAreWritten(fields: seq<FieldDecl>)
    ensures FieldsAsDeclared(SparseFields(fields), fields) && WriteFields(SparseFields(fields), fields).Ok?
    ensures !HasRequired(fields) ==> WriteFields(SparseFields(fields), fields).value == []
    decreases fields, 0
  {
    if fields != [] {
      SparseIsWritten(fields[0].ty);
      SparseFieldsAreWritten(fields[1..]);
    }
  }

  /** And with a given value in one field. */
  function SparseWith(fields: seq<FieldDecl>, i: nat, v: Value): seq<Field>
    requires i < |fields|
  {
    var front := Field(if fields[0].init.Required? then Some(Sparse(fields[0].ty)) else None,
                       fields[0].init.Required?, false);
    if i == 0 then [front.(value := Some(v))] + SparseFields(fields[1..])
    else [front] + SparseWith(fields[1..], i - 1, v)
  }

  lemma {:induction false} SparseWithIsWritten(fields: seq<FieldDecl>, i: nat, v: Value)
    requires i < |fields| && HasType(v, fields[i].ty)
    requires AsDeclared(v, fields[i].ty) && Write(v, fields[i].ty).Ok?
    ensures var vs := SparseWith(fields, i, v);
      && FieldsTyped(vs, fields) && FieldsAsDeclared(vs, fields) && WriteFields(vs, fields).Ok?
      && i < |vs| && vs[i].value == Some(v) && Emitted(vs[i])
    decreases |fields|
  {
    SparseIsWritten(fields[0].ty);
    if i == 0 {
      SparseFieldsAreWritten(fields[1..]);
    } else {
      SparseWithIsWritten(fields[1..], i - 1, v);
    }
  }

  /** Otherwise there is a value that does not fit. */
  lemma {:induction false} SomethingIsMisnamed(ty: Type, levels: Levels) returns (v: Value)
    requires WellFormed(ty) && HasMisnamed(ty, levels)
    ensures HasType(v, ty) && AsDeclared(v, ty) && Write(v, ty).Ok?
    ensures !Fits(SchemaOf(ty), Write(v, ty).value, levels)
    decreases ty
  {
    if Misnamed(ty, levels) {
      SparseIsWritten(ty);
      v := Sparse(ty);
      if ty.StructType? {
        SparseFieldsAreWritten(ty.fields);
      }
    } else if ty.VectorType? {
      var inner := SomethingIsMisnamed(ty.elem, levels);
      v := Vector([inner]);
      assert [inner][..0] == [] && WriteElems([], ty.elem) == Ok([]);
      assert WriteElems([inner], ty.elem) == Ok([] + [Write(inner, ty.elem).value]);
      assert Elements(Write(v, ty).value)[0] == Write(inner, ty.elem).value;
    } else {
      var fields := ty.fields;
      var i := FindMisnamed(fields, levels);
      WellFormedAt(fields, i);
      var inner := SomethingIsMisnamed(fields[i].ty, levels);
      v := Struct(SparseWith(fields, i, inner));
      SparseWithIsWritten(fields, i, inner);
      WriteFieldsWrites(v.fields, fields, i);
      PropertyAt(fields, i);
      assert !PropertyFits(PropertiesOf(fields)[i], Write(v, ty).value, levels);
    }
  }

  // ---------------------------------------------------------------- main result

  /** Everything of the type that can be written has the kinds its schema names. */
  ghost predicate AlwaysFits(schema: Schema, ty: Type, levels: Levels)
    requires WellFormed(ty)
  {
    forall v :: HasType(v, ty) && (levels.All? ==> AsDeclared(v, ty)) && Write(v, ty).Ok? ==>
      Fits(schema, Write(v, ty).value, levels)
  }

  /** The exact conditions: every leaf has the kind its schema names if and only if there is
      no `bool` in the type, and everything has at every level if and only if, besides, every
      struct in it has a required field. */
  lemma WrittenKindsFitIff(ty: Type, levels: Levels)
    requires WellFormed(ty) && Describe(ty).Ok?
    ensures AlwaysFits(Describe(ty).value, ty, levels) <==> !HasMisnamed(ty, levels)
  {
    DescribesIff(ty);
    if HasMisnamed(ty, levels) {
      var v := SomethingIsMisnamed(ty, levels);
    } else {
      forall v | HasType(v, ty) && (levels.All? ==> AsDeclared(v, ty)) && Write(v, ty).Ok?
        ensures Fits(SchemaOf(ty), Write(v, ty).value, levels)
      {
        NamesFit(v, ty, levels);
      }
    }
  }
}
