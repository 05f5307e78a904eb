/**
 The generated schema next to the reader: which names the schema requires, and when the
 reader rejects a dictionary for a missing name.
 */
module SchemaAgreement {
  import opened Basics
  import opened SchemaGenerator
  import opened Serialization

  // ---------------------------------------------------------------- what the schema demands

  /** Some object the schema describes lacks a name required of it. */
  predicate Lacks(schema: Schema, j: Json)
    decreases schema
  {
    match schema
    case Leaf(_) => false
    case Items(items) => exists i :: 0 <= i < |Elements(j)| && Lacks(items, Elements(j)[i])
    case Properties(props, required) =>
      || LacksName(required, j)
      || (exists i :: 0 <= i < |props| && PropertyLacks(props[i], j))
  }

  predicate LacksName(required: seq<string>, j: Json) {
    exists i :: 0 <= i < |required| && Lookup(j, required[i]).None?
  }

  predicate PropertyLacks(p: Property, j: Json)
    decreases p
  {
    Lookup(j, p.name).Some? && Lacks(p.schema, Lookup(j, p.name).value)
  }

  /** The dictionary has the kinds of values the type calls for wherever it has any. */
  predicate Matches(j: Json, ty: Type)
    decreases ty, 0
  {
    match ty
    case IntType => j.Number? || j.Boolean?
    case BoolType => j.Boolean?
    case StringType => j.Text?
    case BlobType => j.Binary?
    case VectorType(elem) => j.Array? && forall i :: 0 <= i < |j.elems| ==> Matches(j.elems[i], elem)
    case StructType(fields) =>
      (j.Null? || j.Object?) && forall i :: 0 <= i < |fields| ==> FieldMatches(j, fields[i])
  }

  predicate FieldMatches(j: Json, f: FieldDecl)
    decreases f, 0
  {
    Lookup(j, f.name).Some? ==> Matches(Lookup(j, f.name).value, f.ty)
  }

  /** The target of a read demands the same fields as a new object would, all the way
      down the values it already holds. */
  predicate SameDemands(ty: Type, target: Value)
    requires WellFormed(ty) && HasType(target, ty)
    decreases ty, 0
  {
    match ty
    case VectorType(elem) => SameDemands(elem, Fresh(elem))
    case StructType(fields) => FieldsDemandSame(fields, target.fields)
    case _ => true
  }

  predicate FieldDemandsSame(f: FieldDecl, target: Field)
    requires WellFormed(f.ty) && (target.value.Some? ==> HasType(target.value.value, f.ty))
    decreases f, 0
  {
    && target.required == f.init.Required?
    && SameDemands(f.ty, Materialized(target, f.ty))
  }

  predicate FieldsDemandSame(fields: seq<FieldDecl>, targets: seq<Field>)
    requires FieldsWellFormed(fields) && FieldsTyped(targets, fields)
    decreases fields, 0
  {
    fields != [] ==> FieldDemandsSame(fields[0], targets[0]) && FieldsDemandSame(fields[1..], targets[1..])
  }

  /** On matching dictionaries the only error is a missing field. */
  predicate Rejects(j: Json, ty: Type, target: Value)
    requires WellFormed(ty) && HasType(target, ty)
  {
    Read(j, ty, target).Err? && Read(j, ty, target).error.NotSet?
  }

  predicate FieldLacks(j: Json, f: FieldDecl)
  {
    if Lookup(j, f.name).None? then f.init.Required?
    else Lacks(SchemaOf(f.ty), Lookup(j, f.name).value)
  }

  predicate AnyLacks(j: Json, fields: seq<FieldDecl>)
  {
    fields != [] && (FieldLacks(j, fields[0]) || AnyLacks(j, fields[1..]))
  }

  ghost predicate PropsLack(props: seq<Property>, j: Json) {
    exists i :: 0 <= i < |props| && PropertyLacks(props[i], j)
  }

  lemma NamesSplit(front: seq<string>, back: seq<string>, j: Json)
    ensures LacksName(front + back, j) <==> LacksName(front, j) || LacksName(back, j)
  {
    var all := front + back;
    if i :| 0 <= i < |all| && Lookup(j, all[i]).None? {
      assert if i < |front| then Lookup(j, front[i]).None? else Lookup(j, back[i - |front|]).None?;
    }
    if i :| 0 <= i < |front| && Lookup(j, front[i]).None? {
      assert Lookup(j, all[i]).None?;
    }
    if i :| 0 <= i < |back| && Lookup(j, back[i]).None? {
      assert Lookup(j, all[i + |front|]).None?;
    }
  }

  lemma PropsCons(p: Property, back: seq<Property>, j: Json)
    ensures PropsLack([p] + back, j) <==> PropertyLacks(p, j) || PropsLack(back, j)
  {
    var all := [p] + back;
    if i :| 0 <= i < |all| && PropertyLacks(all[i], j) {
      assert if i == 0 then PropertyLacks(p, j) else PropertyLacks(back[i - 1], j);
    }
    if PropertyLacks(p, j) {
      assert PropertyLacks(all[0], j);
    }
    if i :| 0 <= i < |back| && PropertyLacks(back[i], j) {
      assert PropertyLacks(all[i + 1], j);
    }
  }

  /** What the schema of a struct demands, field by field. */
  lemma {:induction false} StructLacks(j: Json, fields: seq<FieldDecl>)
    ensures LacksName(RequiredNames(fields), j) || PropsLack(PropertiesOf(fields), j) <==> AnyLacks(j, fields)
    decreases |fields|
  {
    if fields != [] {
      var f := fields[0];
      var names := if f.init.Required? then [f.name] else [];
      StructLacks(j, fields[1..]);
      NamesSplit(names, RequiredNames(fields[1..]), j);
      PropsCons(Property(f.name, SchemaOf(f.ty), DefaultOf(f)), PropertiesOf(fields[1..]), j);
      if f.init.Required? {
        assert names[0] == f.name;
        assert LacksName(names, j) <==> Lookup(j, f.name).None?;
      }
    }
  }

  lemma {:induction false} ReaderAgrees(j: Json, ty: Type, target: Value)
    requires WellFormed(ty) && HasType(target, ty) && Matches(j, ty) && SameDemands(ty, target)
    ensures Read(j, ty, target).Ok? || Rejects(j, ty, target)
    ensures Rejects(j, ty, target) <==> Lacks(SchemaOf(ty), j)
    decreases ty, 0
  {
    match ty {
      case VectorType(elem) => ElemsAgree(Elements(j), elem);
      case StructType(fields) =>
        StructLacks(j, fields);
        FieldsAgree(j, fields, target.fields);
      case _ =>
    }
  }

  ghost predicate ElemsLack(schema: Schema, js: seq<Json>) {
    exists i :: 0 <= i < |js| && Lacks(schema, js[i])
  }

  lemma ElemsLackSnoc(schema: Schema, js: seq<Json>)
    requires js != []
    ensures ElemsLack(schema, js) <==> ElemsLack(schema, js[..|js| - 1]) || Lacks(schema, js[|js| - 1])
  {
    var n := |js| - 1;
    if i :| 0 <= i < |js| && Lacks(schema, js[i]) {
      assert i < n ==> Lacks(schema, js[..n][i]);
    }
    if i :| 0 <= i < n && Lacks(schema, js[..n][i]) {
      assert Lacks(schema, js[i]);
    }
  }

  lemma {:induction false} ElemsAgree(js: seq<Json>, elem: Type)
    requires WellFormed(elem) && SameDemands(elem, Fresh(elem))
    requires forall i :: 0 <= i < |js| ==> Matches(js[i], elem)
    ensures var r := ReadElems(js, elem);
      (r.Ok? || r.error.NotSet?) && (r.Err? <==> ElemsLack(SchemaOf(elem), js))
    decreases elem, |js| + 1
  {
    if js != [] {
      ElemsAgree(js[..|js| - 1], elem);
      ReaderAgrees(js[|js| - 1], elem, Fresh(elem));
      ElemsLackSnoc(SchemaOf(elem), js);
    }
  }

  lemma {:induction false} FieldsAgree(j: Json, fields: seq<FieldDecl>, targets: seq<Field>)
    requires FieldsWellFormed(fields) && FieldsTyped(targets, fields) && FieldsDemandSame(fields, targets)
    requires forall i :: 0 <= i < |fields| ==> FieldMatches(j, fields[i])
    ensures var r := ReadFields(j, fields, targets);
      (r.Ok? || r.error.NotSet?) && (r.Err? <==> AnyLacks(j, fields))
    decreases fields, 0
  {
    if fields != [] {
      FieldAgrees(j, fields[0], targets[0]);
      FieldsAgree(j, fields[1..], targets[1..]);
    }
  }

  lemma {:induction false} FieldAgrees(j: Json, f: FieldDecl, target: Field)
    requires WellFormed(f.ty) && (target.value.Some? ==> HasType(target.value.value, f.ty))
    requires FieldDemandsSame(f, target) && FieldMatches(j, f)
    ensures var r := ReadField(j, f, target);
      (r.Ok? || r.error.NotSet?) && (r.Err? <==> FieldLacks(j, f))
    decreases f, 0
  {
    if Lookup(j, f.name).Some? {
      ReaderAgrees(Lookup(j, f.name).value, f.ty, Materialized(target, f.ty));
    }
  }

  // ---------------------------------------------------------------- and otherwise they differ

  /** A dictionary with every field. */
  function Full(ty: Type): Json
    decreases ty, 0
  {
    match ty
    case IntType => Number(0)
    case BoolType => Boolean(false)
    case StringType => Text("")
    case BlobType => Binary([])
    case VectorType(_) => Array([])
    case StructType(fields) => Object(Chosen(fields, FullChoice(fields)))
  }

  function FullChoice(fields: seq<FieldDecl>): (cs: seq<Option<Json>>)
    ensures |cs| == |fields|
    decreases fields, 0
  {
    if fields == [] then [] else [Some(Full(fields[0].ty))] + FullChoice(fields[1..])
  }

  /** An object with a chosen value, or nothing, for each field. */
  function Chosen(fields: seq<FieldDecl>, choice: seq<Option<Json>>): seq<Member>
    requires |fields| == |choice|
    decreases |fields|
  {
    if fields == [] then []
    else (if choice[0].Some? then [Member(fields[0].name, choice[0].value)] else [])
         + Chosen(fields[1..], choice[1..])
  }

  lemma ChosenTail(fields: seq<FieldDecl>, choice: seq<Option<Json>>)
    requires |fields| == |choice| && fields != []
    ensures var ms, rest := Chosen(fields, choice), Chosen(fields[1..], choice[1..]);
      if choice[0].Some? then ms != [] && ms[0] == Member(fields[0].name, choice[0].value) && ms[1..] == rest
      else ms == rest
  {
  }

  lemma {:induction false} ChosenElsewhere(fields: seq<FieldDecl>, choice: seq<Option<Json>>, name: string)
    requires |fields| == |choice| && forall i :: 0 <= i < |fields| ==> fields[i].name != name
    ensures LookupMember(Chosen(fields, choice), name) == None
    decreases |fields|
  {
    if fields != [] {
      ChosenElsewhere(fields[1..], choice[1..], name);
      ChosenTail(fields, choice);
    }
  }

  lemma {:induction false} ChosenLookup(fields: seq<FieldDecl>, choice: seq<Option<Json>>, i: nat)
    requires FieldsWellFormed(fields) && |fields| == |choice| && i < |fields|
    ensures LookupMember(Chosen(fields, choice), fields[i].name) == choice[i]
    decreases i
  {
    ChosenTail(fields, choice);
    if i == 0 {
      ChosenElsewhere(fields[1..], choice[1..], fields[0].name);
    } else {
      ChosenLookup(fields[1..], choice[1..], i - 1);
      assert fields[1..][i - 1] == fields[i];
    }
  }

  lemma {:induction false} FullChoiceAt(fields: seq<FieldDecl>, i: nat)
    requires i < |fields|
    ensures FullChoice(fields)[i] == Some(Full(fields[i].ty))
    decreases i
  {
    if i > 0 {
      FullChoiceAt(fields[1..], i - 1);
    }
  }

  /** A field that neither the reader nor the schema complains about. */
  ghost predicate Harmless(j: Json, f: FieldDecl, target: Field) {
    && WellFormed(f.ty) && (target.value.Some? ==> HasType(target.value.value, f.ty))
    && ReadField(j, f, target).Ok? && !FieldLacks(j, f)
  }

  ghost predicate HarmlessExcept(j: Json, fields: seq<FieldDecl>, targets: seq<Field>, i: int) {
    |targets| == |fields| && forall k :: 0 <= k < |fields| && k != i ==> Harmless(j, fields[k], targets[k])
  }

  /** If all fields but one are harmless, that one decides. */
  lemma {:induction false} OneFieldDecides(j: Json, fields: seq<FieldDecl>, targets: seq<Field>, i: int)
    requires FieldsWellFormed(fields) && FieldsTyped(targets, fields) && HarmlessExcept(j, fields, targets, i)
    ensures if 0 <= i < |fields| then
        && WellFormed(fields[i].ty) && (targets[i].value.Some? ==> HasType(targets[i].value.value, fields[i].ty))
        && (ReadFields(j, fields, targets).Err? <==> ReadField(j, fields[i], targets[i]).Err?)
        && (AnyLacks(j, fields) <==> FieldLacks(j, fields[i]))
      else ReadFields(j, fields, targets).Ok? && !AnyLacks(j, fields)
    decreases |fields|
  {
    if fields != [] {
      forall k | 0 <= k < |fields[1..]| && k != i - 1 ensures Harmless(j, fields[1..][k], targets[1..][k]) {
        assert Harmless(j, fields[k + 1], targets[k + 1]);
      }
      OneFieldDecides(j, fields[1..], targets[1..], i - 1);
      if i != 0 {
        assert Harmless(j, fields[0], targets[0]);
      }
    }
  }

  ghost predicate Accepted(j: Json, ty: Type, target: Value)
    requires WellFormed(ty) && HasType(target, ty)
  {
    Matches(j, ty) && Read(j, ty, target).Ok? && !Lacks(SchemaOf(ty), j)
  }

  lemma {:induction false} FullIsAccepted(ty: Type, target: Value)
    requires WellFormed(ty) && HasType(target, ty)
    ensures Accepted(Full(ty), ty, target)
    decreases ty, 0
  {
    if ty.StructType? {
      var fields, targets, j := ty.fields, target.fields, Full(ty);
      FieldsTypedLength(targets, fields);
      forall k | 0 <= k < |fields| ensures Harmless(j, fields[k], targets[k]) && FieldMatches(j, fields[k]) {
        FullFieldIsHarmless(j, fields, FullChoice(fields), targets, k);
      }
      OneFieldDecides(j, fields, targets, -1);
      StructLacks(j, fields);
    }
  }

  lemma {:induction false} FullFieldIsHarmless(j: Json, fields: seq<FieldDecl>, choice: seq<Option<Json>>,
                                               targets: seq<Field>, k: nat)
    requires FieldsWellFormed(fields) && FieldsTyped(targets, fields) && k < |fields| == |choice|
    requires j == Object(Chosen(fields, choice)) && choice[k] == FullChoice(fields)[k]
    ensures |targets| == |fields| && Harmless(j, fields[k], targets[k]) && FieldMatches(j, fields[k])
    decreases fields, 0
  {
    FieldsTypedAt(targets, fields, k);
    WellFormedAt(fields, k);
    ChosenLookup(fields, choice, k);
    FullChoiceAt(fields, k);
    FullIsAccepted(fields[k].ty, Materialized(targets[k], fields[k].ty));
  }

  lemma {:induction false} FindDemand(fields: seq<FieldDecl>, targets: seq<Field>) returns (i: nat)
    requires FieldsWellFormed(fields) && FieldsTyped(targets, fields) && !FieldsDemandSame(fields, targets)
    ensures i < |fields| == |targets|
    ensures WellFormed(fields[i].ty) && (targets[i].value.Some? ==> HasType(targets[i].value.value, fields[i].ty))
    ensures !FieldDemandsSame(fields[i], targets[i])
    decreases |fields|
  {
    if !FieldDemandsSame(fields[0], targets[0]) {
      i := 0;
      FieldsTypedLength(targets, fields);
    } else {
      i := FindDemand(fields[1..], targets[1..]);
      i := i + 1;
    }
  }

  /** If the demands differ there is a matching dictionary on which the reader and the
      schema disagree. */
  lemma {:induction false} Disagreement(ty: Type, target: Value) returns (j: Json)
    requires WellFormed(ty) && HasType(target, ty) && !SameDemands(ty, target)
    ensures Matches(j, ty) && (Read(j, ty, target).Err? <==> !Lacks(SchemaOf(ty), j))
    decreases ty, 0
  {
    match ty {
      case VectorType(elem) =>
        var inner := Disagreement(elem, Fresh(elem));
        j := Array([inner]);
        assert Elements(j) == [inner] && [inner][..0] == [];
        ElemsLackSnoc(SchemaOf(elem), [inner]);
        assert ReadElems([inner], elem).Err? <==> Read(inner, elem, Fresh(elem)).Err?;
      case StructType(fields) =>
        var targets := target.fields;
        var i := FindDemand(fields, targets);
        var pick := FieldDisagreement(fields[i], targets[i]);
        var choice := FullChoice(fields)[i := pick];
        j := Object(Chosen(fields, choice));
        ChosenLookup(fields, choice, i);
        forall k | 0 <= k < |fields| && k != i
          ensures Harmless(j, fields[k], targets[k]) && FieldMatches(j, fields[k])
        {
          FullFieldIsHarmless(j, fields, choice, targets, k);
        }
        OneFieldDecides(j, fields, targets, i);
        StructLacks(j, fields);
    }
  }

  lemma {:induction false} FieldDisagreement(f: FieldDecl, target: Field) returns (pick: Option<Json>)
    requires WellFormed(f.ty) && (target.value.Some? ==> HasType(target.value.value, f.ty))
    requires !FieldDemandsSame(f, target)
    ensures pick.None? ==> target.required != f.init.Required?
    ensures pick.Some? ==>
      && Matches(pick.value, f.ty)
      && (Read(pick.value, f.ty, Materialized(target, f.ty)).Err? <==> !Lacks(SchemaOf(f.ty), pick.value))
    decreases f, 0
  {
    pick := None;
    if target.required == f.init.Required? {
      var inner := Disagreement(f.ty, Materialized(target, f.ty));
      pick := Some(inner);
    }
  }

  // ---------------------------------------------------------------- main result

  /** The reader rejects a matching dictionary exactly when some object in it lacks a name
      the schema requires there. */
  ghost predicate Agree(schema: Schema, ty: Type, target: Value)
    requires WellFormed(ty) && HasType(target, ty)
  {
    forall j :: Matches(j, ty) ==> (Read(j, ty, target).Err? <==> Lacks(schema, j))
  }

  /** Reader and generated schema agree if and only if the value read into demands the same
      fields as a new object. */
  lemma ReaderAndSchemaAgreeIff(ty: Type, target: Value)
    requires WellFormed(ty) && HasType(target, ty) && Describe(ty).Ok?
    ensures Agree(Describe(ty).value, ty, target) <==> SameDemands(ty, target)
  {
    DescribesIff(ty);
    if SameDemands(ty, target) {
      forall j | Matches(j, ty) ensures Read(j, ty, target).Err? <==> Lacks(SchemaOf(ty), j) {
        ReaderAgrees(j, ty, target);
      }
    } else {
      var j := Disagreement(ty, target);
    }
  }

  /** A default that holds a required field: the schema still lists the field of the nested
      struct as required, and the reader, which fills the default, does not miss it. */
  lemma NestedDefaultDisagrees() returns (ty: Type)
    ensures WellFormed(ty) && Describe(ty).Ok? && !SameDemands(ty, Fresh(ty))
    ensures !Agree(Describe(ty).value, ty, Fresh(ty))
  {
    var inner := StructType([FieldDecl("a", IntType, Required)]);
    var preset := Struct([Field(Some(Int(5)), false, false)]);
    var decl := FieldDecl("f", inner, Default(preset));
    ty := StructType([decl]);
    assert HasType(preset, inner) && WellFormed(inner) && WellFormed(ty);
    assert !FieldDemandsSame(FieldDecl("a", IntType, Required), preset.fields[0]);
    assert !SameDemands(inner, preset);
    assert Fresh(ty) == Struct([FreshField(decl)]);
    assert !FieldDemandsSame(decl, FreshField(decl));
    assert Writable(preset, inner) && DefaultsWritable(inner) && DefaultsWritable(ty);
    DescribesIff(ty);
    ReaderAndSchemaAgreeIff(ty, Fresh(ty));
  }

  /** Reading a new object of a type with plain defaults, as `Struct_fromDict` does: if the
      defaults can be written there is a schema, and it agrees. */
  lemma PlainTypesAgree(ty: Type)
    requires WellFormed(ty) && PlainDefaults(ty) && DefaultsWritable(ty)
    ensures Describe(ty).Ok? && Agree(Describe(ty).value, ty, Fresh(ty))
  {
    DescribesIff(ty);
    PlainTypesDemandSame(ty);
    ReaderAndSchemaAgreeIff(ty, Fresh(ty));
  }

  lemma {:induction false} PlainTypesDemandSame(ty: Type)
    requires WellFormed(ty) && PlainDefaults(ty)
    ensures SameDemands(ty, Fresh(ty))
    decreases ty, 0
  {
    match ty {
      case VectorType(elem) => PlainTypesDemandSame(elem);
      case StructType(fields) => PlainFieldsDemandSame(fields);
      case _ =>
    }
  }

  lemma {:induction false} PlainFieldsDemandSame(fields: seq<FieldDecl>)
    requires FieldsWellFormed(fields) && FieldsPlain(fields)
    ensures FieldsDemandSame(fields, FreshFields(fields))
    decreases fields, 0
  {
    if fields != [] {
      PlainTypesDemandSame(fields[0].ty);
      PlainFieldsDemandSame(fields[1..]);
      assert FreshFields(fields)[1..] == FreshFields(fields[1..]);
    }
  }
}
