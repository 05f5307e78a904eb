/**
 Schema-driven serialization: a struct is described by its fields; a writer turns a value
 into a dictionary, a reader fills a value from a dictionary, and a schema generator lists
 which names are required. All three visit the same field tree.
 */
module Serialization {
  import opened Basics

  datatype Type =
    | IntType
    | BoolType
    | StringType
    | BlobType
    | VectorType(elem: Type)
    | StructType(fields: seq<FieldDecl>)

  datatype FieldDecl = FieldDecl(name: string, ty: Type, init: FieldInit)

  /** How the declaration of a field initializes it. */
  datatype FieldInit = Required | Optional | Default(value: Value) | Preset(value: Value)

  datatype Value =
    | Int(i: int)
    | Bool(b: bool)
    | String(s: string)
    | Blob(bytes: seq<bv8>)
    | Vector(elems: seq<Value>)
    | Struct(fields: seq<Field>)

  /** A field object: a value that may be absent, and the two flags. */
  datatype Field = Field(value: Option<Value>, required: bool, defaultSet: bool)

  datatype Json =
    | Null
    | Number(n: int)
    | Boolean(b: bool)
    | Text(s: string)
    | Binary(bytes: seq<bv8>)
    | Array(elems: seq<Json>)
    | Object(members: seq<Member>)

  datatype Member = Member(name: string, value: Json)

  datatype Error = NotSet(name: string) | WrongType
  datatype Result<+T> = Ok(value: T) | Err(error: Error)

  // ---------------------------------------------------------------- types and fresh values

  predicate HasType(v: Value, ty: Type)
    decreases ty
  {
    match ty
    case IntType => v.Int?
    case BoolType => v.Bool?
    case StringType => v.String?
    case BlobType => v.Blob?
    case VectorType(elem) => v.Vector? && forall i :: 0 <= i < |v.elems| ==> HasType(v.elems[i], elem)
    case StructType(fields) => v.Struct? && FieldsTyped(v.fields, fields)
  }

  predicate FieldsTyped(vs: seq<Field>, fields: seq<FieldDecl>)
    decreases fields
  {
    if fields == [] then vs == []
    else
      && vs != []
      && (vs[0].value.Some? ==> HasType(vs[0].value.value, fields[0].ty))
      && FieldsTyped(vs[1..], fields[1..])
  }

  predicate WellFormed(ty: Type) {
    match ty
    case VectorType(elem) => WellFormed(elem)
    case StructType(fields) => FieldsWellFormed(fields)
    case _ => true
  }

  predicate FieldsWellFormed(fields: seq<FieldDecl>) {
    fields != [] ==>
      && WellFormed(fields[0].ty)
      && (fields[0].init.Default? || fields[0].init.Preset? ==> HasType(fields[0].init.value, fields[0].ty))
      && (forall i :: 0 < i < |fields| ==> fields[i].name != fields[0].name)
      && FieldsWellFormed(fields[1..])
  }

  /** A default-constructed value. */
  function Fresh(ty: Type): (v: Value)
    requires WellFormed(ty)
    ensures HasType(v, ty)
  {
    match ty
    case IntType => Int(0)
    case BoolType => Bool(false)
    case StringType => String("")
    case BlobType => Blob([])
    case VectorType(_) => Vector([])
    case StructType(fields) => Struct(FreshFields(fields))
  }

  function FreshFields(fields: seq<FieldDecl>): (vs: seq<Field>)
    requires FieldsWellFormed(fields)
    ensures FieldsTyped(vs, fields)
  {
    if fields == [] then [] else [FreshField(fields[0])] + FreshFields(fields[1..])
  }

  function FreshField(f: FieldDecl): Field {
    match f.init
    case Required => Field(None, true, false)
    case Optional => Field(None, false, false)
    case Default(v) => Field(Some(v), false, true)
    case Preset(v) => Field(Some(v), false, false)
  }

  /** The value of a field, made first if it is absent. */
  function Materialized(f: Field, ty: Type): Value
    requires WellFormed(ty)
  {
    if f.value.Some? then f.value.value else Fresh(ty)
  }

  // ---------------------------------------------------------------- writing and reading

  /** A field puts something into the dictionary only if it holds a value that is not
      marked as the default. */
  predicate Emitted(f: Field) {
    f.value.Some? && !f.defaultSet
  }

  function Write(v: Value, ty: Type): Result<Json>
    requires HasType(v, ty)
    decreases ty, 0
  {
    match ty
    case IntType => Ok(Number(v.i))
    case BoolType => Ok(Boolean(v.b))
    case StringType => Ok(Text(v.s))
    case BlobType => Ok(Binary(v.bytes))
    case VectorType(elem) =>
      var r := WriteElems(v.elems, elem);
      if r.Err? then Err(r.error) else Ok(Array(r.value))
    case StructType(fields) =>
      var r := WriteFields(v.fields, fields);
      if r.Err? then Err(r.error) else Ok(if r.value == [] then Null else Object(r.value))
  }

  function WriteElems(vs: seq<Value>, elem: Type): Result<seq<Json>>
    requires forall i :: 0 <= i < |vs| ==> HasType(vs[i], elem)
    decreases elem, |vs| + 1
  {
    if vs == [] then Ok([])
    else
      var front := WriteElems(vs[..|vs| - 1], elem);
      if front.Err? then front
      else
        var last := Write(vs[|vs| - 1], elem);
        if last.Err? then Err(last.error) else Ok(front.value + [last.value])
  }

  function WriteFields(vs: seq<Field>, fields: seq<FieldDecl>): Result<seq<Member>>
    requires FieldsTyped(vs, fields)
    decreases fields, 0
  {
    if fields == [] then Ok([])
    else if !Emitted(vs[0]) then
      if !vs[0].defaultSet && vs[0].required then Err(NotSet(fields[0].name))
      else WriteFields(vs[1..], fields[1..])
    else
      var first := Write(vs[0].value.value, fields[0].ty);
      if first.Err? then Err(first.error)
      else
        var rest := WriteFields(vs[1..], fields[1..]);
        if rest.Err? then rest else Ok([Member(fields[0].name, first.value)] + rest.value)
  }

  /** Looking up a name; nothing is found in a value that is not an object. */
  function Lookup(j: Json, name: string): Option<Json> {
    if j.Object? then LookupMember(j.members, name) else None
  }

  function LookupMember(ms: seq<Member>, name: string): Option<Json> {
    if ms == [] then None
    else if ms[0].name == name then Some(ms[0].value)
    else LookupMember(ms[1..], name)
  }

  /** What a loop over a dictionary value visits. */
  function Elements(j: Json): seq<Json> {
    match j
    case Null => []
    case Array(elems) => elems
    case Object(members) => seq(|members|, i requires 0 <= i < |members| => members[i].value)
    case _ => [j]
  }

  function Read(j: Json, ty: Type, target: Value): (r: Result<Value>)
    requires WellFormed(ty) && HasType(target, ty)
    ensures r.Ok? ==> HasType(r.value, ty)
    decreases ty, 0
  {
    match ty
    case IntType =>
      if j.Number? then Ok(Int(j.n)) else if j.Boolean? then Ok(Int(if j.b then 1 else 0)) else Err(WrongType)
    case BoolType => if j.Boolean? then Ok(Bool(j.b)) else Err(WrongType)
    case StringType => if j.Text? then Ok(String(j.s)) else Err(WrongType)
    case BlobType => if j.Binary? then Ok(Blob(j.bytes)) else Err(WrongType)
    case VectorType(elem) =>
      var r := ReadElems(Elements(j), elem);
      if r.Err? then Err(r.error) else Ok(Vector(r.value))
    case StructType(fields) =>
      var r := ReadFields(j, fields, target.fields);
      if r.Err? then Err(r.error) else Ok(Struct(r.value))
  }

  function ReadElems(js: seq<Json>, elem: Type): (r: Result<seq<Value>>)
    requires WellFormed(elem)
    ensures r.Ok? ==> |r.value| == |js| && forall i :: 0 <= i < |r.value| ==> HasType(r.value[i], elem)
    decreases elem, |js| + 1
  {
    if js == [] then Ok([])
    else
      var front := ReadElems(js[..|js| - 1], elem);
      if front.Err? then front
      else
        var last := Read(js[|js| - 1], elem, Fresh(elem));
        if last.Err? then Err(last.error) else Ok(front.value + [last.value])
  }

  function ReadField(j: Json, f: FieldDecl, target: Field): (r: Result<Field>)
    requires WellFormed(f.ty) && (target.value.Some? ==> HasType(target.value.value, f.ty))
    ensures r.Ok? && r.value.value.Some? ==> HasType(r.value.value.value, f.ty)
    decreases f, 0
  {
    var it := Lookup(j, f.name);
    if it.None? then if target.required then Err(NotSet(f.name)) else Ok(target)
    else
      var r := Read(it.value, f.ty, Materialized(target, f.ty));
      if r.Err? then Err(r.error) else Ok(target.(value := Some(r.value)))
  }

  function ReadFields(j: Json, fields: seq<FieldDecl>, targets: seq<Field>): (r: Result<seq<Field>>)
    requires FieldsWellFormed(fields) && FieldsTyped(targets, fields)
    ensures r.Ok? ==> FieldsTyped(r.value, fields)
    decreases fields, 0
  {
    if fields == [] then Ok([])
    else
      var first := ReadField(j, fields[0], targets[0]);
      if first.Err? then Err(first.error)
      else
        var rest := ReadFields(j, fields[1..], targets[1..]);
        if rest.Err? then rest else Ok([first.value] + rest.value)
  }

  // ---------------------------------------------------------------- what can be written

  /** Every field that is required holds a value, at every level that is written. */
  predicate Writable(v: Value, ty: Type)
    requires HasType(v, ty)
    decreases ty
  {
    match ty
    case VectorType(elem) => forall i :: 0 <= i < |v.elems| ==> Writable(v.elems[i], elem)
    case StructType(fields) => FieldsWritable(v.fields, fields)
    case _ => true
  }

  predicate FieldsWritable(vs: seq<Field>, fields: seq<FieldDecl>)
    requires FieldsTyped(vs, fields)
    decreases fields
  {
    fields != [] ==>
      && (Emitted(vs[0]) ==> Writable(vs[0].value.value, fields[0].ty))
      && (vs[0].required && !vs[0].defaultSet ==> vs[0].value.Some?)
      && FieldsWritable(vs[1..], fields[1..])
  }

  /** The writer fails exactly for a required field without a value. */
  lemma {:induction false} WritesIffWritable(v: Value, ty: Type)
    requires HasType(v, ty)
    ensures Write(v, ty).Ok? <==> Writable(v, ty)
    ensures Write(v, ty).Err? ==> Write(v, ty).error.NotSet?
    decreases ty, 0
  {
    match ty {
      case VectorType(elem) => ElemsWriteIff(v.elems, elem);
      case StructType(fields) => FieldsWriteIff(v.fields, fields);
      case _ =>
    }
  }

  lemma {:induction false} ElemsWriteIff(vs: seq<Value>, elem: Type)
    requires forall i :: 0 <= i < |vs| ==> HasType(vs[i], elem)
    ensures WriteElems(vs, elem).Ok? <==> forall i :: 0 <= i < |vs| ==> Writable(vs[i], elem)
    ensures WriteElems(vs, elem).Err? ==> WriteElems(vs, elem).error.NotSet?
    decreases elem, |vs| + 1
  {
    if vs != [] {
      var n := |vs| - 1;
      ElemsWriteIff(vs[..n], elem);
      WritesIffWritable(vs[n], elem);
      assert forall i :: 0 <= i < n ==> vs[..n][i] == vs[i];
    }
  }

  lemma {:induction false} FieldsWriteIff(vs: seq<Field>, fields: seq<FieldDecl>)
    requires FieldsTyped(vs, fields)
    ensures WriteFields(vs, fields).Ok? <==> FieldsWritable(vs, fields)
    ensures WriteFields(vs, fields).Err? ==> WriteFields(vs, fields).error.NotSet?
    decreases fields, 0
  {
    if fields != [] {
      FieldsWriteIff(vs[1..], fields[1..]);
      if Emitted(vs[0]) {
        WritesIffWritable(vs[0].value.value, fields[0].ty);
      }
    }
  }

  // ---------------------------------------------------------------- round trip

  /** Equal up to the flags of the fields. */
  predicate Same(a: Value, b: Value)
    decreases a
  {
    match a
    case Vector(elems) =>
      b.Vector? && |elems| == |b.elems| && forall i :: 0 <= i < |elems| ==> Same(elems[i], b.elems[i])
    case Struct(fields) =>
      b.Struct? && |fields| == |b.fields| && forall i :: 0 <= i < |fields| ==> SameField(fields[i], b.fields[i])
    case _ => a == b
  }

  predicate SameField(a: Field, b: Field)
    decreases a
  {
    if a.value.None? then b.value.None? else b.value.Some? && Same(a.value.value, b.value.value)
  }

  /** Every field the writer leaves out is one the reader's target already holds. */
  predicate Recoverable(v: Value, ty: Type, target: Value)
    requires WellFormed(ty) && HasType(v, ty) && HasType(target, ty)
    decreases ty
  {
    match ty
    case VectorType(elem) => forall i :: 0 <= i < |v.elems| ==> Recoverable(v.elems[i], elem, Fresh(elem))
    case StructType(fields) => FieldsRecoverable(v.fields, fields, target.fields)
    case _ => true
  }

  predicate FieldRecoverable(v: Field, f: FieldDecl, target: Field)
    requires WellFormed(f.ty) && (target.value.Some? ==> HasType(target.value.value, f.ty))
    requires v.value.Some? ==> HasType(v.value.value, f.ty)
    decreases f
  {
    if Emitted(v) then Recoverable(v.value.value, f.ty, Materialized(target, f.ty))
    else !target.required && SameField(target, v)
  }

  predicate FieldsRecoverable(vs: seq<Field>, fields: seq<FieldDecl>, targets: seq<Field>)
    requires FieldsWellFormed(fields) && FieldsTyped(vs, fields) && FieldsTyped(targets, fields)
    decreases fields
  {
    fields != [] ==>
      FieldRecoverable(vs[0], fields[0], targets[0]) && FieldsRecoverable(vs[1..], fields[1..], targets[1..])
  }

  predicate Restored(r: Result<Value>, v: Value) {
    r.Ok? && Same(r.value, v)
  }

  /** What the dictionary says about one field after writing. */
  ghost predicate Written(j: Json, f: FieldDecl, v: Field)
    requires v.value.Some? ==> HasType(v.value.value, f.ty)
  {
    Lookup(j, f.name) ==
      if v.value.Some? && !v.defaultSet && Write(v.value.value, f.ty).Ok? then Some(Write(v.value.value, f.ty).value)
      else None
  }

  lemma {:induction false} WellFormedAt(fields: seq<FieldDecl>, i: nat)
    requires FieldsWellFormed(fields) && i < |fields|
    ensures WellFormed(fields[i].ty)
    decreases i
  {
    if i > 0 {
      WellFormedAt(fields[1..], i - 1);
    }
  }

  lemma {:induction false} FieldsTypedAt(vs: seq<Field>, fields: seq<FieldDecl>, i: nat)
    requires FieldsTyped(vs, fields) && i < |fields|
    ensures |vs| == |fields| && (vs[i].value.Some? ==> HasType(vs[i].value.value, fields[i].ty))
    decreases i
  {
    FieldsTypedLength(vs, fields);
    if i > 0 {
      FieldsTypedAt(vs[1..], fields[1..], i - 1);
    }
  }

  lemma {:induction false} FieldsTypedLength(vs: seq<Field>, fields: seq<FieldDecl>)
    requires FieldsTyped(vs, fields)
    ensures |vs| == |fields|
    decreases |fields|
  {
    if fields != [] {
      FieldsTypedLength(vs[1..], fields[1..]);
    }
  }

  lemma {:induction false} WrittenNames(vs: seq<Field>, fields: seq<FieldDecl>, name: string)
    requires FieldsTyped(vs, fields) && WriteFields(vs, fields).Ok?
    requires forall i :: 0 <= i < |fields| ==> fields[i].name != name
    ensures LookupMember(WriteFields(vs, fields).value, name) == None
    decreases |fields|
  {
    if fields != [] {
      WrittenNames(vs[1..], fields[1..], name);
    }
  }

  /** Every field is found under its name exactly if it was emitted. */
  lemma {:induction false} WriteFieldsWrites(vs: seq<Field>, fields: seq<FieldDecl>, i: nat)
    requires FieldsWellFormed(fields) && FieldsTyped(vs, fields) && WriteFields(vs, fields).Ok?
    requires i < |fields|
    ensures |vs| == |fields| && (vs[i].value.Some? ==> HasType(vs[i].value.value, fields[i].ty))
    ensures var ms := WriteFields(vs, fields).value;
      Written(if ms == [] then Null else Object(ms), fields[i], vs[i])
    ensures Emitted(vs[i]) ==> Write(vs[i].value.value, fields[i].ty).Ok?
    decreases i
  {
    FieldsTypedAt(vs, fields, i);
    var ms := WriteFields(vs, fields).value;
    if i == 0 {
      WrittenNames(vs[1..], fields[1..], fields[0].name);
    } else {
      WriteFieldsWrites(vs[1..], fields[1..], i - 1);
      assert fields[1..][i - 1] == fields[i] && vs[1..][i - 1] == vs[i];
      var rest := WriteFields(vs[1..], fields[1..]).value;
      assert Lookup(if rest == [] then Null else Object(rest), fields[i].name) == LookupMember(rest, fields[i].name);
      assert Emitted(vs[0]) ==> ms[1..] == rest;
    }
  }

  lemma {:induction false} WrittenLength(vs: seq<Value>, elem: Type)
    requires forall k :: 0 <= k < |vs| ==> HasType(vs[k], elem)
    requires WriteElems(vs, elem).Ok?
    ensures |WriteElems(vs, elem).value| == |vs|
    decreases |vs|
  {
    if vs != [] {
      WrittenLength(vs[..|vs| - 1], elem);
    }
  }

  lemma {:induction false} WrittenElemAt(vs: seq<Value>, elem: Type, i: nat)
    requires forall k :: 0 <= k < |vs| ==> HasType(vs[k], elem)
    requires i < |vs| && WriteElems(vs, elem).Ok?
    ensures |WriteElems(vs, elem).value| == |vs|
    ensures Write(vs[i], elem) == Ok(WriteElems(vs, elem).value[i])
    decreases |vs|
  {
    var n := |vs| - 1;
    if n > 0 {
      WrittenElemAt(vs[..n], elem, if i < n then i else 0);
    }
  }

  ghost predicate AllWritten(j: Json, fields: seq<FieldDecl>, vs: seq<Field>) {
    && |vs| == |fields|
    && forall i :: 0 <= i < |fields| ==>
         && (vs[i].value.Some? ==> HasType(vs[i].value.value, fields[i].ty))
         && Written(j, fields[i], vs[i])
         && (Emitted(vs[i]) ==> Write(vs[i].value.value, fields[i].ty).Ok?)
  }

  ghost predicate SameFields(xs: seq<Field>, ys: seq<Field>) {
    |xs| == |ys| && forall i :: 0 <= i < |xs| ==> SameField(xs[i], ys[i])
  }

  lemma SameFieldsCons(a: Field, xs: seq<Field>, ys: seq<Field>)
    requires ys != []
    ensures SameFields([a] + xs, ys) <==> SameField(a, ys[0]) && SameFields(xs, ys[1..])
  {
    if SameFields([a] + xs, ys) {
      assert SameField(([a] + xs)[0], ys[0]);
      forall i | 0 <= i < |xs| ensures SameField(xs[i], ys[1..][i]) {
        assert SameField(([a] + xs)[i + 1], ys[i + 1]);
      }
    }
    if SameField(a, ys[0]) && SameFields(xs, ys[1..]) {
      forall i | 0 <= i < |ys| ensures SameField(([a] + xs)[i], ys[i]) {
        if i > 0 {
          assert SameField(xs[i - 1], ys[1..][i - 1]);
        }
      }
    }
  }

  /** The main result: reading back what was written into `target` restores all values if
      and only if the target already holds what the writer leaves out. */
  lemma {:induction false} RoundTripIff(v: Value, ty: Type, target: Value)
    requires WellFormed(ty) && HasType(v, ty) && HasType(target, ty) && Write(v, ty).Ok?
    ensures Restored(Read(Write(v, ty).value, ty, target), v) <==> Recoverable(v, ty, target)
    decreases ty, 0
  {
    match ty {
      case VectorType(elem) => ElemsRoundTrip(v.elems, elem);
      case StructType(fields) =>
        var j := Write(v, ty).value;
        forall i | 0 <= i < |fields|
          ensures |v.fields| == |fields|
          ensures v.fields[i].value.Some? ==> HasType(v.fields[i].value.value, fields[i].ty)
          ensures Written(j, fields[i], v.fields[i])
          ensures Emitted(v.fields[i]) ==> Write(v.fields[i].value.value, fields[i].ty).Ok?
        {
          WriteFieldsWrites(v.fields, fields, i);
        }
        FieldsTypedLength(v.fields, fields);
        FieldsRoundTrip(j, v.fields, fields, target.fields);
      case _ =>
    }
  }

  ghost predicate SameElems(xs: seq<Value>, ys: seq<Value>) {
    |xs| == |ys| && forall i :: 0 <= i < |xs| ==> Same(xs[i], ys[i])
  }

  ghost predicate ElemsRecoverable(vs: seq<Value>, elem: Type)
    requires WellFormed(elem) && forall i :: 0 <= i < |vs| ==> HasType(vs[i], elem)
  {
    forall i :: 0 <= i < |vs| ==> Recoverable(vs[i], elem, Fresh(elem))
  }

  lemma SameElemsSnoc(xs: seq<Value>, x: Value, ys: seq<Value>)
    requires ys != []
    ensures SameElems(xs + [x], ys) <==> SameElems(xs, ys[..|ys| - 1]) && Same(x, ys[|ys| - 1])
  {
    var n := |ys| - 1;
    if SameElems(xs + [x], ys) {
      assert Same((xs + [x])[n], ys[n]);
      forall i | 0 <= i < |xs| ensures Same(xs[i], ys[..n][i]) {
        assert Same((xs + [x])[i], ys[i]);
      }
    }
    if SameElems(xs, ys[..n]) && Same(x, ys[n]) {
      forall i | 0 <= i < |ys| ensures Same((xs + [x])[i], ys[i]) {
        if i < n {
          assert Same(xs[i], ys[..n][i]);
        }
      }
    }
  }

  lemma ElemsRecoverableSnoc(vs: seq<Value>, elem: Type)
    requires WellFormed(elem) && vs != [] && forall i :: 0 <= i < |vs| ==> HasType(vs[i], elem)
    ensures ElemsRecoverable(vs, elem) <==>
            ElemsRecoverable(vs[..|vs| - 1], elem) && Recoverable(vs[|vs| - 1], elem, Fresh(elem))
  {
    var n := |vs| - 1;
    if ElemsRecoverable(vs[..n], elem) && Recoverable(vs[n], elem, Fresh(elem)) {
      forall i | 0 <= i < |vs| ensures Recoverable(vs[i], elem, Fresh(elem)) {
        if i < n {
          assert vs[..n][i] == vs[i];
        }
      }
    }
  }

  lemma {:induction false} ElemsRoundTrip(vs: seq<Value>, elem: Type)
    requires WellFormed(elem)
    requires forall i :: 0 <= i < |vs| ==> HasType(vs[i], elem)
    requires WriteElems(vs, elem).Ok?
    ensures var r := ReadElems(WriteElems(vs, elem).value, elem);
      (r.Ok? && SameElems(r.value, vs)) <==> ElemsRecoverable(vs, elem)
    decreases elem, |vs| + 1
  {
    if vs != [] {
      var n := |vs| - 1;
      var js := WriteElems(vs, elem).value;
      ElemsRoundTrip(vs[..n], elem);
      RoundTripIff(vs[n], elem, Fresh(elem));
      ElemsRecoverableSnoc(vs, elem);
      assert js[..|js| - 1] == WriteElems(vs[..n], elem).value;
      var front, last := ReadElems(js[..|js| - 1], elem), Read(js[|js| - 1], elem, Fresh(elem));
      if front.Ok? && last.Ok? {
        SameElemsSnoc(front.value, last.value, vs);
      }
    }
  }

  lemma {:induction false} FieldRoundTrip(j: Json, v: Field, f: FieldDecl, target: Field)
    requires WellFormed(f.ty) && (target.value.Some? ==> HasType(target.value.value, f.ty))
    requires v.value.Some? ==> HasType(v.value.value, f.ty)
    requires Written(j, f, v) && (Emitted(v) ==> Write(v.value.value, f.ty).Ok?)
    ensures var r := ReadField(j, f, target);
      (r.Ok? && SameField(r.value, v)) <==> FieldRecoverable(v, f, target)
    decreases f, 0
  {
    if Emitted(v) {
      RoundTripIff(v.value.value, f.ty, Materialized(target, f.ty));
    }
  }

  lemma {:induction false} FieldsRoundTrip(j: Json, vs: seq<Field>, fields: seq<FieldDecl>, targets: seq<Field>)
    requires FieldsWellFormed(fields) && FieldsTyped(vs, fields) && FieldsTyped(targets, fields)
    requires AllWritten(j, fields, vs)
    ensures var r := ReadFields(j, fields, targets);
      (r.Ok? && SameFields(r.value, vs)) <==> FieldsRecoverable(vs, fields, targets)
    decreases fields, 0
  {
    if fields != [] {
      assert Written(j, fields[0], vs[0]);
      FieldRoundTrip(j, vs[0], fields[0], targets[0]);
      forall i | 0 <= i < |fields[1..]|
        ensures vs[1..][i].value.Some? ==> HasType(vs[1..][i].value.value, fields[1..][i].ty)
        ensures Written(j, fields[1..][i], vs[1..][i])
        ensures Emitted(vs[1..][i]) ==> Write(vs[1..][i].value.value, fields[1..][i].ty).Ok?
      {
        assert Written(j, fields[i + 1], vs[i + 1]);
      }
      FieldsRoundTrip(j, vs[1..], fields[1..], targets[1..]);
      var first, rest := ReadField(j, fields[0], targets[0]), ReadFields(j, fields[1..], targets[1..]);
      if first.Ok? && rest.Ok? {
        SameFieldsCons(first.value, rest.value, vs);
      }
    }
  }

  // ---------------------------------------------------------------- the usual case

  /** Required fields are set, fields marked as default hold the declared default, and
      fields with a default or another initial value have not been emptied. */
  predicate Regular(v: Value, ty: Type)
    requires HasType(v, ty)
    decreases ty
  {
    match ty
    case VectorType(elem) => forall i :: 0 <= i < |v.elems| ==> Regular(v.elems[i], elem)
    case StructType(fields) => FieldsRegular(v.fields, fields)
    case _ => true
  }

  predicate FieldsRegular(vs: seq<Field>, fields: seq<FieldDecl>)
    requires FieldsTyped(vs, fields)
    decreases fields
  {
    fields != [] ==>
      && (match fields[0].init
          case Required => Emitted(vs[0])
          case Optional => !vs[0].required && !vs[0].defaultSet
          case Default(d) => vs[0].value.Some? && (vs[0].defaultSet ==> Same(d, vs[0].value.value))
          case Preset(_) => Emitted(vs[0]))
      && (Emitted(vs[0]) ==> Regular(vs[0].value.value, fields[0].ty))
      && FieldsRegular(vs[1..], fields[1..])
  }

  /** Nested structs default to a default-constructed value. */
  predicate PlainDefaults(ty: Type)
    requires WellFormed(ty)
  {
    match ty
    case VectorType(elem) => PlainDefaults(elem)
    case StructType(fields) => FieldsPlain(fields)
    case _ => true
  }

  predicate FieldsPlain(fields: seq<FieldDecl>)
    requires FieldsWellFormed(fields)
  {
    fields != [] ==>
      && PlainDefaults(fields[0].ty)
      && ((fields[0].init.Default? || fields[0].init.Preset?) && fields[0].ty.StructType? ==>
            fields[0].init.value == Fresh(fields[0].ty))
      && FieldsPlain(fields[1..])
  }

  lemma {:induction false} RegularIsRecoverable(v: Value, ty: Type)
    requires WellFormed(ty) && PlainDefaults(ty) && HasType(v, ty) && Regular(v, ty)
    ensures Recoverable(v, ty, Fresh(ty)) && Write(v, ty).Ok?
    decreases ty, 0
  {
    match ty {
      case VectorType(elem) =>
        forall i | 0 <= i < |v.elems| ensures Recoverable(v.elems[i], elem, Fresh(elem)) {
          RegularIsRecoverable(v.elems[i], elem);
        }
        RegularElemsWrite(v.elems, elem);
      case StructType(fields) => RegularFields(v.fields, fields);
      case _ =>
    }
  }

  lemma {:induction false} RegularElemsWrite(vs: seq<Value>, elem: Type)
    requires WellFormed(elem) && PlainDefaults(elem)
    requires forall i :: 0 <= i < |vs| ==> HasType(vs[i], elem) && Regular(vs[i], elem)
    ensures WriteElems(vs, elem).Ok?
    decreases elem, |vs| + 1
  {
    if vs != [] {
      RegularElemsWrite(vs[..|vs| - 1], elem);
      RegularIsRecoverable(vs[|vs| - 1], elem);
    }
  }

  lemma {:induction false} RegularFields(vs: seq<Field>, fields: seq<FieldDecl>)
    requires FieldsWellFormed(fields) && FieldsPlain(fields)
    requires FieldsTyped(vs, fields) && FieldsRegular(vs, fields)
    ensures FieldsRecoverable(vs, fields, FreshFields(fields)) && WriteFields(vs, fields).Ok?
    decreases fields, 0
  {
    if fields != [] {
      RegularFields(vs[1..], fields[1..]);
      assert FreshFields(fields)[1..] == FreshFields(fields[1..]);
      if Emitted(vs[0]) {
        RegularIsRecoverable(vs[0].value.value, fields[0].ty);
      }
    }
  }

  /** The usual round trip: a regular value of a type with plain defaults can be written,
      and reading it into a new value restores every field. */
  lemma RegularRoundTrip(v: Value, ty: Type)
    requires WellFormed(ty) && PlainDefaults(ty) && HasType(v, ty) && Regular(v, ty)
    ensures Write(v, ty).Ok? && Restored(Read(Write(v, ty).value, ty, Fresh(ty)), v)
  {
    RegularIsRecoverable(v, ty);
    RoundTripIff(v, ty, Fresh(ty));
  }

  /** Without plain defaults a regular value may come back different: here an optional
      nickname that was left empty comes back as the one of the declared default. */
  lemma DefaultStructLeaksIntoResult() returns (ty: Type, v: Value)
    ensures
      && WellFormed(ty) && !PlainDefaults(ty) && HasType(v, ty) && Regular(v, ty) && Write(v, ty).Ok?
      && !Restored(Read(Write(v, ty).value, ty, Fresh(ty)), v)
  {
    var person := StructType([FieldDecl("nick", StringType, Optional)]);
    var named := Struct([Field(Some(String("Al")), false, false)]);
    var nameless := Struct([Field(None, false, false)]);
    var decl := FieldDecl("ceo", person, Default(named));
    ty := StructType([decl]);
    v := Struct([Field(Some(nameless), false, false)]);
    assert WellFormed(person) && HasType(named, person) && HasType(nameless, person);
    assert WellFormed(ty) && HasType(v, ty);
    assert Regular(nameless, person) && Regular(v, ty);
    assert Write(nameless, person) == Ok(Null);
    assert [decl][1..] == [] && v.fields[1..] == [];
    assert WriteFields(v.fields[1..], [decl][1..]) == Ok([]);
    assert Emitted(v.fields[0]) && [Member("ceo", Null)] + [] == [Member("ceo", Null)];
    assert WriteFields(v.fields, [decl]) == Ok([Member("ceo", Null)]);
    assert Write(v, ty) == Ok(Object([Member("ceo", Null)]));
    assert !Recoverable(nameless, person, named);
    assert !FieldRecoverable(v.fields[0], decl, FreshField(decl));
    assert !Recoverable(v, ty, Fresh(ty));
    assert Fresh(person) == Struct([Field(None, false, false)]);
    RoundTripIff(v, ty, Fresh(ty));
  }
}
