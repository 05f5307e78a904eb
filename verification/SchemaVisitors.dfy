/**
 The visitors as they run: a field object whose value and flags change in place, a writer
 that fills a dictionary member by member, a reader that fills field objects one after the
 other, and a schema generator that collects properties and required names.

 Each is proved against the function that says what it computes.
 */
module SchemaVisitors {
  import opened Basics
  import opened SchemaGenerator
  import opened Serialization

  // ---------------------------------------------------------------- fields

  class FieldObject {
    var value: Option<Value>
    var required: bool
    var defaultSet: bool

    function View(): Field
      reads this
    {
      Field(value, required, defaultSet)
    }

    /** Declared without an initializer, with none, with a default, with a
        default-constructed default, or with a plain value. */
    constructor Declared(decl: FieldDecl)
      ensures View() == FreshField(decl)
    {
      value, required, defaultSet := None, false, false;
      new;
      match decl.init {
        case Required => required := true;
        case Optional =>
        case Default(v) => value, defaultSet := Some(v), true;
        case Preset(v) => value := Some(v);
      }
    }

    /** The field of a struct that already exists. */
    constructor Of(field: Field)
      ensures View() == field
    {
      value, required, defaultSet := field.value, field.required, field.defaultSet;
    }

    /** Assignment of a value: it is not the default any more. */
    method Assign(v: Value)
      modifies this
      ensures View() == Field(Some(v), old(required), false)
      ensures Emitted(View())
    {
      value := Some(v);
      defaultSet := false;
    }

    /** The flags stay as they are, also the one for a default. */
    method Materialize(ty: Type) returns (v: Value)
      requires WellFormed(ty)
      modifies this`value
      ensures v == Materialized(old(View()), ty) && value == Some(v)
    {
      if value.None? {
        value := Some(Fresh(ty));
      }
      v := value.value;
    }

    /** The reader visiting this field: absent names leave it as it is unless it is required. */
    method ReadFrom(j: Json, f: FieldDecl) returns (e: Option<Error>)
      requires WellFormed(f.ty) && (value.Some? ==> HasType(value.value, f.ty))
      modifies this`value
      ensures match ReadField(j, f, old(View()))
              case Ok(read) => e == None && View() == read
              case Err(error) => e == Some(error)
      decreases f, 0
    {
      var it := Lookup(j, f.name);
      if it.None? {
        return if required then Some(NotSet(f.name)) else None;
      }
      var target := Materialize(f.ty);
      var one := ReadFromDict(it.value, f.ty, target);
      if one.Err? {
        return Some(one.error);
      }
      value := Some(one.value);
      e := None;
    }
  }

  function Views(objs: seq<FieldObject>): (vs: seq<Field>)
    reads objs
    ensures |vs| == |objs| && forall i :: 0 <= i < |objs| ==> vs[i] == objs[i].View()
  {
    if objs == [] then [] else [objs[0].View()] + Views(objs[1..])
  }

  // ---------------------------------------------------------------- writing

  function Onto<T>(front: seq<T>, r: Result<seq<T>>): Result<seq<T>> {
    if r.Err? then r else Ok(front + r.value)
  }

  lemma OntoNothing<T>(front: seq<T>, r: Result<seq<T>>)
    ensures Onto([], r) == r && Onto(front, Ok([])) == Ok(front)
  {
    if r.Ok? {
      assert [] + r.value == r.value;
    }
    assert front + [] == front;
  }

  lemma OntoOneMore<T>(front: seq<T>, x: T, r: Result<seq<T>>)
    ensures Onto(front, Onto([x], r)) == Onto(front + [x], r)
  {
    if r.Ok? {
      assert front + ([x] + r.value) == front + [x] + r.value;
    }
  }

  lemma {:induction false} WritePrefixFails(vs: seq<Value>, elem: Type, k: nat)
    requires forall i :: 0 <= i < |vs| ==> HasType(vs[i], elem)
    requires k <= |vs| && WriteElems(vs[..k], elem).Err?
    ensures WriteElems(vs, elem) == WriteElems(vs[..k], elem)
    decreases |vs|
  {
    if k == |vs| {
      assert vs[..k] == vs;
    } else {
      assert vs[..|vs| - 1][..k] == vs[..k];
      WritePrefixFails(vs[..|vs| - 1], elem, k);
    }
  }

  method WriteToDict(v: Value, ty: Type) returns (r: Result<Json>)
    requires HasType(v, ty)
    ensures r == Write(v, ty)
    decreases ty, 0
  {
    match ty {
      case IntType => r := Ok(Number(v.i));
      case BoolType => r := Ok(Boolean(v.b));
      case StringType => r := Ok(Text(v.s));
      case BlobType => r := Ok(Binary(v.bytes));
      case VectorType(elem) =>
        var out := [];
        var i := 0;
        while i < |v.elems|
          invariant 0 <= i <= |v.elems| && WriteElems(v.elems[..i], elem) == Ok(out)
        {
          assert v.elems[..i + 1][..i] == v.elems[..i];
          var one := WriteToDict(v.elems[i], elem);
          if one.Err? {
            WritePrefixFails(v.elems, elem, i + 1);
            return Err(one.error);
          }
          out := out + [one.value];
          i := i + 1;
        }
        assert v.elems[..i] == v.elems;
        r := Ok(Array(out));
      case StructType(fields) =>
        var members := VisitToDict(v.fields, fields);
        if members.Err? {
          return Err(members.error);
        }
        r := Ok(if members.value == [] then Null else Object(members.value));
    }
  }

  method VisitToDict(vs: seq<Field>, fields: seq<FieldDecl>) returns (r: Result<seq<Member>>)
    requires FieldsTyped(vs, fields)
    ensures r == WriteFields(vs, fields)
    decreases fields, 0
  {
    FieldsTypedLength(vs, fields);
    assert vs[0..] == vs && fields[0..] == fields;
    OntoNothing([], WriteFields(vs, fields));
    var out := [];
    var i := 0;
    while i < |fields|
      invariant 0 <= i <= |fields| == |vs| && FieldsTyped(vs[i..], fields[i..])
      invariant WriteFields(vs, fields) == Onto(out, WriteFields(vs[i..], fields[i..]))
    {
      assert vs[i..][0] == vs[i] && fields[i..][0] == fields[i];
      assert vs[i..][1..] == vs[i + 1..] && fields[i..][1..] == fields[i + 1..];
      if vs[i].defaultSet {
      } else if vs[i].value.None? {
        if vs[i].required {
          return Err(NotSet(fields[i].name));
        }
      } else {
        var one := WriteToDict(vs[i].value.value, fields[i].ty);
        if one.Err? {
          return Err(one.error);
        }
        var member := Member(fields[i].name, one.value);
        OntoOneMore(out, member, WriteFields(vs[i + 1..], fields[i + 1..]));
        out := out + [member];
      }
      i := i + 1;
    }
    OntoNothing(out, Ok([]));
    r := Ok(out);
  }

  // ---------------------------------------------------------------- reading

  lemma {:induction false} ReadPrefixFails(js: seq<Json>, elem: Type, k: nat)
    requires WellFormed(elem) && k <= |js| && ReadElems(js[..k], elem).Err?
    ensures ReadElems(js, elem) == ReadElems(js[..k], elem)
    decreases |js|
  {
    if k == |js| {
      assert js[..k] == js;
    } else {
      assert js[..|js| - 1][..k] == js[..k];
      ReadPrefixFails(js[..|js| - 1], elem, k);
    }
  }

  method ReadFromDict(j: Json, ty: Type, target: Value) returns (r: Result<Value>)
    requires WellFormed(ty) && HasType(target, ty)
    ensures r == Read(j, ty, target)
    decreases ty, 0
  {
    match ty {
      case IntType =>
        r := if j.Number? then Ok(Int(j.n)) else if j.Boolean? then Ok(Int(if j.b then 1 else 0)) else Err(WrongType);
      case BoolType => r := if j.Boolean? then Ok(Bool(j.b)) else Err(WrongType);
      case StringType => r := if j.Text? then Ok(String(j.s)) else Err(WrongType);
      case BlobType => r := if j.Binary? then Ok(Blob(j.bytes)) else Err(WrongType);
      case VectorType(elem) =>
        var js := Elements(j);
        var out := [];
        var i := 0;
        while i < |js|
          invariant 0 <= i <= |js| && ReadElems(js[..i], elem) == Ok(out)
        {
          assert js[..i + 1][..i] == js[..i];
          var one := ReadFromDict(js[i], elem, Fresh(elem));
          if one.Err? {
            ReadPrefixFails(js, elem, i + 1);
            return Err(one.error);
          }
          out := out + [one.value];
          i := i + 1;
        }
        assert js[..i] == js;
        r := Ok(Vector(out));
      case StructType(fields) =>
        var out := VisitFields(j, fields, target.fields);
        r := if out.Err? then Err(out.error) else Ok(Struct(out.value));
    }
  }

  /** The fields up to `i` have been read, with the values `out`. */
  ghost predicate ReadSoFar(j: Json, fields: seq<FieldDecl>, targets: seq<Field>, i: nat, out: seq<Field>)
    requires FieldsWellFormed(fields) && FieldsTyped(targets, fields)
  {
    && i <= |fields| == |targets| && |out| == i
    && FieldsTyped(targets[i..], fields[i..]) && FieldsWellFormed(fields[i..])
    && ReadFields(j, fields, targets) == Onto(out, ReadFields(j, fields[i..], targets[i..]))
  }

  lemma ReadStart(j: Json, fields: seq<FieldDecl>, targets: seq<Field>)
    requires FieldsWellFormed(fields) && FieldsTyped(targets, fields)
    ensures ReadSoFar(j, fields, targets, 0, [])
  {
    FieldsTypedLength(targets, fields);
    assert targets[0..] == targets && fields[0..] == fields;
    OntoNothing([], ReadFields(j, fields, targets));
  }

  lemma ReadNext(j: Json, fields: seq<FieldDecl>, targets: seq<Field>, i: nat, out: seq<Field>)
    requires FieldsWellFormed(fields) && FieldsTyped(targets, fields) && ReadSoFar(j, fields, targets, i, out)
    requires i < |fields|
    ensures WellFormed(fields[i].ty)
    ensures targets[i].value.Some? ==> HasType(targets[i].value.value, fields[i].ty)
    ensures match ReadField(j, fields[i], targets[i])
            case Ok(read) => ReadSoFar(j, fields, targets, i + 1, out + [read])
            case Err(error) => ReadFields(j, fields, targets) == Err(error)
  {
    assert targets[i..][0] == targets[i] && fields[i..][0] == fields[i];
    assert targets[i..][1..] == targets[i + 1..] && fields[i..][1..] == fields[i + 1..];
    var one := ReadField(j, fields[i], targets[i]);
    if one.Ok? {
      OntoOneMore(out, one.value, ReadFields(j, fields[i + 1..], targets[i + 1..]));
    }
  }

  lemma ReadEnd(j: Json, fields: seq<FieldDecl>, targets: seq<Field>, out: seq<Field>)
    requires FieldsWellFormed(fields) && FieldsTyped(targets, fields)
    requires ReadSoFar(j, fields, targets, |fields|, out)
    ensures ReadFields(j, fields, targets) == Ok(out)
  {
    OntoNothing(out, Ok([]));
  }

  method VisitFields(j: Json, fields: seq<FieldDecl>, targets: seq<Field>) returns (r: Result<seq<Field>>)
    requires FieldsWellFormed(fields) && FieldsTyped(targets, fields)
    ensures r == ReadFields(j, fields, targets)
    decreases fields, 0
  {
    ReadStart(j, fields, targets);
    var out := [];
    var i := 0;
    while i < |fields|
      invariant 0 <= i <= |fields| && ReadSoFar(j, fields, targets, i, out)
    {
      ReadNext(j, fields, targets, i, out);
      var one := VisitField(j, fields[i], targets[i]);
      if one.Err? {
        return Err(one.error);
      }
      out := out + [one.value];
      i := i + 1;
    }
    ReadEnd(j, fields, targets, out);
    r := Ok(out);
  }

  method VisitField(j: Json, f: FieldDecl, target: Field) returns (r: Result<Field>)
    requires WellFormed(f.ty) && (target.value.Some? ==> HasType(target.value.value, f.ty))
    ensures r == ReadField(j, f, target)
    decreases f, 1
  {
    var field := new FieldObject.Of(target);
    var failed := field.ReadFrom(j, f);
    r := if failed.Some? then Err(failed.value) else Ok(field.View());
  }

  /** The reader visiting the field objects of a struct: each is filled in place, and the
      first missing or ill-typed one ends the visit with an error. */
  method VisitFromDict(j: Json, fields: seq<FieldDecl>, objs: seq<FieldObject>) returns (e: Option<Error>)
    requires FieldsWellFormed(fields) && FieldsTyped(Views(objs), fields)
    requires forall a, b :: 0 <= a < b < |objs| ==> objs[a] != objs[b]
    modifies objs
    ensures match ReadFields(j, fields, old(Views(objs)))
            case Ok(vs) => e == None && Views(objs) == vs
            case Err(error) => e == Some(error)
  {
    ghost var was := Views(objs);
    ReadStart(j, fields, was);
    ghost var out: seq<Field> := [];
    var i := 0;
    while i < |fields|
      invariant 0 <= i <= |fields| && ReadSoFar(j, fields, was, i, out)
      invariant forall k :: 0 <= k < i ==> objs[k].View() == out[k]
      invariant forall k :: i <= k < |objs| ==> objs[k].View() == was[k]
    {
      ReadNext(j, fields, was, i, out);
      ghost var read := ReadField(j, fields[i], was[i]);
      var failed := objs[i].ReadFrom(j, fields[i]);
      if failed.Some? {
        return failed;
      }
      out := out + [read.value];
      i := i + 1;
    }
    ReadEnd(j, fields, was, out);
    assert Views(objs) == out;
    e := None;
  }

  // ---------------------------------------------------------------- the schema

  method DescribeType(ty: Type) returns (r: Result<Schema>)
    requires WellFormed(ty)
    ensures r == Describe(ty)
    decreases ty, 0
  {
    match ty {
      case IntType => r := Ok(Leaf("integer"));
      case BoolType => r := Ok(Leaf("integer"));
      case StringType => r := Ok(Leaf("string"));
      case BlobType => r := Ok(Leaf("binary"));
      case VectorType(elem) =>
        var items := DescribeType(elem);
        r := if items.Err? then Err(items.error) else Ok(Items(items.value));
      case StructType(fields) =>
        var props, req := VisitSchema(fields);
        r := if props.Err? then Err(props.error) else Ok(Properties(props.value, req));
    }
  }

  /** The fields up to `i` of a new object have been described. */
  ghost predicate DescribedSoFar(fields: seq<FieldDecl>, i: nat, props: seq<Property>)
    requires FieldsWellFormed(fields)
  {
    && i <= |fields| && FieldsWellFormed(fields[i..])
    && DescribeFields(fields) == Onto(props, DescribeFields(fields[i..]))
  }

  ghost predicate RequiredSoFar(fields: seq<FieldDecl>, i: nat, req: seq<string>) {
    i <= |fields| && RequiredNames(fields) == req + RequiredNames(fields[i..])
  }

  lemma DescribeStart(fields: seq<FieldDecl>)
    requires FieldsWellFormed(fields)
    ensures DescribedSoFar(fields, 0, []) && RequiredSoFar(fields, 0, [])
  {
    assert fields[0..] == fields;
    OntoNothing([], DescribeFields(fields));
  }

  lemma DescribeNext(fields: seq<FieldDecl>, i: nat, props: seq<Property>)
    requires FieldsWellFormed(fields) && DescribedSoFar(fields, i, props) && i < |fields|
    ensures WellFormed(fields[i].ty) && (fields[i].init.Default? ==> HasType(fields[i].init.value, fields[i].ty))
    ensures match DescribeField(fields[i])
            case Ok(prop) => DescribedSoFar(fields, i + 1, props + [prop])
            case Err(error) => DescribeFields(fields) == Err(error)
  {
    assert fields[i..][0] == fields[i] && fields[i..][1..] == fields[i + 1..];
    var one := DescribeField(fields[i]);
    if one.Ok? {
      OntoOneMore(props, one.value, DescribeFields(fields[i + 1..]));
    }
  }

  lemma RequireNext(fields: seq<FieldDecl>, i: nat, req: seq<string>)
    requires RequiredSoFar(fields, i, req) && i < |fields|
    ensures var f := FreshField(fields[i]);
      RequiredSoFar(fields, i + 1, if !f.defaultSet && f.required then req + [fields[i].name] else req)
  {
    assert fields[i..][0] == fields[i] && fields[i..][1..] == fields[i + 1..];
    var rest := RequiredNames(fields[i + 1..]);
    assert req + ([fields[i].name] + rest) == req + [fields[i].name] + rest && [] + rest == rest;
  }

  /** Every field is looked at as it is in a new object, and its default is written. */
  method VisitSchema(fields: seq<FieldDecl>) returns (props: Result<seq<Property>>, req: seq<string>)
    requires FieldsWellFormed(fields)
    ensures props == DescribeFields(fields) && (props.Ok? ==> req == RequiredNames(fields))
    decreases fields, 0
  {
    DescribeStart(fields);
    var out := [];
    req := [];
    var i := 0;
    while i < |fields|
      invariant 0 <= i <= |fields| && DescribedSoFar(fields, i, out) && RequiredSoFar(fields, i, req)
    {
      DescribeNext(fields, i, out);
      RequireNext(fields, i, req);
      var field := new FieldObject.Declared(fields[i]);
      var schema := DescribeType(fields[i].ty);
      if schema.Err? {
        return Err(schema.error), req;
      }
      var default := None;
      if field.defaultSet {
        var written := WriteToDict(field.value.value, fields[i].ty);
        if written.Err? {
          return Err(written.error), req;
        }
        default := Some(written.value);
      } else if field.required {
        req := req + [fields[i].name];
      }
      out := out + [Property(fields[i].name, schema.value, default)];
      i := i + 1;
    }
    OntoNothing(out, Ok([]));
    props := Ok(out);
  }
}
