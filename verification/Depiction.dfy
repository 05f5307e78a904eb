/**
 What a dictionary says of a value, by comparing the two and not by writing or reading, and
 what is wrong with a dictionary that is read, whether or not the reader gets that far.
 */
module Depiction {
  import opened Basics
  import opened Serialization

  // ---------------------------------------------------------------- values

  /** Wherever the dictionary has something, it is what the value has there. */
  predicate Depicts(j: Json, v: Value, ty: Type)
    requires HasType(v, ty)
    decreases ty
  {
    match ty
    case IntType => if j.Boolean? then v.i == if j.b then 1 else 0 else j.Number? && v.i == j.n
    case BoolType => j.Boolean? && v.b == j.b
    case StringType => j.Text? && v.s == j.s
    case BlobType => j.Binary? && v.bytes == j.bytes
    case VectorType(elem) =>
      |v.elems| == |Elements(j)| && forall i :: 0 <= i < |v.elems| ==> Depicts(Elements(j)[i], v.elems[i], elem)
    case StructType(fields) => FieldsDepicted(j, v.fields, fields)
  }

  predicate FieldsDepicted(j: Json, vs: seq<Field>, fields: seq<FieldDecl>)
    requires FieldsTyped(vs, fields)
    decreases fields
  {
    fields != [] ==> FieldDepicted(j, vs[0], fields[0]) && FieldsDepicted(j, vs[1..], fields[1..])
  }

  predicate FieldDepicted(j: Json, v: Field, f: FieldDecl)
    requires v.value.Some? ==> HasType(v.value.value, f.ty)
    decreases f
  {
    Lookup(j, f.name).Some? ==> v.value.Some? && Depicts(Lookup(j, f.name).value, v.value.value, f.ty)
  }

  /** What is written depicts the value. */
  lemma {:induction false} WrittenDepicts(v: Value, ty: Type)
    requires WellFormed(ty) && HasType(v, ty) && Write(v, ty).Ok?
    ensures Depicts(Write(v, ty).value, v, ty)
    decreases ty, 0
  {
    match ty {
      case VectorType(elem) =>
        WrittenLength(v.elems, elem);
        forall i | 0 <= i < |v.elems| ensures Depicts(WriteElems(v.elems, elem).value[i], v.elems[i], elem) {
          WrittenElemAt(v.elems, elem, i);
          WrittenDepicts(v.elems[i], elem);
        }
      case StructType(fields) =>
        var j := Write(v, ty).value;
        forall i | 0 <= i < |fields|
          ensures |v.fields| == |fields|
          ensures v.fields[i].value.Some? ==> HasType(v.fields[i].value.value, fields[i].ty)
          ensures Written(j, fields[i], v.fields[i])
          ensures Emitted(v.fields[i]) ==> Write(v.fields[i].value.value, fields[i].ty).Ok?
        {
          WriteFieldsWrites(v.fields, fields, i);
        }
        FieldsTypedLength(v.fields, fields);
        WrittenFieldsDepict(j, v.fields, fields);
      case _ =>
    }
  }

  lemma {:induction false} WrittenFieldsDepict(j: Json, vs: seq<Field>, fields: seq<FieldDecl>)
    requires FieldsWellFormed(fields) && FieldsTyped(vs, fields) && AllWritten(j, fields, vs)
    ensures FieldsDepicted(j, vs, fields)
    decreases fields, 0
  {
    if fields != [] {
      assert Written(j, fields[0], vs[0]);
      if Emitted(vs[0]) {
        WrittenDepicts(vs[0].value.value, fields[0].ty);
      }
      forall i | 0 <= i < |fields[1..]|
        ensures vs[1..][i].value.Some? ==> HasType(vs[1..][i].value.value, fields[1..][i].ty)
        ensures Written(j, fields[1..][i], vs[1..][i])
        ensures Emitted(vs[1..][i]) ==> Write(vs[1..][i].value.value, fields[1..][i].ty).Ok?
      {
        assert Written(j, fields[i + 1], vs[i + 1]);
      }
      WrittenFieldsDepict(j, vs[1..], fields[1..]);
    }
  }

  /** What is not in the dictionary stays as it was, down the structs that are. */
  predicate KeepsTheRest(j: Json, ty: Type, target: Value, v: Value)
    requires WellFormed(ty) && HasType(target, ty) && HasType(v, ty)
    decreases ty
  {
    ty.StructType? ==> FieldsKeepTheRest(j, ty.fields, target.fields, v.fields)
  }

  predicate FieldsKeepTheRest(j: Json, fields: seq<FieldDecl>, targets: seq<Field>, vs: seq<Field>)
    requires FieldsWellFormed(fields) && FieldsTyped(targets, fields) && FieldsTyped(vs, fields)
    decreases fields
  {
    fields != [] ==>
      && FieldKeepsTheRest(j, fields[0], targets[0], vs[0])
      && FieldsKeepTheRest(j, fields[1..], targets[1..], vs[1..])
  }

  predicate FieldKeepsTheRest(j: Json, f: FieldDecl, target: Field, v: Field)
    requires WellFormed(f.ty) && (target.value.Some? ==> HasType(target.value.value, f.ty))
    requires v.value.Some? ==> HasType(v.value.value, f.ty)
    decreases f
  {
    && v.required == target.required && v.defaultSet == target.defaultSet
    && if Lookup(j, f.name).None? then v == target
       else v.value.Some? && KeepsTheRest(Lookup(j, f.name).value, f.ty, Materialized(target, f.ty), v.value.value)
  }

  // ---------------------------------------------------------------- errors

  /** Everything that is wrong with a dictionary, in the order in which it is visited: values
      of another kind than asked for, and names missing that the target requires. */
  function Problems(j: Json, ty: Type, target: Value): seq<Error>
    requires WellFormed(ty) && HasType(target, ty)
    decreases ty, 0
  {
    match ty
    case IntType => if j.Number? || j.Boolean? then [] else [WrongType]
    case BoolType => if j.Boolean? then [] else [WrongType]
    case StringType => if j.Text? then [] else [WrongType]
    case BlobType => if j.Binary? then [] else [WrongType]
    case VectorType(elem) => ElemProblems(Elements(j), elem)
    case StructType(fields) => FieldProblems(j, fields, target.fields)
  }

  function ElemProblems(js: seq<Json>, elem: Type): seq<Error>
    requires WellFormed(elem)
    decreases elem, |js| + 1
  {
    if js == [] then []
    else ElemProblems(js[..|js| - 1], elem) + Problems(js[|js| - 1], elem, Fresh(elem))
  }

  function FieldProblems(j: Json, fields: seq<FieldDecl>, targets: seq<Field>): seq<Error>
    requires FieldsWellFormed(fields) && FieldsTyped(targets, fields)
    decreases fields, 0
  {
    if fields == [] then []
    else ProblemsOf(j, fields[0], targets[0]) + FieldProblems(j, fields[1..], targets[1..])
  }

  function ProblemsOf(j: Json, f: FieldDecl, target: Field): seq<Error>
    requires WellFormed(f.ty) && (target.value.Some? ==> HasType(target.value.value, f.ty))
    decreases f, 0
  {
    var it := Lookup(j, f.name);
    if it.None? then if target.required then [NotSet(f.name)] else []
    else Problems(it.value, f.ty, Materialized(target, f.ty))
  }

  /** Reading fails exactly if there is a problem, with the first one. */
  predicate EndsAtFirst<T>(r: Result<T>, problems: seq<Error>) {
    if problems == [] then r.Ok? else r == Err(problems[0])
  }

  lemma {:induction false} ReadIsExact(j: Json, ty: Type, target: Value)
    requires WellFormed(ty) && HasType(target, ty)
    ensures EndsAtFirst(Read(j, ty, target), Problems(j, ty, target))
    ensures Read(j, ty, target).Ok? ==>
      Depicts(j, Read(j, ty, target).value, ty) && KeepsTheRest(j, ty, target, Read(j, ty, target).value)
    decreases ty, 0
  {
    match ty {
      case VectorType(elem) => ElemsReadExactly(Elements(j), elem);
      case StructType(fields) => FieldsReadExactly(j, fields, target.fields);
      case _ =>
    }
  }

  lemma {:induction false} ElemsReadExactly(js: seq<Json>, elem: Type)
    requires WellFormed(elem)
    ensures EndsAtFirst(ReadElems(js, elem), ElemProblems(js, elem))
    ensures ReadElems(js, elem).Ok? ==>
      forall i :: 0 <= i < |js| ==> Depicts(js[i], ReadElems(js, elem).value[i], elem)
    decreases elem, |js| + 1
  {
    if js != [] {
      var n := |js| - 1;
      ElemsReadExactly(js[..n], elem);
      ReadIsExact(js[n], elem, Fresh(elem));
      if ReadElems(js, elem).Ok? {
        forall i | 0 <= i < |js| ensures Depicts(js[i], ReadElems(js, elem).value[i], elem) {
          if i < n {
            assert js[..n][i] == js[i];
          }
        }
      }
    }
  }

  lemma {:induction false} FieldsReadExactly(j: Json, fields: seq<FieldDecl>, targets: seq<Field>)
    requires FieldsWellFormed(fields) && FieldsTyped(targets, fields)
    ensures var r := ReadFields(j, fields, targets);
      && EndsAtFirst(r, FieldProblems(j, fields, targets))
      && (r.Ok? ==> FieldsDepicted(j, r.value, fields) && FieldsKeepTheRest(j, fields, targets, r.value))
    decreases fields, 0
  {
    if fields != [] {
      FieldReadsExactly(j, fields[0], targets[0]);
      FieldsReadExactly(j, fields[1..], targets[1..]);
      var r := ReadFields(j, fields, targets);
      if r.Ok? {
        assert r.value[1..] == ReadFields(j, fields[1..], targets[1..]).value;
      }
    }
  }

  lemma {:induction false} FieldReadsExactly(j: Json, f: FieldDecl, target: Field)
    requires WellFormed(f.ty) && (target.value.Some? ==> HasType(target.value.value, f.ty))
    ensures var r := ReadField(j, f, target);
      && EndsAtFirst(r, ProblemsOf(j, f, target))
      && (r.Ok? ==> FieldDepicted(j, r.value, f) && FieldKeepsTheRest(j, f, target, r.value))
    decreases f, 0
  {
    if Lookup(j, f.name).Some? {
      ReadIsExact(Lookup(j, f.name).value, f.ty, Materialized(target, f.ty));
    }
  }
}
