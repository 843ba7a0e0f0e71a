/**
 Records as the generator sees them through reflection: a named struct type
 whose top-level fields come in declaration order, each with a name, an
 export flag, the spelling of its Go type, its struct tag and a value.
 */
module Records {
  import opened Wrappers

  /**
   A field value. Equality of values is structural, which stands for the
   deep equality the generator compares fields with.
   */
  datatype Value =
    | Null
    | Bool(b: bool)
    | Int(i: int)
    | Str(s: string)
    | Composite(parts: seq<Value>)

  /**
   One top-level struct field: its name, whether it is exported (false for a
   lower-case, package-private field), whether it is embedded (declared by its
   type alone, as in `struct{ Id }`), the spelling of its declared Go type,
   its struct tag, and its value.
   */
  datatype Field = Field(name: string, exported: bool, embedded: bool, fieldType: string, tag: string, value: Value)

  /** A struct value: the name of its type and its top-level fields in declaration order. */
  datatype Record = Record(typeName: string, fields: seq<Field>)

  /**
   What the struct type says about one field, without its value: what Go's
   identity of unnamed struct types compares, except that an unexported name
   is not qualified by its package.
   */
  datatype FieldDesc = FieldDesc(name: string, exported: bool, embedded: bool, fieldType: string, tag: string)

  /** A struct type: its name and its field descriptors in declaration order. */
  datatype RecordType = RecordType(name: string, fields: seq<FieldDesc>)

  /** An argument of the generator: the nil interface, or a struct value. */
  datatype Input = Nil | Struct(record: Record)

  /** The primary key field every record must declare. */
  const KeyName: string := "Id"

  function Descriptor(f: Field): FieldDesc
  {
    FieldDesc(f.name, f.exported, f.embedded, f.fieldType, f.tag)
  }

  /**
   The dynamic type of a struct value: its type name and, in declaration
   order, each field's name, export flag, type and tag.
   */
  function TypeOf(r: Record): (t: RecordType)
    ensures t.name == r.typeName
    ensures |t.fields| == |r.fields|
    ensures forall i :: 0 <= i < |r.fields| ==> t.fields[i] == Descriptor(r.fields[i])
  {
    RecordType(r.typeName, seq(|r.fields|, i requires 0 <= i < |r.fields| => Descriptor(r.fields[i])))
  }

  /** The dynamic type of an argument; the nil interface has none. */
  function TypeOfInput(x: Input): Option<RecordType>
  {
    match x
    case Nil => None
    case Struct(r) => Some(TypeOf(r))
  }

  /**
   Two struct values have one dynamic type exactly when they carry the same
   type name and, position by position, the same field names, export flags,
   embedding, field types and tags.
   */
  lemma SameTypeExact(a: Record, b: Record)
    ensures TypeOf(a) == TypeOf(b) <==>
              && a.typeName == b.typeName
              && |a.fields| == |b.fields|
              && forall i :: 0 <= i < |a.fields| ==> Descriptor(a.fields[i]) == Descriptor(b.fields[i])
  {
    if a.typeName == b.typeName && |a.fields| == |b.fields|
       && forall i :: 0 <= i < |a.fields| ==> Descriptor(a.fields[i]) == Descriptor(b.fields[i])
    {
      assert TypeOf(a).fields == TypeOf(b).fields;
    }
    if TypeOf(a) == TypeOf(b) {
      forall i | 0 <= i < |a.fields| ensures Descriptor(a.fields[i]) == Descriptor(b.fields[i]) {
        assert TypeOf(a).fields[i] == TypeOf(b).fields[i];
      }
    }
  }

  /** Position of the first top-level field called `name`. */
  function FieldIndex(fields: seq<Field>, name: string): (r: Option<nat>)
    ensures r.None? <==> forall j :: 0 <= j < |fields| ==> fields[j].name != name
    ensures r.Some? ==> r.value < |fields| && fields[r.value].name == name
    ensures r.Some? ==> forall j :: 0 <= j < r.value ==> fields[j].name != name
  {
    if |fields| == 0 then None
    else if fields[0].name == name then Some(0)
    else
      match FieldIndex(fields[1..], name)
      case None => None
      case Some(k) => Some(k + 1)
  }

  /** The top-level field called `name`, if the record has one. */
  function FieldByName(r: Record, name: string): (f: Option<Field>)
    ensures f.Some? <==> exists j :: 0 <= j < |r.fields| && r.fields[j].name == name
    ensures f.Some? ==> f.value in r.fields && f.value.name == name
  {
    match FieldIndex(r.fields, name)
    case None => None
    case Some(k) => Some(r.fields[k])
  }

  /** The blank identifier, which Go allows as the name of any number of fields. */
  const BlankName: string := "_"

  /**
   The rule Go's compiler enforces on the top-level fields of a struct type:
   a name other than the blank one is declared once, and blank fields are
   never exported.
   */
  predicate GoFieldNames(fields: seq<Field>)
  {
    && (forall i, j :: 0 <= i < j < |fields| && fields[i].name != BlankName ==> fields[i].name != fields[j].name)
    && (forall i :: 0 <= i < |fields| && fields[i].name == BlankName ==> !fields[i].exported)
  }

  /** Field names of a sequence of fields are pairwise distinct. */
  predicate DistinctNames(fields: seq<Field>)
  {
    forall i, j :: 0 <= i < j < |fields| ==> fields[i].name != fields[j].name
  }
}
