/**
 The diff-and-generate algorithm: compare two struct values of one type field
 by field and render a parameterised UPDATE for the fields that changed,
 together with the named-parameter values.
 */
module Generator {
  import opened Wrappers
  import opened Records
  import opened Sql

  datatype ErrorKind =
    | TypeMismatch   // the two arguments have different dynamic types
    | InvalidValue   // an argument is the nil interface
    | MissingKey     // the type has no `Id` field

  /**
   The outcome of a call. On an error the generator returns an empty
   statement and no map; `Err` carries neither.
   */
  datatype Result =
    | Ok(sql: string, values: map<string, Value>)
    | Err(kind: ErrorKind)

  /** A field goes into the SET list: it is exported, its value changed, and it is not the key. */
  predicate Updates(newField: Field, oldField: Field)
  {
    newField.exported && newField.value != oldField.value && newField.name != KeyName
  }

  /**
   The loop over the fields from position `i` on, with what it has gathered
   so far: skip unexported fields, then unchanged ones, then the key; append
   a clause and record the new value for the rest.
   */
  function Collect(newFields: seq<Field>, oldFields: seq<Field>, i: nat,
                   setValues: seq<string>, values: map<string, Value>): (seq<string>, map<string, Value>)
    requires |oldFields| == |newFields| && i <= |newFields|
    decreases |newFields| - i
  {
    if i == |newFields| then (setValues, values)
    else if !newFields[i].exported then Collect(newFields, oldFields, i + 1, setValues, values)
    else if newFields[i].value == oldFields[i].value then Collect(newFields, oldFields, i + 1, setValues, values)
    else if newFields[i].name == KeyName then Collect(newFields, oldFields, i + 1, setValues, values)
    else
      var f := newFields[i];
      Collect(newFields, oldFields, i + 1, setValues + [Clause(f.name)], values[f.name := f.value])
  }

  /** Reference definition: the positions, from `from` on, of the fields the statement updates. */
  function SetIndices(newFields: seq<Field>, oldFields: seq<Field>, from: nat): (idx: seq<nat>)
    requires |oldFields| == |newFields| && from <= |newFields|
    decreases |newFields| - from
    ensures forall k :: 0 <= k < |idx| ==> from <= idx[k] < |newFields|
    ensures forall k :: 0 <= k < |idx| ==> Updates(newFields[idx[k]], oldFields[idx[k]])
    ensures forall j :: from <= j < |newFields| && Updates(newFields[j], oldFields[j]) ==> j in idx
    ensures forall k, l :: 0 <= k < l < |idx| ==> idx[k] < idx[l]
  {
    if from == |newFields| then []
    else
      var rest := SetIndices(newFields, oldFields, from + 1);
      if Updates(newFields[from], oldFields[from]) then [from] + rest else rest
  }

  /** The fields at the given positions, in that order. */
  function Pick(fields: seq<Field>, idx: seq<nat>): (picked: seq<Field>)
    requires forall k :: 0 <= k < |idx| ==> idx[k] < |fields|
    ensures |picked| == |idx|
    ensures forall k :: 0 <= k < |idx| ==> picked[k] == fields[idx[k]]
  {
    seq(|idx|, k requires 0 <= k < |idx| => fields[idx[k]])
  }

  function Names(fields: seq<Field>): (names: seq<string>)
    ensures |names| == |fields|
    ensures forall k :: 0 <= k < |fields| ==> names[k] == fields[k].name
  {
    seq(|fields|, k requires 0 <= k < |fields| => fields[k].name)
  }

  /** The fields the statement updates, in declaration order. */
  function SetFields(newFields: seq<Field>, oldFields: seq<Field>): seq<Field>
    requires |oldFields| == |newFields|
  {
    SetFieldsFrom(newFields, oldFields, 0)
  }

  /** The columns the statement updates, in declaration order. */
  function SetNames(newFields: seq<Field>, oldFields: seq<Field>): seq<string>
    requires |oldFields| == |newFields|
  {
    Names(SetFields(newFields, oldFields))
  }

  /** Writes each field's value under its name into `values`, first to last, a later write replacing an earlier one. */
  function Assign(values: map<string, Value>, fields: seq<Field>): map<string, Value>
    decreases |fields|
  {
    if |fields| == 0 then values
    else Assign(values[fields[0].name := fields[0].value], fields[1..])
  }

  /**
   The generator. Checks, in this order, that both arguments have one
   dynamic type, that they are not nil, and that the type has an `Id` field;
   then renders the SET clauses of the changed fields and the values map,
   and stores the new record's `Id` under `Id`.
   */
  function Generate(table: string, newVar: Input, oldVar: Input): (r: Result)
    ensures TypeOfInput(newVar) != TypeOfInput(oldVar) ==> r == Err(TypeMismatch)
    ensures TypeOfInput(newVar) == TypeOfInput(oldVar) && (newVar.Nil? || oldVar.Nil?) ==> r == Err(InvalidValue)
    ensures r == Err(MissingKey) <==>
              && newVar.Struct? && oldVar.Struct?
              && TypeOf(newVar.record) == TypeOf(oldVar.record)
              && FieldByName(newVar.record, KeyName).None?
    ensures r.Ok? <==>
              && newVar.Struct? && oldVar.Struct?
              && TypeOf(newVar.record) == TypeOf(oldVar.record)
              && FieldByName(newVar.record, KeyName).Some?
    ensures r.Ok? ==>
              && |newVar.record.fields| == |oldVar.record.fields|
              && r.sql == Render(table, Clauses(SetNames(newVar.record.fields, oldVar.record.fields)))
              && r.values == Assign(map[], SetFields(newVar.record.fields, oldVar.record.fields))
                               [KeyName := FieldByName(newVar.record, KeyName).value.value]
  {
    if TypeOfInput(newVar) != TypeOfInput(oldVar) then Err(TypeMismatch)
    else if newVar.Nil? || oldVar.Nil? then Err(InvalidValue)
    else
      var newRecord, oldRecord := newVar.record, oldVar.record;
      match FieldByName(newRecord, KeyName)
      case None => Err(MissingKey)
      case Some(key) =>
        SameTypeExact(newRecord, oldRecord);
        var (setValues, values) := Collect(newRecord.fields, oldRecord.fields, 0, [], map[]);
        CollectClauses(newRecord.fields, oldRecord.fields, 0, [], map[]);
        CollectValues(newRecord.fields, oldRecord.fields, 0, [], map[]);
        assert setValues == Clauses(SetNames(newRecord.fields, oldRecord.fields));
        Ok(Render(table, setValues), values[KeyName := key.value])
  }

  /** The fields from position `from` on that the statement updates, in declaration order. */
  function SetFieldsFrom(newFields: seq<Field>, oldFields: seq<Field>, from: nat): seq<Field>
    requires |oldFields| == |newFields| && from <= |newFields|
  {
    Pick(newFields, SetIndices(newFields, oldFields, from))
  }

  /** Picking a first position, then more, picks that field, then the rest. */
  lemma PickCons(fields: seq<Field>, i: nat, idx: seq<nat>)
    requires i < |fields|
    requires forall k :: 0 <= k < |idx| ==> idx[k] < |fields|
    ensures Pick(fields, [i] + idx) == [fields[i]] + Pick(fields, idx)
  {
  }

  /** The reference definition, one position at a time. */
  lemma SetFieldsFromStep(newFields: seq<Field>, oldFields: seq<Field>, i: nat)
    requires |oldFields| == |newFields| && i <= |newFields|
    ensures i == |newFields| ==> SetFieldsFrom(newFields, oldFields, i) == []
    ensures i < |newFields| && Updates(newFields[i], oldFields[i]) ==>
              SetFieldsFrom(newFields, oldFields, i) == [newFields[i]] + SetFieldsFrom(newFields, oldFields, i + 1)
    ensures i < |newFields| && !Updates(newFields[i], oldFields[i]) ==>
              SetFieldsFrom(newFields, oldFields, i) == SetFieldsFrom(newFields, oldFields, i + 1)
  {
    if i < |newFields| && Updates(newFields[i], oldFields[i]) {
      PickCons(newFields, i, SetIndices(newFields, oldFields, i + 1));
    }
  }

  /** Appending a field's clause, then the clauses of more fields, appends the clauses of all of them. */
  lemma ClausesCons(setValues: seq<string>, f: Field, fields: seq<Field>)
    ensures (setValues + [Clause(f.name)]) + Clauses(Names(fields)) == setValues + Clauses(Names([f] + fields))
  {
    assert Clauses(Names([f] + fields)) == [Clause(f.name)] + Clauses(Names(fields));
  }

  lemma AssignCons(values: map<string, Value>, f: Field, fields: seq<Field>)
    ensures Assign(values, [f] + fields) == Assign(values[f.name := f.value], fields)
  {
    assert ([f] + fields)[1..] == fields;
  }

  /** One step of the loop over a field that does not go into the SET list. */
  lemma CollectSkip(newFields: seq<Field>, oldFields: seq<Field>, i: nat,
                    setValues: seq<string>, values: map<string, Value>)
    requires |oldFields| == |newFields| && i < |newFields|
    requires !Updates(newFields[i], oldFields[i])
    ensures Collect(newFields, oldFields, i, setValues, values)
              == Collect(newFields, oldFields, i + 1, setValues, values)
  {
  }

  /** One step of the loop over a field that goes into the SET list. */
  lemma CollectTake(newFields: seq<Field>, oldFields: seq<Field>, i: nat,
                    setValues: seq<string>, values: map<string, Value>)
    requires |oldFields| == |newFields| && i < |newFields|
    requires Updates(newFields[i], oldFields[i])
    ensures var f := newFields[i];
            Collect(newFields, oldFields, i, setValues, values)
              == Collect(newFields, oldFields, i + 1, setValues + [Clause(f.name)], values[f.name := f.value])
  {
  }

  /** The loop gathers exactly the clauses of the reference definition, after those it started with. */
  lemma {:induction false} CollectClauses(newFields: seq<Field>, oldFields: seq<Field>, i: nat,
                                          setValues: seq<string>, values: map<string, Value>)
    requires |oldFields| == |newFields| && i <= |newFields|
    ensures Collect(newFields, oldFields, i, setValues, values).0
              == setValues + Clauses(Names(SetFieldsFrom(newFields, oldFields, i)))
    decreases |newFields| - i
  {
    SetFieldsFromStep(newFields, oldFields, i);
    if i == |newFields| {
      assert Clauses(Names([])) == [];
    } else if Updates(newFields[i], oldFields[i]) {
      var f := newFields[i];
      var c := Clause(f.name);
      var rest := SetFieldsFrom(newFields, oldFields, i + 1);
      CollectTake(newFields, oldFields, i, setValues, values);
      CollectClauses(newFields, oldFields, i + 1, setValues + [c], values[f.name := f.value]);
      ClausesCons(setValues, f, rest);
    } else {
      CollectSkip(newFields, oldFields, i, setValues, values);
      CollectClauses(newFields, oldFields, i + 1, setValues, values);
    }
  }

  /** The loop writes exactly the values of the reference definition over those it started with. */
  lemma {:induction false} CollectValues(newFields: seq<Field>, oldFields: seq<Field>, i: nat,
                                         setValues: seq<string>, values: map<string, Value>)
    requires |oldFields| == |newFields| && i <= |newFields|
    ensures Collect(newFields, oldFields, i, setValues, values).1
              == Assign(values, SetFieldsFrom(newFields, oldFields, i))
    decreases |newFields| - i
  {
    SetFieldsFromStep(newFields, oldFields, i);
    if i == |newFields| {
    } else if Updates(newFields[i], oldFields[i]) {
      var f := newFields[i];
      CollectTake(newFields, oldFields, i, setValues, values);
      CollectValues(newFields, oldFields, i + 1, setValues + [Clause(f.name)], values[f.name := f.value]);
      AssignCons(values, f, SetFieldsFrom(newFields, oldFields, i + 1));
    } else {
      CollectSkip(newFields, oldFields, i, setValues, values);
      CollectValues(newFields, oldFields, i + 1, setValues, values);
    }
  }
}
