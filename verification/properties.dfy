/**
 What the generated statement and values map say about the two records:
 which columns are set and in what order, what the map holds, and how the
 statement reads back.
 */
module Properties {
  import opened Wrappers
  import opened Records
  import opened Sql
  import opened Generator

  /** A column is set exactly when some field of that name is exported, not the key, and changed. */
  lemma SetNamesExact(newFields: seq<Field>, oldFields: seq<Field>, name: string)
    requires |oldFields| == |newFields|
    ensures name in SetNames(newFields, oldFields) <==>
              exists i :: 0 <= i < |newFields| && newFields[i].name == name && Updates(newFields[i], oldFields[i])
  {
    var idx := SetIndices(newFields, oldFields, 0);
    var names := SetNames(newFields, oldFields);
    if name in names {
      var k :| 0 <= k < |names| && names[k] == name;
      assert newFields[idx[k]].name == name && Updates(newFields[idx[k]], oldFields[idx[k]]);
    }
    if exists i :: 0 <= i < |newFields| && newFields[i].name == name && Updates(newFields[i], oldFields[i]) {
      var i :| 0 <= i < |newFields| && newFields[i].name == name && Updates(newFields[i], oldFields[i]);
      assert i in idx;
      var k :| 0 <= k < |idx| && idx[k] == i;
      assert names[k] == name;
    }
  }

  /**
   The key column is never set, changed or not; an unexported field is never
   set, changed or not, since any other field of its name is a blank one and unexported too.
   */
  lemma KeyAndUnexportedNeverSet(newFields: seq<Field>, oldFields: seq<Field>)
    requires |oldFields| == |newFields|
    requires GoFieldNames(newFields)
    ensures KeyName !in SetNames(newFields, oldFields)
    ensures forall i :: 0 <= i < |newFields| && !newFields[i].exported ==>
              newFields[i].name !in SetNames(newFields, oldFields)
  {
    SetNamesExact(newFields, oldFields, KeyName);
    forall i | 0 <= i < |newFields| && !newFields[i].exported
      ensures newFields[i].name !in SetNames(newFields, oldFields)
    {
      SetNamesExact(newFields, oldFields, newFields[i].name);
    }
  }

  /** Positions of the set fields, read off their names. */
  lemma SetNamesPositions(newFields: seq<Field>, oldFields: seq<Field>)
    requires |oldFields| == |newFields|
    requires GoFieldNames(newFields)
    ensures var names := SetNames(newFields, oldFields);
            var idx := SetIndices(newFields, oldFields, 0);
            forall k :: 0 <= k < |names| ==> FieldIndex(newFields, names[k]) == Some(idx[k])
  {
    var names := SetNames(newFields, oldFields);
    var idx := SetIndices(newFields, oldFields, 0);
    forall k | 0 <= k < |names| ensures FieldIndex(newFields, names[k]) == Some(idx[k]) {
      var p := FieldIndex(newFields, names[k]).value;
      assert newFields[p].name == newFields[idx[k]].name;
    }
  }

  /** The set columns come in declaration order: each one is declared after the one before it. */
  lemma SetNamesInDeclarationOrder(newFields: seq<Field>, oldFields: seq<Field>)
    requires |oldFields| == |newFields|
    requires GoFieldNames(newFields)
    ensures var names := SetNames(newFields, oldFields);
            forall k, l :: 0 <= k < l < |names| ==>
              && FieldIndex(newFields, names[k]).Some?
              && FieldIndex(newFields, names[l]).Some?
              && FieldIndex(newFields, names[k]).value < FieldIndex(newFields, names[l]).value
  {
    SetNamesPositions(newFields, oldFields);
  }

  /** After writing fields in order, a name is a key when it was one before or names one of the fields. */
  lemma {:induction false} AssignKeys(values: map<string, Value>, fields: seq<Field>, name: string)
    ensures name in Assign(values, fields) <==> name in values || name in Names(fields)
    decreases |fields|
  {
    if |fields| > 0 {
      AssignKeys(values[fields[0].name := fields[0].value], fields[1..], name);
      assert Names(fields) == [fields[0].name] + Names(fields[1..]);
    }
  }

  /**
   After writing fields with pairwise distinct names, each name holds its
   field's value and every other key keeps its old value.
   */
  lemma {:induction false} AssignValues(values: map<string, Value>, fields: seq<Field>)
    requires DistinctNames(fields)
    ensures forall k :: 0 <= k < |fields| ==>
              fields[k].name in Assign(values, fields) && Assign(values, fields)[fields[k].name] == fields[k].value
    ensures forall n :: n in values && (forall k :: 0 <= k < |fields| ==> fields[k].name != n) ==>
              n in Assign(values, fields) && Assign(values, fields)[n] == values[n]
    decreases |fields|
  {
    if |fields| > 0 {
      var f := fields[0];
      var values' := values[f.name := f.value];
      var result := Assign(values, fields);
      AssignValues(values', fields[1..]);
      forall k | 0 <= k < |fields| - 1 ensures fields[1..][k].name != f.name {
        assert fields[k + 1].name != fields[0].name;
      }
      assert result == Assign(values', fields[1..]);
      assert f.name in values' && values'[f.name] == f.value;
      forall k | 0 <= k < |fields|
        ensures fields[k].name in result && result[fields[k].name] == fields[k].value
      {
        if k > 0 {
          assert fields[1..][k - 1] == fields[k];
        }
      }
      forall n | n in values && (forall k :: 0 <= k < |fields| ==> fields[k].name != n)
        ensures n in result && result[n] == values[n]
      {
        assert fields[0].name != n;
        forall k | 0 <= k < |fields| - 1 ensures fields[1..][k].name != n {
          assert fields[k + 1].name != n;
        }
      }
    }
  }

  /** Writing fields with pairwise distinct new names adds one key per field. */
  lemma {:induction false} AssignSize(values: map<string, Value>, fields: seq<Field>)
    requires DistinctNames(fields)
    requires forall k :: 0 <= k < |fields| ==> fields[k].name !in values
    ensures |Assign(values, fields)| == |values| + |fields|
    decreases |fields|
  {
    if |fields| > 0 {
      var f := fields[0];
      var values' := values[f.name := f.value];
      forall k | 0 <= k < |fields| - 1 ensures fields[1..][k].name !in values' {
        assert fields[k + 1].name != f.name;
      }
      AssignSize(values', fields[1..]);
    }
  }

  /** The set fields of a record with distinct names have distinct names too. */
  lemma SetFieldsDistinct(newFields: seq<Field>, oldFields: seq<Field>)
    requires |oldFields| == |newFields|
    requires GoFieldNames(newFields)
    ensures DistinctNames(SetFields(newFields, oldFields))
  {
    var idx := SetIndices(newFields, oldFields, 0);
    var fs := SetFields(newFields, oldFields);
    forall k, l | 0 <= k < l < |fs| ensures fs[k].name != fs[l].name {
      assert idx[k] < idx[l];
    }
  }

  /** The map stores the new record's key value under the key, never the old record's. */
  lemma KeyValueFromNewRecord(table: string, newVar: Input, oldVar: Input)
    requires Generate(table, newVar, oldVar).Ok?
    ensures var values := Generate(table, newVar, oldVar).values;
            && KeyName in values
            && values[KeyName] == FieldByName(newVar.record, KeyName).value.value
            && (FieldByName(oldVar.record, KeyName).value.value != FieldByName(newVar.record, KeyName).value.value ==>
                  values[KeyName] != FieldByName(oldVar.record, KeyName).value.value)
  {
    SameTypeExact(newVar.record, oldVar.record);
    assert FieldByName(oldVar.record, KeyName).Some?;
  }

  /** The map's keys are the key and the set columns, nothing else. */
  lemma GenerateKeys(table: string, newVar: Input, oldVar: Input, name: string)
    requires Generate(table, newVar, oldVar).Ok?
    ensures |newVar.record.fields| == |oldVar.record.fields|
    ensures name in Generate(table, newVar, oldVar).values <==>
              name == KeyName || name in SetNames(newVar.record.fields, oldVar.record.fields)
  {
    AssignKeys(map[], SetFields(newVar.record.fields, oldVar.record.fields), name);
  }

  /**
   The map's keys are the key and the names of the exported, non-key fields
   that changed.
   */
  lemma GenerateKeysExact(table: string, newVar: Input, oldVar: Input, name: string)
    requires Generate(table, newVar, oldVar).Ok?
    ensures var newFields, oldFields := newVar.record.fields, oldVar.record.fields;
            && |newFields| == |oldFields|
            && (name in Generate(table, newVar, oldVar).values <==>
                  || name == KeyName
                  || exists i :: 0 <= i < |newFields| && newFields[i].name == name && Updates(newFields[i], oldFields[i]))
  {
    GenerateKeys(table, newVar, oldVar, name);
    SetNamesExact(newVar.record.fields, oldVar.record.fields, name);
  }

  /** Under the name of every field that goes into the SET list, the map holds the field's new value. */
  lemma GenerateNewValues(table: string, newVar: Input, oldVar: Input)
    requires Generate(table, newVar, oldVar).Ok?
    requires GoFieldNames(newVar.record.fields)
    ensures var newFields, oldFields := newVar.record.fields, oldVar.record.fields;
            var values := Generate(table, newVar, oldVar).values;
            && |newFields| == |oldFields|
            && forall i :: 0 <= i < |newFields| && Updates(newFields[i], oldFields[i]) ==>
                 newFields[i].name in values && values[newFields[i].name] == newFields[i].value
  {
    var newFields, oldFields := newVar.record.fields, oldVar.record.fields;
    var values := Generate(table, newVar, oldVar).values;
    var fs := SetFields(newFields, oldFields);
    var idx := SetIndices(newFields, oldFields, 0);
    SetFieldsDistinct(newFields, oldFields);
    AssignValues(map[], fs);
    forall i | 0 <= i < |newFields| && Updates(newFields[i], oldFields[i])
      ensures newFields[i].name in values && values[newFields[i].name] == newFields[i].value
    {
      assert i in idx;
      var k :| 0 <= k < |idx| && idx[k] == i;
      assert fs[k] == newFields[i];
      assert newFields[i].name != KeyName;
    }
  }

  /** The map has one entry per changed field plus one for the key. */
  lemma GenerateSize(table: string, newVar: Input, oldVar: Input)
    requires Generate(table, newVar, oldVar).Ok?
    requires GoFieldNames(newVar.record.fields)
    ensures |newVar.record.fields| == |oldVar.record.fields|
    ensures |Generate(table, newVar, oldVar).values| == |SetNames(newVar.record.fields, oldVar.record.fields)| + 1
  {
    var newFields, oldFields := newVar.record.fields, oldVar.record.fields;
    var fs := SetFields(newFields, oldFields);
    SetFieldsDistinct(newFields, oldFields);
    AssignSize(map[], fs);
    KeyAndUnexportedNeverSet(newFields, oldFields);
    AssignKeys(map[], fs, KeyName);
  }

  /** When no field changed, from some position on, no position from there on is set. */
  lemma {:induction false} NothingChangedNothingSet(newFields: seq<Field>, oldFields: seq<Field>, from: nat)
    requires |oldFields| == |newFields| && from <= |newFields|
    requires forall j :: from <= j < |newFields| ==> newFields[j].value == oldFields[j].value
    ensures SetIndices(newFields, oldFields, from) == []
    decreases |newFields| - from
  {
    if from < |newFields| {
      NothingChangedNothingSet(newFields, oldFields, from + 1);
    }
  }

  /**
   Two equal records give the degenerate statement with an empty SET list
   (two spaces before WHERE) and a map holding only the key; the call succeeds.
   */
  lemma GenerateIdentical(table: string, r: Record)
    requires FieldByName(r, KeyName).Some?
    ensures Generate(table, Struct(r), Struct(r))
              == Ok("UPDATE " + table + " SET  WHERE Id=:Id", map[KeyName := FieldByName(r, KeyName).value.value])
  {
    var idx := SetIndices(r.fields, r.fields, 0);
    NothingChangedNothingSet(r.fields, r.fields, 0);
    assert SetFields(r.fields, r.fields) == [];
    assert Clauses(SetNames(r.fields, r.fields)) == [];
    RenderNoClauses(table);
  }

  /**
   The statement reads back as the table and the set columns in declaration
   order, when the table name has no space and no field name a comma or `=`.
   */
  lemma GenerateStatementRoundTrip(table: string, newVar: Input, oldVar: Input)
    requires Generate(table, newVar, oldVar).Ok?
    requires ' ' !in table
    requires forall i :: 0 <= i < |newVar.record.fields| ==> PlainName(newVar.record.fields[i].name)
    ensures ParseUpdate(Generate(table, newVar, oldVar).sql)
              == Some((table, SetNames(newVar.record.fields, oldVar.record.fields)))
  {
    var names := SetNames(newVar.record.fields, oldVar.record.fields);
    var idx := SetIndices(newVar.record.fields, oldVar.record.fields, 0);
    forall k | 0 <= k < |names| ensures PlainName(names[k]) {
      assert names[k] == newVar.record.fields[idx[k]].name;
    }
    ParseRender(table, names);
  }
}
