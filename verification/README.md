# sqldiffupdater: the UPDATE generator, modelled in Dafny

`Generate(tableName, newvar, oldvar)` in `generate.go` compares two struct values of
one Go type field by field. For the fields that changed it builds a parameterised statement

    UPDATE <table> SET <f1>=:<f1>, <f2>=:<f2>, ... WHERE Id=:Id

and a map from parameter names to the new values, with the new record's `Id` added.
The checks run in a fixed order, and each failure returns an error.

1. The two arguments must have the same dynamic type.
2. Neither argument may be the nil interface.
3. The type must have an `Id` field.

The field loop skips, in this order:
- unexported fields;
- fields whose values are deeply equal;
- the field called `Id`.

It then appends a clause and records the new value.

The model follows that structure:

- `text.dfy`:
  - `Wrappers.Option`;
  - `Text.Join`, which stands for `strings.Join`;
  - a splitter `Text.Split` that inverts it.
- `records.dfy`:
  - a struct value is a `Record`, that is, a type name plus its top-level `Field`s in declaration order;
  - each `Field` carries its name, its export flag, whether it is embedded, the spelling of its Go type, its struct tag and its value;
  - an argument is an `Input`, either `Nil` or `Struct(record)`;
  - `TypeOf` defines the type abstraction. The dynamic type of a struct value is its type name together with each field's `FieldDesc`: name, export flag, embedding, type and tag. For unnamed struct types, Go's identity compares these too, and it also qualifies unexported names by their package, which the model does not. A named type is identified by its declaration, so `typeName` must name exactly one declaration. "## Left out" lists both gaps. `SameTypeExact` states when two values have one type;
  - `FieldByName` is the top-level field lookup;
  - `GoFieldNames` is Go's rule for the field names of a struct type. A name other than the blank `_` is declared once, and blank fields are unexported.
- `sql.dfy`:
  - the statement text (`Clause`, `Clauses`, `Render`);
  - a parser `ParseUpdate` that reads the table and the columns back out of a statement. It is an inverse of `Render`, and the rendering is proved against it in both directions.
- `generator.dfy`:
  - `Collect` is the loop, step for step with the same three skips;
  - `SetIndices` is an independent reference definition of which positions are set;
  - `Generate` is the whole function;
  - `CollectClauses` and `CollectValues` prove the loop equal to the reference definition.
- `properties.dfy`: what the result means.
  - Exactly which columns are set, and in what order.
  - What the map holds and how large it is.
  - The identical-records case.
  - The statement reads back.
- `scenarios.dfy`: concrete calls, including the users example of `generate_test.go`.

Deep equality of field values is modelled as structural equality of the `Value` datatype.
A nested struct field is one `Composite` value, compared as a whole, as `reflect.DeepEqual` compares it.
`generate.go` hard-codes the key name `Id` and compares it case-sensitively.
It does not recurse into nested or embedded structs: only top-level fields are compared and reported.
When no field changed, the statement is `UPDATE t SET  WHERE Id=:Id`, with an empty SET list.
It is not valid SQL, but it is what the code produces, and the model reproduces it (`Properties.GenerateIdentical`).

## Model

| member | source | states |
|---|---|---|
| Generator.Generate | generate.go:11-80 | A type mismatch gives the type error before anything else. The same type with a nil argument gives the validity error. The missing-key error comes exactly when both are structs of one type without a top-level `Id`. Success comes exactly when they are structs of one type with `Id`. Then the statement renders the set columns and the map is the set fields' values plus the new `Id`. |
| Generator.SetIndices | generate.go:39-69 | The positions the loop keeps are ascending and in range. Each one is exported, changed and not `Id`, and every such position from the start point on is among them. |
| Generator.CollectClauses | generate.go:37-72 | The loop appends to the clause list exactly one `name=:name` per field of the reference definition, in declaration order. |
| Generator.CollectValues | generate.go:38-69 | The loop writes into the map exactly the new values of the fields of the reference definition, in declaration order. |
| Records.SameTypeExact | generate.go:13-17 | Two struct values have one dynamic type if and only if they have the same type name and the same number of fields, and agree position by position on each field's name, export flag, embedding, type and tag. |
| Records.FieldIndex | generate.go:31 | Gives the first position holding the name, and is None exactly when no field has it. |
| Records.FieldByName | generate.go:31-34 | Finds a field exactly when some top-level field has the name, and the field found is one of the record's fields with that name. |
| Properties.SetNamesExact | generate.go:42-65 | A column is in the SET list if and only if some field of that name is exported, not `Id`, and changed. |
| Properties.KeyAndUnexportedNeverSet | generate.go:42-62 | `Id` is never set, whether or not it changed. An unexported field is never set either. |
| Properties.SetNamesPositions | generate.go:39-65 | The k-th set column is declared at the k-th position of the reference definition. |
| Properties.SetNamesInDeclarationOrder | generate.go:39-65 | Each set column is declared strictly after the one before it. |
| Properties.AssignKeys | generate.go:68 | After the map writes, a name is a key exactly when it was one before or names a written field. |
| Properties.AssignValues | generate.go:68 | With distinct names, each written name holds its field's value and every other key keeps its old value. |
| Properties.AssignSize | generate.go:68 | Writing fields with distinct new names adds one key per field. |
| Properties.SetFieldsDistinct | generate.go:39-65 | The set fields of a struct have pairwise distinct names. |
| Properties.KeyValueFromNewRecord | generate.go:74-76 | The map holds the new record's `Id` under `Id`, and never the old one when the two differ. |
| Properties.GenerateKeys | generate.go:38-76 | The map's keys are `Id` and the set columns, nothing else. |
| Properties.GenerateKeysExact | generate.go:38-76 | The map's keys are `Id` and the names of the exported, non-`Id`, changed fields. |
| Properties.GenerateNewValues | generate.go:48-68 | Every exported, non-`Id`, changed field's name maps to its new value. |
| Properties.GenerateSize | generate.go:38-76 | The map has one entry per set column plus one for `Id`. |
| Properties.NothingChangedNothingSet | generate.go:51-54 | When no field from some position on changed, no position from there on is set. |
| Properties.GenerateIdentical | generate.go:51-76 | Two identical records with an `Id` give `UPDATE t SET  WHERE Id=:Id` (two spaces) and a map holding only `Id`. |
| Properties.GenerateStatementRoundTrip | generate.go:65-72 | The generated statement parses back to the table and the set columns in declaration order. |
| Sql.RenderNoClauses | generate.go:72 | With no clauses the SET list is empty and two spaces separate SET from WHERE. |
| Sql.ClauseNameRoundTrip | generate.go:65 | A clause `name=:name` reads back as its name. |
| Sql.ClauseNamesRoundTrip | generate.go:65 | A list of clauses reads back as its names, in order. |
| Sql.SetListRoundTrip | generate.go:72 | The comma-joined clause list, the empty one included, reads back as its names. |
| Sql.ParseRender | generate.go:65-72 | Parsing a rendered statement gives back its table and columns. |
| Sql.RenderParse | generate.go:65-72 | Any text the parser accepts is the rendering of what it returns. |
| Text.SplitJoin | generate.go:72 | Splitting the join of a non-empty list of parts, none of which holds the separator's first character, gives the parts back. |
| Text.JoinSplit | generate.go:72 | Joining what a split returns gives the text back, the split returns at least one part, and no part holds the separator's first character. |
| Scenarios.UsersSetFields | generate_test.go:16-27 | For the two users, only FirstName and Email are set, in that order. |
| Scenarios.UsersStatement | generate_test.go:30 | Their statement text is `UPDATE users SET FirstName=:FirstName, Email=:Email WHERE Id=:Id`. |
| Scenarios.UsersExample | generate_test.go:16-40 | The whole call succeeds with that statement and the map {FirstName: John, Email: johndoe@example.com, Id: 1}. |
| Scenarios.NilAgainstStruct | generate.go:13-19 | A struct against the nil interface, either way round, is a type mismatch. |
| Scenarios.NilAgainstNil | generate.go:13-28 | Two nil interfaces pass the type check and fail the validity check. |
| Scenarios.NoKeyField | generate.go:30-34 | A type without `Id` gives the missing-key error. |
| Scenarios.DifferentTypeNames | generate.go:13-19 | Two named types with the same fields are different types. |
| Scenarios.DifferentFieldTypes | generate.go:13-19 | Two unnamed struct types whose `Id` fields differ only in their Go type are different types. |
| Scenarios.DifferentTags | generate.go:13-19 | Two unnamed struct types whose fields differ only in their tags are different types. |
| Scenarios.BlankFields | generate.go:42-45 | A change in a blank `_` field is skipped, because blank fields are unexported. The statement has an empty SET list and the map holds only `Id`. |
| Scenarios.DifferentEmbedding | generate.go:13-19 | `struct{ Id }` against `struct{ Id Id }`, the same field once embedded and once not, is a type mismatch. |
| Scenarios.KeyAndPrivateChangesIgnored | generate.go:42-76 | A changed `Id` and a changed unexported field give an empty SET list, and the map holds the new `Id`. |

## Left out

- `Update` is called in `generate_test.go:56`, but it has no definition in `generate.go`, so it is not part of this model.
- Reflection is not modelled as such. A struct type is its name plus each field's name, export flag, type and tag. The field type is an uninterpreted spelling, so two spellings that denote one Go type must be written alike. The export flag is given rather than derived from the `PkgPath` or the name's capitalisation. Embedded fields are marked, and the mark takes part in the type comparison. Fields promoted from an embedded struct are not listed among the struct's own fields.
- Records.SameTypeExact: Go identifies a named type by its declaration, not by its name and fields. `a.User` and `b.User` with identical fields are different types, and so are two function-local `User` declarations. So each `typeName` and each `fieldType` spelling must name exactly one declaration, package path and scope included. Two values spelt alike are otherwise taken as one type, and `Generate` returns Ok where `generate.go:17-19` returns the type error. Go also treats unexported field names from different packages as always different. Field names are not qualified by their package here, so that distinction is not modelled either.
- `reflect.DeepEqual` is modelled as structural equality of `Value`. Its corner cases are not modelled:
  - NaN is unequal to itself;
  - func values are equal only when both are nil;
  - nil and empty slices differ;
  - cycles through pointers.
- Non-struct arguments are not modelled. The `Input` datatype cannot express a pointer, an int or any other non-struct value. Two cases follow from this:
  - A non-struct against a value of another type, such as a pointer against its struct or against nil, fails the comparison at `generate.go:17` and returns the type-mismatch error. The model has no such input, so it does not cover this path.
  - Two arguments of the same non-struct type pass that comparison, and `newType.FieldByName("Id")` at `generate.go:31` panics. `NumField` at `generate.go:39` is never reached. This panic is not modelled either.
- `FieldByName` also finds an `Id` promoted from an embedded struct. The model looks at top-level fields only.
- Error message texts are reduced to an `ErrorKind`. On an error the code returns an empty string and a nil map, and `Err` carries neither.
- Map iteration order and the test's logging are left out.
- Properties.SetNamesPositions, Properties.SetNamesInDeclarationOrder, Properties.KeyAndUnexportedNeverSet, Properties.SetFieldsDistinct, Properties.GenerateNewValues, Properties.GenerateSize: these require `GoFieldNames`, the rule Go's compiler enforces on every struct type. Repeated blank `_` fields are allowed under it. The `Record` datatype does not enforce this rule itself.
- Properties.AssignValues, Properties.AssignSize: these are about writing any list of fields into a map and require pairwise distinct names, without which their statements are false. They are applied to the set fields, which have distinct names under Go's rule (`Properties.SetFieldsDistinct`).
- Properties.GenerateStatementRoundTrip: needs a table name without a space and field names without `,` or `=`, so that the text can be cut unambiguously. The code does no quoting, so other names render ambiguously.
- The table name is inserted into the statement verbatim, as the code does. Quoting and injection safety are not modelled because the code has none.
