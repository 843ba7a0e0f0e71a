/** Concrete calls of the generator, worked through. */
module Scenarios {
  import opened Wrappers
  import opened Records
  import opened Text
  import opened Sql
  import opened Generator

  function User(id: int, first: string, last: string, email: string): Record
  {
    Record("User", [
      Field("Id", true, false, "int", "", Int(id)),
      Field("FirstName", true, false, "string", "", Str(first)),
      Field("LastName", true, false, "string", "", Str(last)),
      Field("Email", true, false, "string", "", Str(email))
    ])
  }

  function NewUser(): Record { User(1, "John", "Doe", "johndoe@example.com") }
  function OldUser(): Record { User(1, "Jane", "Doe", "janedoe@example.com") }

  lemma UsersSetFields()
    ensures SetFields(NewUser().fields, OldUser().fields) == [NewUser().fields[1], NewUser().fields[3]]
  {
    var nf, of := NewUser().fields, OldUser().fields;
    assert !Updates(nf[0], of[0]) && Updates(nf[1], of[1]) && !Updates(nf[2], of[2]) && Updates(nf[3], of[3]);
    assert SetIndices(nf, of, 4) == [];
    assert SetIndices(nf, of, 3) == [3];
    assert SetIndices(nf, of, 2) == [3];
    assert SetIndices(nf, of, 1) == [1, 3];
    assert SetIndices(nf, of, 0) == [1, 3];
  }

  /** Regroups the parts of a rendered statement so that every part is appended on the right. */
  lemma LeftNested(head: string, table: string, keyword: string, first: string, sep: string, second: string, tail: string)
    ensures head + (table + (keyword + (first + sep + second))) + tail
              == head + table + keyword + first + sep + second + tail
  {
  }

  lemma UsersClauses()
    ensures Clauses(["FirstName", "Email"]) == ["FirstName=:FirstName", "Email=:Email"]
    ensures Where() == " WHERE Id=:Id"
  {
    assert Clause("FirstName") == "FirstName=:FirstName";
    assert Clause("Email") == "Email=:Email";
    assert Clause(KeyName) == "Id=:Id";
  }

  lemma UsersSetText()
    ensures "UPDATE " + "users" + " SET " + "FirstName=:FirstName" == "UPDATE users SET FirstName=:FirstName"
  {
    assert "UPDATE " + "users" == "UPDATE users";
    assert "UPDATE users" + " SET " == "UPDATE users SET ";
  }

  lemma UsersText()
    ensures "UPDATE " + "users" + " SET " + "FirstName=:FirstName" + ", " + "Email=:Email" + " WHERE Id=:Id"
              == "UPDATE users SET FirstName=:FirstName, Email=:Email WHERE Id=:Id"
  {
    UsersSetText();
    assert "UPDATE users SET FirstName=:FirstName" + ", " == "UPDATE users SET FirstName=:FirstName, ";
    assert "UPDATE users SET FirstName=:FirstName, " + "Email=:Email"
             == "UPDATE users SET FirstName=:FirstName, Email=:Email";
  }

  /** The statement text for the two changed columns of the users table. */
  lemma UsersStatement()
    ensures Render("users", Clauses(["FirstName", "Email"]))
              == "UPDATE users SET FirstName=:FirstName, Email=:Email WHERE Id=:Id"
  {
    var first, second := "FirstName=:FirstName", "Email=:Email";
    UsersClauses();
    assert [first, second][1..] == [second];
    assert Join([first, second], ListSep) == first + ListSep + second;
    LeftNested(Head, "users", SetKeyword, first, ListSep, second, Where());
    UsersText();
  }

  lemma UsersValues()
    ensures Assign(map[], SetFields(NewUser().fields, OldUser().fields))
              == map["FirstName" := Str("John"), "Email" := Str("johndoe@example.com")]
  {
    UsersSetFields();
    var fs := [NewUser().fields[1], NewUser().fields[3]];
    assert fs[1..] == [NewUser().fields[3]];
  }

  /**
   A user whose first name and email changed: the statement sets those two
   columns in declaration order and the map holds their new values and the Id.
   */
  lemma UsersExample()
    ensures Generate("users", Struct(NewUser()), Struct(OldUser()))
            == Ok("UPDATE users SET FirstName=:FirstName, Email=:Email WHERE Id=:Id",
                  map["FirstName" := Str("John"), "Email" := Str("johndoe@example.com"), "Id" := Int(1)])
  {
    UsersSameType();
    UsersKey();
    UsersNames();
    UsersStatement();
    UsersValues();
  }

  lemma UsersSameType()
    ensures TypeOf(NewUser()) == TypeOf(OldUser())
  {
    var t := RecordType("User", [FieldDesc("Id", true, false, "int", ""), FieldDesc("FirstName", true, false, "string", ""),
                                 FieldDesc("LastName", true, false, "string", ""), FieldDesc("Email", true, false, "string", "")]);
    assert TypeOf(NewUser()) == t;
    assert TypeOf(OldUser()) == t;
  }

  lemma UsersKey()
    ensures FieldByName(NewUser(), KeyName) == Some(Field("Id", true, false, "int", "", Int(1)))
  {
  }

  lemma UsersNames()
    ensures SetNames(NewUser().fields, OldUser().fields) == ["FirstName", "Email"]
  {
    UsersSetFields();
    var names := SetNames(NewUser().fields, OldUser().fields);
    assert names[0] == "FirstName" && names[1] == "Email";
  }

  /** A struct against the nil interface is a type mismatch, whatever the struct holds. */
  lemma NilAgainstStruct(table: string, r: Record)
    ensures Generate(table, Struct(r), Nil) == Err(TypeMismatch)
    ensures Generate(table, Nil, Struct(r)) == Err(TypeMismatch)
  {
  }

  /** Two nil interfaces have the same (absent) type and fail the validity check. */
  lemma NilAgainstNil(table: string)
    ensures Generate(table, Nil, Nil) == Err(InvalidValue)
  {
  }

  /** A type without an `Id` field is refused before anything is rendered. */
  lemma NoKeyField()
    ensures Generate("users",
                     Struct(Record("Note", [Field("Text", true, false, "string", "", Str("a"))])),
                     Struct(Record("Note", [Field("Text", true, false, "string", "", Str("b"))])))
            == Err(MissingKey)
  {
  }

  /** Records of two different named types are refused even when their fields agree. */
  lemma DifferentTypeNames()
    ensures Generate("users",
                     Struct(Record("User", [Field("Id", true, false, "int", "", Int(1))])),
                     Struct(Record("Admin", [Field("Id", true, false, "int", "", Int(1))])))
            == Err(TypeMismatch)
  {
  }

  /**
   Two unnamed struct types whose fields differ only in their Go type are
   different types, so even equal-looking values are refused.
   */
  lemma DifferentFieldTypes()
    ensures Generate("t",
                     Struct(Record("", [Field("Id", true, false, "int", "", Int(1))])),
                     Struct(Record("", [Field("Id", true, false, "string", "", Str("1"))])))
            == Err(TypeMismatch)
  {
    assert Descriptor(Field("Id", true, false, "int", "", Int(1))) != Descriptor(Field("Id", true, false, "string", "", Str("1")));
    SameTypeExact(Record("", [Field("Id", true, false, "int", "", Int(1))]), Record("", [Field("Id", true, false, "string", "", Str("1"))]));
  }

  /** Two unnamed struct types whose fields differ only in their tags are different types. */
  lemma DifferentTags()
    ensures Generate("t",
                     Struct(Record("", [Field("Id", true, false, "int", "db:\"id\"", Int(1))])),
                     Struct(Record("", [Field("Id", true, false, "int", "", Int(1))])))
            == Err(TypeMismatch)
  {
    SameTypeExact(Record("", [Field("Id", true, false, "int", "db:\"id\"", Int(1))]), Record("", [Field("Id", true, false, "int", "", Int(1))]));
  }

  /** Two blank fields satisfy Go's naming rule without giving pairwise distinct names. */
  lemma BlankFieldsObeyGoRule()
    ensures var fields := [Field("Id", true, false, "int", "", Int(1)), Field("_", false, false, "int", "", Int(0)),
                           Field("_", false, false, "string", "", Str(""))];
            GoFieldNames(fields) && !DistinctNames(fields)
  {
    var fields := [Field("Id", true, false, "int", "", Int(1)), Field("_", false, false, "int", "", Int(0)),
                   Field("_", false, false, "string", "", Str(""))];
    assert fields[1].name == fields[2].name;
  }

  /** A change in a blank field is skipped, since blank fields are unexported. */
  lemma BlankFields(table: string)
    ensures Generate(table,
                     Struct(Record("T", [Field("Id", true, false, "int", "", Int(1)), Field("_", false, false, "int", "", Int(1))])),
                     Struct(Record("T", [Field("Id", true, false, "int", "", Int(1)), Field("_", false, false, "int", "", Int(0))])))
            == Ok("UPDATE " + table + " SET  WHERE Id=:Id", map["Id" := Int(1)])
  {
    var nf := [Field("Id", true, false, "int", "", Int(1)), Field("_", false, false, "int", "", Int(1))];
    var of := [Field("Id", true, false, "int", "", Int(1)), Field("_", false, false, "int", "", Int(0))];
    assert TypeOf(Record("T", nf)) == TypeOf(Record("T", of));
    assert SetIndices(nf, of, 2) == [];
    assert SetIndices(nf, of, 1) == [];
    assert SetIndices(nf, of, 0) == [];
    assert FieldByName(Record("T", nf), KeyName) == Some(nf[0]);
    RenderNoClauses(table);
  }

  /**
   An embedded field and an ordinary field of the same name and type make two
   different struct types: `struct{ Id }` against `struct{ Id Id }`.
   */
  lemma DifferentEmbedding()
    ensures Generate("t",
                     Struct(Record("", [Field("Id", true, true, "Id", "", Int(1))])),
                     Struct(Record("", [Field("Id", true, false, "Id", "", Int(1))])))
            == Err(TypeMismatch)
  {
    SameTypeExact(Record("", [Field("Id", true, true, "Id", "", Int(1))]), Record("", [Field("Id", true, false, "Id", "", Int(1))]));
  }

  /** A changed Id and a changed unexported field are both left out of the SET list. */
  lemma KeyAndPrivateChangesIgnored(table: string)
    ensures Generate(table,
                     Struct(Record("User", [Field("Id", true, false, "int", "", Int(2)), Field("secret", false, false, "string", "", Str("x"))])),
                     Struct(Record("User", [Field("Id", true, false, "int", "", Int(1)), Field("secret", false, false, "string", "", Str("y"))])))
            == Ok("UPDATE " + table + " SET  WHERE Id=:Id", map["Id" := Int(2)])
  {
    var nf := [Field("Id", true, false, "int", "", Int(2)), Field("secret", false, false, "string", "", Str("x"))];
    var of := [Field("Id", true, false, "int", "", Int(1)), Field("secret", false, false, "string", "", Str("y"))];
    var t := RecordType("User", [FieldDesc("Id", true, false, "int", ""), FieldDesc("secret", false, false, "string", "")]);
    assert TypeOf(Record("User", nf)) == t;
    assert TypeOf(Record("User", of)) == t;
    assert SetIndices(nf, of, 2) == [];
    assert SetIndices(nf, of, 1) == [];
    assert SetIndices(nf, of, 0) == [];
    assert FieldByName(Record("User", nf), KeyName) == Some(nf[0]);
    RenderNoClauses(table);
  }
}
