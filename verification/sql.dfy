/**
 The text of the generated statement:
 `UPDATE <table> SET <f1>=:<f1>, <f2>=:<f2>, ... WHERE Id=:Id`,
 and a parser that reads the table and the assigned columns back out of it.
 */
module Sql {
  import opened Wrappers
  import opened Text
  import opened Records

  const ListSep: string := ", "
  const Head: string := "UPDATE "
  const SetKeyword: string := " SET "

  /** The assignment of a column to the named parameter of the same name. */
  function Clause(name: string): string
  {
    name + "=:" + name
  }

  /** One clause per name, in order. */
  function Clauses(names: seq<string>): seq<string>
  {
    seq(|names|, k requires 0 <= k < |names| => Clause(names[k]))
  }

  /** The WHERE clause: the row is the one whose key equals the key parameter. */
  function Where(): string
  {
    " WHERE " + Clause(KeyName)
  }

  /** The statement for `table` with the given SET clauses, keyed on the primary key. */
  function Render(table: string, clauses: seq<string>): string
  {
    Head + (table + (SetKeyword + Join(clauses, ListSep))) + Where()
  }

  /** With no clauses the SET list is empty: two spaces separate SET from WHERE. */
  lemma RenderNoClauses(table: string)
    ensures Render(table, []) == "UPDATE " + table + " SET  WHERE Id=:Id"
  {
    assert Join([], ListSep) == "";
    assert Where() == " WHERE Id=:Id";
    assert SetKeyword + "" == " SET ";
    assert " SET " + " WHERE Id=:Id" == " SET  WHERE Id=:Id";
  }

  /** A name that survives a round trip through a clause list: no separator comma, no `=`. */
  predicate PlainName(name: string)
  {
    ',' !in name && '=' !in name
  }

  /** The column a clause assigns, when the clause has the `c=:c` shape. */
  function ClauseName(c: string): (r: Option<string>)
    ensures r.Some? ==> c == Clause(r.value) && '=' !in r.value
  {
    match IndexOf(c, '=')
    case None => None
    case Some(k) => if c == Clause(c[..k]) then Some(c[..k]) else None
  }

  /** The columns of a list of clauses, when every clause has the `c=:c` shape. */
  function ClauseNames(parts: seq<string>): (r: Option<seq<string>>)
    ensures r.Some? ==> parts == Clauses(r.value)
  {
    if |parts| == 0 then Some([])
    else
      match ClauseName(parts[0])
      case None => None
      case Some(n) =>
        match ClauseNames(parts[1..])
        case None => None
        case Some(ns) =>
          assert parts == [parts[0]] + parts[1..];
          Some([n] + ns)
  }

  /** The columns a comma-separated SET list assigns; the empty list assigns none. */
  function ParseSetList(list: string): Option<seq<string>>
  {
    if list == "" then Some([])
    else
      match Split(list, ListSep)
      case None => None
      case Some(parts) => ClauseNames(parts)
  }

  /** The text between `head` and `tail`, when `s` starts with one and ends with the other. */
  function Between(s: string, head: string, tail: string): (r: Option<string>)
    ensures r.Some? ==> s == head + r.value + tail
  {
    if |s| < |head| + |tail| || s[..|head|] != head || s[|s| - |tail|..] != tail then None
    else
      var middle := s[|head|..|s| - |tail|];
      assert s == s[..|head|] + middle + s[|s| - |tail|..];
      Some(middle)
  }

  /** The table name and the SET list of `<table> SET <list>`, cut at the first space. */
  function CutTable(middle: string): (r: Option<(string, string)>)
    ensures r.Some? ==> middle == r.value.0 + (SetKeyword + r.value.1) && ' ' !in r.value.0
  {
    match IndexOf(middle, ' ')
    case None => None
    case Some(k) =>
      var rest := middle[k..];
      if |rest| < |SetKeyword| || rest[..|SetKeyword|] != SetKeyword then None
      else
        assert rest == rest[..|SetKeyword|] + rest[|SetKeyword|..];
        assert middle == middle[..k] + rest;
        Some((middle[..k], rest[|SetKeyword|..]))
  }

  /** The table and the assigned columns of a rendered statement, or None when the text is not one. */
  function ParseUpdate(s: string): Option<(string, seq<string>)>
  {
    match Between(s, Head, Where())
    case None => None
    case Some(middle) =>
      match CutTable(middle)
      case None => None
      case Some((table, list)) =>
        match ParseSetList(list)
        case None => None
        case Some(names) => Some((table, names))
  }

  /** A plain name is read back from its clause. */
  lemma ClauseNameRoundTrip(name: string)
    requires PlainName(name)
    ensures ClauseName(Clause(name)) == Some(name)
  {
    IndexOfAfterPrefix(name, "=:" + name, '=');
    assert Clause(name) == name + ("=:" + name);
    assert Clause(name)[..|name|] == name;
  }

  /** The clauses of plain names are read back as those names. */
  lemma {:induction false} ClauseNamesRoundTrip(names: seq<string>)
    requires forall k :: 0 <= k < |names| ==> PlainName(names[k])
    ensures ClauseNames(Clauses(names)) == Some(names)
  {
    if |names| > 0 {
      ClauseNameRoundTrip(names[0]);
      assert Clauses(names)[1..] == Clauses(names[1..]);
      ClauseNamesRoundTrip(names[1..]);
      assert names == [names[0]] + names[1..];
    }
  }

  /** The SET list of plain names is read back as those names, the empty list included. */
  lemma SetListRoundTrip(names: seq<string>)
    requires forall k :: 0 <= k < |names| ==> PlainName(names[k])
    ensures ParseSetList(Join(Clauses(names), ListSep)) == Some(names)
  {
    var cs := Clauses(names);
    if |names| == 0 {
      assert Join(cs, ListSep) == "";
    } else {
      forall k | 0 <= k < |cs| ensures ListSep[0] !in cs[k] {
        assert cs[k] == names[k] + "=:" + names[k];
      }
      SplitJoin(cs, ListSep);
      assert |Join(cs, ListSep)| > 0;
      ClauseNamesRoundTrip(names);
    }
  }

  /** The text between a head and a tail is read back. */
  lemma BetweenRoundTrip(head: string, middle: string, tail: string)
    ensures Between(head + middle + tail, head, tail) == Some(middle)
  {
    var s := head + middle + tail;
    assert s[..|head|] == head;
    assert s[|s| - |tail|..] == tail;
    assert s[|head|..|s| - |tail|] == middle;
  }

  /** A table name without spaces is cut off its SET list. */
  lemma CutTableRoundTrip(table: string, list: string)
    requires ' ' !in table
    ensures CutTable(table + (SetKeyword + list)) == Some((table, list))
  {
    var middle := table + (SetKeyword + list);
    IndexOfAfterPrefix(table, SetKeyword + list, ' ');
    assert middle[..|table|] == table;
    assert middle[|table|..] == SetKeyword + list;
    assert (SetKeyword + list)[|SetKeyword|..] == list;
  }

  /** A rendered statement is read back as its table and its columns. */
  lemma ParseRender(table: string, names: seq<string>)
    requires ' ' !in table
    requires forall k :: 0 <= k < |names| ==> PlainName(names[k])
    ensures ParseUpdate(Render(table, Clauses(names))) == Some((table, names))
  {
    var list := Join(Clauses(names), ListSep);
    BetweenRoundTrip(Head, table + (SetKeyword + list), Where());
    CutTableRoundTrip(table, list);
    SetListRoundTrip(names);
  }

  /** A SET list the parser accepts is the join of the clauses of the columns it returns. */
  lemma JoinParseSetList(list: string, names: seq<string>)
    requires ParseSetList(list) == Some(names)
    ensures Join(Clauses(names), ListSep) == list
  {
    if list != "" {
      var parts := Split(list, ListSep).value;
      JoinSplit(list, ListSep, parts);
    }
  }

  /** Whatever the parser accepts is the rendering of what it returns. */
  lemma RenderParse(s: string, table: string, names: seq<string>)
    requires ParseUpdate(s) == Some((table, names))
    ensures s == Render(table, Clauses(names))
    ensures ' ' !in table
  {
    var middle := Between(s, Head, Where()).value;
    var list := CutTable(middle).value.1;
    assert CutTable(middle) == Some((table, list));
    assert ParseSetList(list) == Some(names);
    JoinParseSetList(list, names);
  }
}
