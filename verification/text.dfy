/** Optional values, used where a lookup or a parse can fail. */
module Wrappers {

  datatype Option<+T> = None | Some(value: T)
}

/**
 Strings as sequences of characters: the `strings.Join` the statement
 renderer uses, and a splitter that undoes it.
 */
module Text {
  import opened Wrappers

  /** The parts with `sep` between each two consecutive ones, as Go's `strings.Join`. */
  function Join(parts: seq<string>, sep: string): string
  {
    if |parts| == 0 then ""
    else if |parts| == 1 then parts[0]
    else parts[0] + sep + Join(parts[1..], sep)
  }

  /** Position of the first occurrence of `c` in `s`. */
  function IndexOf(s: string, c: char): (r: Option<nat>)
    ensures r.None? <==> c !in s
    ensures r.Some? ==> r.value < |s| && s[r.value] == c && c !in s[..r.value]
  {
    if |s| == 0 then None
    else if s[0] == c then Some(0)
    else
      match IndexOf(s[1..], c)
      case None => None
      case Some(k) =>
        assert s[..k + 1] == [s[0]] + s[1..][..k];
        Some(k + 1)
  }

  /**
   Cuts `s` at every occurrence of `sep`. The cut is made at each occurrence
   of the separator's first character, and fails when the characters that
   follow it do not complete the separator.
   */
  function Split(s: string, sep: string): Option<seq<string>>
    requires |sep| > 0
    decreases |s|
  {
    match IndexOf(s, sep[0])
    case None => Some([s])
    case Some(k) =>
      if k + |sep| <= |s| && s[k..k + |sep|] == sep then
        match Split(s[k + |sep|..], sep)
        case None => None
        case Some(rest) => Some([s[..k]] + rest)
      else None
  }

  /** The first occurrence of `c` in `p + q` is where `q` starts, when `p` lacks `c` and `q` starts with it. */
  lemma {:induction false} IndexOfAfterPrefix(p: string, q: string, c: char)
    requires c !in p
    requires |q| > 0 && q[0] == c
    ensures IndexOf(p + q, c) == Some(|p|)
  {
    if |p| > 0 {
      assert (p + q)[1..] == p[1..] + q;
      IndexOfAfterPrefix(p[1..], q, c);
    } else {
      assert p + q == q;
    }
  }

  /** Splitting a piece free of the separator's first character, then the separator, then more. */
  lemma SplitCons(p: string, sep: string, rest: string)
    requires |sep| > 0 && sep[0] !in p
    ensures Split(p + sep + rest, sep) ==
              match Split(rest, sep)
              case None => None
              case Some(parts) => Some([p] + parts)
  {
    var s := p + sep + rest;
    assert s == p + (sep + rest);
    IndexOfAfterPrefix(p, sep + rest, sep[0]);
    var k := |p|;
    assert s[k..k + |sep|] == sep;
    assert s[k + |sep|..] == rest;
    assert s[..k] == p;
  }

  /** Joining a part in front of at least one more puts the separator between them. */
  lemma JoinCons(p: string, rest: seq<string>, sep: string)
    requires |rest| > 0
    ensures Join([p] + rest, sep) == p + sep + Join(rest, sep)
  {
    assert ([p] + rest)[1..] == rest;
  }

  /** Splitting a join gives the parts back, when no part holds the separator's first character. */
  lemma {:induction false} SplitJoin(parts: seq<string>, sep: string)
    requires |sep| > 0 && |parts| > 0
    requires forall k :: 0 <= k < |parts| ==> sep[0] !in parts[k]
    ensures Split(Join(parts, sep), sep) == Some(parts)
  {
    if |parts| == 1 {
      assert Join(parts, sep) == parts[0];
      assert sep[0] !in parts[0];
      assert parts == [parts[0]];
    } else {
      var rest := parts[1..];
      assert parts == [parts[0]] + rest;
      JoinCons(parts[0], rest, sep);
      SplitCons(parts[0], sep, Join(rest, sep));
      SplitJoin(rest, sep);
    }
  }

  /** Whatever `Split` accepts is the join of the parts it returns, and those parts lack the separator's first character. */
  lemma {:induction false} JoinSplit(s: string, sep: string, parts: seq<string>)
    requires |sep| > 0
    requires Split(s, sep) == Some(parts)
    ensures |parts| > 0
    ensures forall k :: 0 <= k < |parts| ==> sep[0] !in parts[k]
    ensures Join(parts, sep) == s
    decreases |s|
  {
    match IndexOf(s, sep[0])
    case None =>
      assert parts == [s];
    case Some(k) =>
      assert k + |sep| <= |s| && s[k..k + |sep|] == sep;
      var piece, tail := s[..k], s[k + |sep|..];
      var rest := Split(tail, sep).value;
      assert parts == [piece] + rest;
      JoinSplit(tail, sep, rest);
      JoinCons(piece, rest, sep);
      assert s == piece + s[k..k + |sep|] + tail;
  }
}
