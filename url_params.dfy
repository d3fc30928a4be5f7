/**
 * A simplified `application/x-www-form-urlencoded` parser, the one behind
 * `URLSearchParams` (section 5.1 of the WHATWG URL Standard): a leading `?`
 * is dropped, the input is split on `&`, empty pieces are skipped, and each
 * piece is split at its first `=` into a name and a value (a piece without
 * `=` is a name with the empty value). Percent-decoding and `+`-to-space
 * conversion are not modelled.
 */
module UrlParams {
  import opened Wrappers

  /** `s.indexOf(c)`: the position of the first `c` in `s`, or -1. */
  function IndexOf(s: string, c: char): (r: int)
    ensures -1 <= r < |s|
    ensures r == -1 <==> c !in s
    ensures r >= 0 ==> s[r] == c && c !in s[..r]
  {
    if |s| == 0 then -1
    else if s[0] == c then 0
    else
      var k := IndexOf(s[1..], c);
      assert k >= 0 ==> s[..k + 1] == [s[0]] + s[1..][..k];
      if k == -1 then -1 else k + 1
  }

  /** Any position of `c` with no `c` before it is the one `IndexOf` finds. */
  lemma IndexOfFirst(s: string, c: char, k: nat)
    requires k < |s| && s[k] == c && c !in s[..k]
    ensures IndexOf(s, c) == k
  {
    assert s[..k + 1][k] == c;
  }

  /** The pieces glued back together with `sep` between neighbours. */
  function Join(pieces: seq<string>, sep: char): (r: string)
    requires |pieces| >= 1
  {
    if |pieces| == 1 then pieces[0] else pieces[0] + [sep] + Join(pieces[1..], sep)
  }

  /** `s.split(sep)`: the maximal `sep`-free pieces of `s`, in order. */
  function Split(s: string, sep: char): (r: seq<string>)
    decreases |s|
  {
    var k := IndexOf(s, sep);
    if k == -1 then [s] else [s[..k]] + Split(s[k + 1..], sep)
  }

  /** Splitting cuts `s` into at least one piece, and no piece holds the separator. */
  lemma {:induction false} SplitPieces(s: string, sep: char)
    ensures |Split(s, sep)| >= 1
    ensures forall i :: 0 <= i < |Split(s, sep)| ==> sep !in Split(s, sep)[i]
    decreases |s|
  {
    var k := IndexOf(s, sep);
    if k != -1 {
      var rest := Split(s[k + 1..], sep);
      SplitPieces(s[k + 1..], sep);
      var pieces := [s[..k]] + rest;
      assert Split(s, sep) == pieces;
      forall i | 0 <= i < |pieces|
        ensures sep !in pieces[i]
      {
        if i > 0 {
          assert pieces[i] == rest[i - 1];
        }
      }
    }
  }

  /** Joining a piece in front of at least one other puts one separator between them. */
  lemma JoinCons(head: string, rest: seq<string>, sep: char)
    requires |rest| >= 1
    ensures Join([head] + rest, sep) == head + [sep] + Join(rest, sep)
  {
    assert ([head] + rest)[1..] == rest;
  }

  /** A string is its part before position `k`, the character at `k`, and its part after. */
  lemma SliceAround(s: string, k: nat)
    requires k < |s|
    ensures s[..k] + [s[k]] + s[k + 1..] == s
  {
  }

  /** The pieces of a split join back into the split string. */
  lemma {:induction false} JoinSplit(s: string, sep: char)
    ensures |Split(s, sep)| >= 1 && Join(Split(s, sep), sep) == s
    decreases |s|
  {
    var k := IndexOf(s, sep);
    if k == -1 {
      assert Split(s, sep) == [s];
    } else {
      var head, tail := s[..k], s[k + 1..];
      var rest := Split(tail, sep);
      assert Split(s, sep) == [head] + rest;
      JoinSplit(tail, sep);
      calc {
        Join(Split(s, sep), sep);
        Join([head] + rest, sep);
        { JoinCons(head, rest, sep); }
        head + [sep] + Join(rest, sep);
        head + [sep] + tail;
        { SliceAround(s, k); }
        s;
      }
    }
  }

  /** Splitting undoes joining when no piece holds the separator. */
  lemma {:induction false} SplitJoin(pieces: seq<string>, sep: char)
    requires |pieces| >= 1
    requires forall i :: 0 <= i < |pieces| ==> sep !in pieces[i]
    ensures Split(Join(pieces, sep), sep) == pieces
  {
    var s := Join(pieces, sep);
    if |pieces| == 1 {
      assert IndexOf(s, sep) == -1;
    } else {
      var head := pieces[0];
      var rest := Join(pieces[1..], sep);
      assert s == head + [sep] + rest;
      assert s[..|head|] == head;
      IndexOfFirst(s, sep, |head|);
      assert s[|head| + 1..] == rest;
      SplitJoin(pieces[1..], sep);
    }
  }

  /** One name-value pair of a parsed query string. */
  datatype Param = Param(name: string, value: string)

  /** One non-empty piece: the name is what precedes the first `=`, the value what follows it. */
  function ParsePair(piece: string): (p: Param)
  {
    var k := IndexOf(piece, '=');
    if k == -1 then Param(piece, "") else Param(piece[..k], piece[k + 1..])
  }

  function StripQuestionMark(s: string): (r: string) {
    if |s| > 0 && s[0] == '?' then s[1..] else s
  }

  /** Parses each piece in order, skipping the empty ones. */
  function ParsePieces(pieces: seq<string>): (r: seq<Param>)
  {
    if pieces == [] then []
    else if pieces[0] == "" then ParsePieces(pieces[1..])
    else [ParsePair(pieces[0])] + ParsePieces(pieces[1..])
  }

  /** `new URLSearchParams(init)`: the list of name-value pairs of `init`. */
  function Parse(init: string): (r: seq<Param>)
  {
    ParsePieces(Split(StripQuestionMark(init), '&'))
  }

  /** `params.get(name)`: the value of the first pair called `name`, or `null`. */
  function Get(params: seq<Param>, name: string): (r: Option<string>)
  {
    if params == [] then None
    else if params[0].name == name then Some(params[0].value)
    else Get(params[1..], name)
  }

  /** `Get` finds nothing exactly when no pair has the name, and otherwise the value of the first pair that has it. */
  lemma {:induction false} GetFirst(params: seq<Param>, name: string)
    ensures Get(params, name).None? <==> forall i :: 0 <= i < |params| ==> params[i].name != name
    ensures Get(params, name).Some? ==>
      exists i :: 0 <= i < |params| && params[i] == Param(name, Get(params, name).value)
                  && forall j :: 0 <= j < i ==> params[j].name != name
  {
    if params != [] && params[0].name != name {
      var r := Get(params[1..], name);
      GetFirst(params[1..], name);
      assert forall j :: 1 <= j < |params| ==> params[j] == params[1..][j - 1];
      if r.Some? {
        var i :| 0 <= i < |params[1..]| && params[1..][i] == Param(name, r.value)
                 && forall j :: 0 <= j < i ==> params[1..][j].name != name;
        assert params[i + 1] == Param(name, r.value);
      }
    }
  }

  /** Pairs that come before the first `name` do not affect the lookup of `name`. */
  lemma {:induction false} GetAppend(a: seq<Param>, b: seq<Param>, name: string)
    ensures Get(a + b, name) == if Get(a, name).Some? then Get(a, name) else Get(b, name)
  {
    if a != [] {
      assert (a + b)[1..] == a[1..] + b;
      GetAppend(a[1..], b, name);
    } else {
      assert a + b == b;
    }
  }

  /** The text of one pair, `name=value`. */
  function PairText(p: Param): (r: string) {
    p.name + "=" + p.value
  }

  /** Pairs written back as a query string, `n1=v1&n2=v2&…`. */
  function Serialize(params: seq<Param>): (r: string)
  {
    if params == [] then "" else Join(seq(|params|, i requires 0 <= i < |params| => PairText(params[i])), '&')
  }

  /** The pairs that `Serialize` writes so that `Parse` reads them back unchanged. */
  ghost predicate Serializable(params: seq<Param>)
  {
    && (forall i :: 0 <= i < |params| ==>
          '&' !in params[i].name && '=' !in params[i].name && '&' !in params[i].value)
    && (|params| > 0 && |params[0].name| > 0 ==> params[0].name[0] != '?')
  }

  lemma ParsePairText(p: Param)
    requires '=' !in p.name
    ensures ParsePair(PairText(p)) == p
  {
    var t := PairText(p);
    assert t[..|p.name|] == p.name;
    IndexOfFirst(t, '=', |p.name|);
    assert t[|p.name| + 1..] == p.value;
  }

  lemma {:induction false} ParsePiecesOfPairs(params: seq<Param>)
    requires forall i :: 0 <= i < |params| ==> '=' !in params[i].name
    ensures ParsePieces(seq(|params|, i requires 0 <= i < |params| => PairText(params[i]))) == params
  {
    var pieces := seq(|params|, i requires 0 <= i < |params| => PairText(params[i]));
    if params != [] {
      assert pieces[0] == PairText(params[0]) && pieces[0] != "";
      ParsePairText(params[0]);
      assert pieces[1..] == seq(|params[1..]|, i requires 0 <= i < |params[1..]| => PairText(params[1..][i]));
      ParsePiecesOfPairs(params[1..]);
    }
  }

  /** Round trip: parsing a serialized list of pairs gives the same pairs back. */
  lemma ParseSerialize(params: seq<Param>)
    requires Serializable(params)
    ensures Parse(Serialize(params)) == params
  {
    if params == [] {
      assert Split("", '&') == [""];
    } else {
      var pieces := seq(|params|, i requires 0 <= i < |params| => PairText(params[i]));
      var s := Serialize(params);
      assert s[..|pieces[0]|] == pieces[0];
      assert StripQuestionMark(s) == s;
      forall i | 0 <= i < |pieces| ensures '&' !in pieces[i] {
        assert pieces[i] == params[i].name + "=" + params[i].value;
      }
      SplitJoin(pieces, '&');
      ParsePiecesOfPairs(params);
    }
  }
}
