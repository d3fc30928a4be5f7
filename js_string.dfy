/**
 * JavaScript's `String.prototype.trim`. The trimming functions and their
 * lemmas take the set of removable characters as a parameter; `Trim` fixes
 * it to ECMAScript's white space and line terminators.
 */
module JsString {

  /** ECMAScript's WhiteSpace and LineTerminator code points, which `trim` removes. */
  const Whitespace: set<char> := {
    '\t', '\n', '\U{B}', '\U{C}', '\r', ' ', '\U{A0}', '\U{1680}',
    '\U{2000}', '\U{2001}', '\U{2002}', '\U{2003}', '\U{2004}', '\U{2005}',
    '\U{2006}', '\U{2007}', '\U{2008}', '\U{2009}', '\U{200A}',
    '\U{2028}', '\U{2029}', '\U{202F}', '\U{205F}', '\U{3000}', '\U{FEFF}'
  }

  /** Every character of `s` is in `ws`. */
  ghost predicate AllIn(s: string, ws: set<char>)
  {
    forall k :: 0 <= k < |s| ==> s[k] in ws
  }

  /** Neither the first nor the last character of `s` is in `ws`. */
  ghost predicate NoEdgeIn(s: string, ws: set<char>)
  {
    s == [] || (s[0] !in ws && s[|s| - 1] !in ws)
  }

  /** The number of leading characters of `s` that are in `ws`. */
  function LeadingIn(s: string, ws: set<char>): (n: nat)
    ensures n <= |s| && AllIn(s[..n], ws)
    ensures n == |s| || s[n] !in ws
  {
    if |s| > 0 && s[0] in ws then
      var n := LeadingIn(s[1..], ws);
      assert s[..n + 1] == [s[0]] + s[1..][..n];
      n + 1
    else 0
  }

  /** The number of trailing characters of `s` that are in `ws`. */
  function TrailingIn(s: string, ws: set<char>): (n: nat)
    ensures n <= |s| && AllIn(s[|s| - n..], ws)
    ensures n == |s| || s[|s| - 1 - n] !in ws
  {
    if |s| > 0 && s[|s| - 1] in ws then
      var n := TrailingIn(s[..|s| - 1], ws);
      assert s[|s| - 1 - n..] == s[..|s| - 1][|s| - 1 - n..] + [s[|s| - 1]];
      n + 1
    else 0
  }

  /** `s` without its leading and trailing characters in `ws`. */
  function TrimIn(s: string, ws: set<char>): (r: string)
  {
    var i := LeadingIn(s, ws);
    s[i..|s| - TrailingIn(s[i..], ws)]
  }

  /** `s.trim()`. */
  function Trim(s: string): (r: string)
  {
    TrimIn(s, Whitespace)
  }

  lemma {:induction false} LeadingOf(pre: string, rest: string, ws: set<char>)
    requires AllIn(pre, ws)
    requires rest == [] || rest[0] !in ws
    ensures LeadingIn(pre + rest, ws) == |pre|
  {
    if pre != [] {
      assert pre[0] in ws;
      assert (pre + rest)[1..] == pre[1..] + rest;
      LeadingOf(pre[1..], rest, ws);
    } else {
      assert pre + rest == rest;
    }
  }

  lemma {:induction false} TrailingOf(rest: string, post: string, ws: set<char>)
    requires AllIn(post, ws)
    requires rest == [] || rest[|rest| - 1] !in ws
    ensures TrailingIn(rest + post, ws) == |post|
  {
    if post != [] {
      var s := rest + post;
      assert s[|s| - 1] == post[|post| - 1] && post[|post| - 1] in ws;
      assert s[..|s| - 1] == rest + post[..|post| - 1];
      TrailingOf(rest, post[..|post| - 1], ws);
    } else {
      assert rest + post == rest;
    }
  }

  /**
   * Trimming characterised: a core with no removable character at either
   * edge, wrapped in removable characters on both sides, trims to exactly
   * that core.
   */
  lemma TrimInUnique(pre: string, core: string, post: string, ws: set<char>)
    requires AllIn(pre, ws) && AllIn(post, ws) && NoEdgeIn(core, ws)
    ensures TrimIn(pre + core + post, ws) == core
  {
    var s := pre + core + post;
    if core == [] {
      assert s == pre + post && AllIn(pre + post, ws);
      assert s == (pre + post) + [];
      LeadingOf(pre + post, [], ws);
      assert s[LeadingIn(s, ws)..] == [];
    } else {
      assert s == pre + (core + post);
      LeadingOf(pre, core + post, ws);
      assert s[|pre|..] == core + post;
      TrailingOf(core, post, ws);
    }
  }

  lemma TrimUnique(pre: string, core: string, post: string)
    requires AllIn(pre, Whitespace) && AllIn(post, Whitespace) && NoEdgeIn(core, Whitespace)
    ensures Trim(pre + core + post) == core
  {
    TrimInUnique(pre, core, post, Whitespace);
  }

  /** The trimmed text is the slice of `s` between the leading and the trailing removable characters. */
  lemma TrimInSlice(s: string, ws: set<char>)
    ensures var i := LeadingIn(s, ws); var j := i + |TrimIn(s, ws)|;
            j <= |s| && TrimIn(s, ws) == s[i..j]
  {
  }

  /**
   * Cutting `i` characters off the front of `s` and then `n` off the back,
   * where the first kept character and the last kept one (if any) are
   * outside `ws`, leaves a slice with no character of `ws` at its edges.
   */
  lemma CutEdges(s: string, ws: set<char>, i: nat, n: nat)
    requires i <= |s| && n <= |s| - i
    requires i == |s| || s[i] !in ws
    requires n == |s| - i || s[i..][|s| - i - 1 - n] !in ws
    ensures NoEdgeIn(s[i..|s| - n], ws)
  {
    var t := s[i..|s| - n];
    if t != [] {
      assert t[0] == s[i];
      assert t[|t| - 1] == s[i..][|s| - i - 1 - n];
    }
  }

  /** The last `n` characters of `s[i..]` are the last `n` characters of `s`. */
  lemma CutSuffix(s: string, ws: set<char>, i: nat, n: nat)
    requires i <= |s| && n <= |s| - i
    requires AllIn(s[i..][|s| - i - n..], ws)
    ensures AllIn(s[|s| - n..], ws)
  {
    assert s[i..][|s| - i - n..] == s[|s| - n..];
  }

  /** What trimming leaves starts and ends with a character outside `ws`. */
  lemma TrimInEdges(s: string, ws: set<char>)
    ensures NoEdgeIn(TrimIn(s, ws), ws)
  {
    var i := LeadingIn(s, ws);
    CutEdges(s, ws, i, TrailingIn(s[i..], ws));
  }

  /** Only characters of `ws` follow the trimmed slice. */
  lemma TrimInSuffix(s: string, ws: set<char>)
    ensures var i := LeadingIn(s, ws);
            AllIn(s[|s| - TrailingIn(s[i..], ws)..], ws)
  {
    var i := LeadingIn(s, ws);
    CutSuffix(s, ws, i, TrailingIn(s[i..], ws));
  }

  /** Only characters of `ws` lie before and after the trimmed slice. */
  lemma TrimInOutside(s: string, ws: set<char>)
    ensures var i := LeadingIn(s, ws); var j := i + |TrimIn(s, ws)|;
            j <= |s| && AllIn(s[..i], ws) && AllIn(s[j..], ws)
  {
    var i := LeadingIn(s, ws);
    var n := TrailingIn(s[i..], ws);
    TrimInSuffix(s, ws);
    assert i + |TrimIn(s, ws)| == |s| - n;
  }

  /** Trimming removes only characters of `ws`, from both ends, and leaves none at either edge. */
  lemma TrimInShape(s: string, ws: set<char>)
    ensures var i := LeadingIn(s, ws); var j := i + |TrimIn(s, ws)|;
            j <= |s| && TrimIn(s, ws) == s[i..j] && NoEdgeIn(TrimIn(s, ws), ws)
            && AllIn(s[..i], ws) && AllIn(s[j..], ws)
  {
    TrimInSlice(s, ws);
    TrimInEdges(s, ws);
    TrimInOutside(s, ws);
  }

  /** `trim` takes off only white space, from both ends, and leaves none at either edge. */
  lemma TrimShape(s: string)
    ensures var i := LeadingIn(s, Whitespace); var j := i + |Trim(s)|;
            j <= |s| && Trim(s) == s[i..j] && NoEdgeIn(Trim(s), Whitespace)
            && AllIn(s[..i], Whitespace) && AllIn(s[j..], Whitespace)
  {
    TrimInShape(s, Whitespace);
  }

  /** Trimming twice is trimming once. */
  lemma TrimIdempotent(s: string)
    ensures Trim(Trim(s)) == Trim(s)
  {
    var t := Trim(s);
    TrimInShape(s, Whitespace);
    assert [] + t + [] == t;
    TrimInUnique([], t, [], Whitespace);
  }
}
