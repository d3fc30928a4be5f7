/**
 * The three link fields the callback page reads, from the query string or
 * from the fragment of the current URL (`parseHashTokens`).
 */
module LinkTokens {
  import opened Wrappers
  import opened UrlParams

  /** `access_token`, `refresh_token` and `type` as `URLSearchParams.get` returns them. */
  datatype Tokens = Tokens(accessToken: Option<string>, refreshToken: Option<string>, linkType: Option<string>)

  function TokensOf(params: seq<Param>): (r: Tokens)
  {
    Tokens(Get(params, "access_token"), Get(params, "refresh_token"), Get(params, "type"))
  }

  /** The text after the first `#` of `href`, or the empty string when there is none. */
  function Fragment(href: string): (r: string)
  {
    var k := IndexOf(href, '#');
    if k == -1 then "" else href[k + 1..]
  }

  /** Without a `#` the fragment is empty; with one, it is a suffix of `href` that follows a `#`. */
  lemma FragmentShape(href: string)
    ensures '#' !in href ==> Fragment(href) == ""
    ensures '#' in href ==>
      var f := Fragment(href);
      |f| < |href| && href[|href| - |f|..] == f && href[|href| - |f| - 1] == '#'
  {
  }

  /** A `#` in `href` with none before it starts exactly the fragment. */
  lemma FragmentAfterFirstHash(prefix: string, fragment: string)
    requires '#' !in prefix
    ensures Fragment(prefix + "#" + fragment) == fragment
  {
    var href := prefix + "#" + fragment;
    assert href[..|prefix|] == prefix;
    IndexOfFirst(href, '#', |prefix|);
    assert href[|prefix| + 1..] == fragment;
  }

  /** `parseHashTokens(href)`: the three fields read from the fragment as a query string. */
  function ParseHashTokens(href: string): (r: Tokens)
  {
    TokensOf(Parse(Fragment(href)))
  }

  /** An `href` without `#` has an empty fragment, so none of the three fields is present. */
  lemma NoHashNoTokens(href: string)
    requires '#' !in href
    ensures ParseHashTokens(href) == Tokens(None, None, None)
  {
    assert Fragment(href) == "";
    assert Split("", '&') == [""];
  }

  /**
   * A URL whose fragment is a serialized list of pairs yields the first
   * value of each field in that list, whatever other pairs surround it and
   * whatever precedes the `#`.
   */
  lemma HashTokensOfSerializedFragment(prefix: string, params: seq<Param>)
    requires '#' !in prefix && Serializable(params)
    ensures ParseHashTokens(prefix + "#" + Serialize(params)) == TokensOf(params)
  {
    FragmentAfterFirstHash(prefix, Serialize(params));
    ParseSerialize(params);
  }

  /** Pairs under other names placed before the tokens do not change what is read. */
  lemma TokensIgnoreUnrelatedPairs(unrelated: seq<Param>, params: seq<Param>)
    requires forall i :: 0 <= i < |unrelated| ==> unrelated[i].name !in {"access_token", "refresh_token", "type"}
    ensures TokensOf(unrelated + params) == TokensOf(params)
  {
    GetFirst(unrelated, "access_token");
    GetFirst(unrelated, "refresh_token");
    GetFirst(unrelated, "type");
    GetAppend(unrelated, params, "access_token");
    GetAppend(unrelated, params, "refresh_token");
    GetAppend(unrelated, params, "type");
  }
}
