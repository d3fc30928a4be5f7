/**
 * What one run of the auth-callback page guarantees. Most properties are
 * stated over `CallbackFlow.Run` on the observations of a run; the ones
 * about the URL are stated over `CallbackFlow.Expected` on a whole
 * environment.
 */
module CallbackProperties {
  import opened Wrappers
  import opened UrlParams
  import opened JsString
  import opened LinkTokens
  import opened CallbackFlow

  /** `t` is a signup link whose two tokens are exactly those of `p`, both non-empty. */
  ghost predicate SignupLinkFor(t: Tokens, p: TokenPair)
  {
    && t.linkType == Some("signup")
    && t.accessToken == Some(p.accessToken) && p.accessToken != ""
    && t.refreshToken == Some(p.refreshToken) && p.refreshToken != ""
  }

  /** `SignupPair` finds a pair exactly for a signup link with two non-empty tokens. */
  lemma SignupPairExact(t: Tokens, p: TokenPair)
    ensures SignupPair(t) == Some(p) <==> SignupLinkFor(t, p)
  {
  }

  /** An empty token counts as absent: the guard treats `""` exactly as a missing parameter. */
  lemma EmptyTokenIsAbsent(t: Tokens)
    ensures SignupPair(t.(accessToken := Some(""))) == SignupPair(t.(accessToken := None)) == None
    ensures SignupPair(t.(refreshToken := Some(""))) == SignupPair(t.(refreshToken := None)) == None
  {
  }

  /**
   * `setSession` is called at most once, only when no native user was found,
   * and only with the tokens of a complete signup triple: from the query,
   * or else from the fragment when the query has none.
   */
  lemma SessionOnlyForSignupPair(o: Observations)
    ensures |Run(o).sessionRequests| <= 1
    ensures forall p :: p in Run(o).sessionRequests ==>
      && o.native == Returned(None)
      && (|| SignupLinkFor(o.queryTokens, p)
          || (SignupPair(o.queryTokens).None? && SignupLinkFor(o.fragmentTokens, p)))
    ensures Run(o).sessionRequests == [] <==>
      || o.native != Returned(None)
      || (SignupPair(o.queryTokens).None? && SignupPair(o.fragmentTokens).None?)
  {
    assert Run(o).sessionRequests == SessionRequests(o);
  }

  /** A query triple with a missing or empty token, or of another type, never reaches `setSession`. */
  lemma IncompleteQueryTripleNotUsed(o: Observations)
    requires var t := o.queryTokens;
             t.linkType != Some("signup") || !Truthy(t.accessToken) || !Truthy(t.refreshToken)
    ensures !Resolve(o).QueryTokens?
    ensures forall p :: p in Run(o).sessionRequests ==> SignupLinkFor(o.fragmentTokens, p)
  {
    SessionOnlyForSignupPair(o);
  }

  /**
   * A user from the native extraction ends the credential search: no
   * `setSession`, and neither the URL tokens nor the session and user calls
   * can change anything.
   */
  lemma NativeUserSkipsFallbacks(o: Observations, u: User, query: Tokens, fragment: Tokens,
                                 setSession: Call<Option<AuthError>>, currentUser: Call<Option<User>>)
    requires o.native == Returned(Some(u))
    ensures ObtainedUser(o) == Some(u)
    ensures Run(o).sessionRequests == []
    ensures Run(o.(queryTokens := query, fragmentTokens := fragment,
                   setSession := setSession, currentUser := currentUser)) == Run(o)
  {
  }

  /** A complete query triple means the fragment is never consulted. */
  lemma QueryPairHidesFragment(o: Observations, fragment: Tokens)
    requires o.native == Returned(None) && SignupPair(o.queryTokens).Some?
    ensures Run(o).sessionRequests == [SignupPair(o.queryTokens).value]
    ensures Run(o.(fragmentTokens := fragment)) == Run(o)
  {
  }

  /** The same in terms of the URL: with a complete query triple, the `href` does not matter. */
  lemma QueryLinkIgnoresHref(env: Environment, href: string)
    requires NativeResult(env) == Returned(None)
    requires SignupPair(TokensOf(env.query)).Some?
    ensures Expected(env).sessionRequests == [SignupPair(TokensOf(env.query)).value]
    ensures Expected(env.(href := href)) == Expected(env)
  {
    var o := Observe(env);
    assert Observe(env.(href := href)) == o.(fragmentTokens := ParseHashTokens(href));
    QueryPairHidesFragment(o, ParseHashTokens(href));
  }

  /**
   * A signup link whose tokens are serialized in the fragment, with no
   * native user and no complete query triple, calls `setSession` with
   * exactly those tokens.
   */
  lemma FragmentLinkSetsSession(env: Environment, prefix: string, params: seq<Param>, p: TokenPair)
    requires NativeResult(env) == Returned(None)
    requires SignupPair(TokensOf(env.query)).None?
    requires '#' !in prefix && Serializable(params)
    requires env.href == prefix + "#" + Serialize(params)
    requires SignupLinkFor(TokensOf(params), p)
    ensures Expected(env).sessionRequests == [p]
  {
    HashTokensOfSerializedFragment(prefix, params);
    var o := Observe(env);
    assert o.fragmentTokens == TokensOf(params);
    FragmentPairUsed(o, p);
  }

  /** With no native user and no complete query triple, a signup fragment triple is the one sent to `setSession`. */
  lemma FragmentPairUsed(o: Observations, p: TokenPair)
    requires o.native == Returned(None) && SignupPair(o.queryTokens).None?
    requires SignupLinkFor(o.fragmentTokens, p)
    ensures Resolve(o) == FragmentTokens(p) && Run(o).sessionRequests == [p]
  {
  }

  /**
   * A URL with no `#`, no native user and no complete query triple has no
   * credentials: a mounted run still reaches `Done` and redirects.
   */
  lemma NoHashNoQueryNoSession(env: Environment)
    requires NativeResult(env) == Returned(None)
    requires SignupPair(TokensOf(env.query)).None?
    requires '#' !in env.href && env.mounted
    ensures Expected(env) == Outcome(Done, None, [], [], ["/profile"])
  {
    NoHashNoTokens(env.href);
    var o := Observe(env);
    assert o.fragmentTokens == Tokens(None, None, None);
    assert Resolve(o) == NoCredentials;
    NoCredentialsStillDone(o);
  }

  /** A `setSession` error stops the run with exactly its message: no reconciliation, no redirect. */
  lemma SetSessionErrorStops(o: Observations, e: AuthError)
    requires Resolve(o).QueryTokens? || Resolve(o).FragmentTokens?
    requires o.setSession == Returned(Some(e))
    ensures Run(o).status == Error && Run(o).error == e.message
    ensures Run(o).profileWrites == [] && Run(o).redirects == []
    ensures Render(Run(o).status, Run(o).error) == ActivationFailed(e.message.GetOr("Unknown error."))
  {
  }

  /**
   * An exception from the native extraction, `setSession` or `getUser`
   * leaves its message, or the generic one, and the error state.
   */
  lemma CaughtExceptionMessage(o: Observations, m: Option<string>)
    requires || o.native == Threw(m)
             || ((Resolve(o).QueryTokens? || Resolve(o).FragmentTokens?)
                 && (o.setSession == Threw(m) || (o.setSession == Returned(None) && o.currentUser == Threw(m))))
    ensures Run(o).status == Error
    ensures Run(o).error == Some(m.GetOr("Failed to process authentication callback."))
    ensures Run(o).profileWrites == [] && Run(o).redirects == []
  {
  }

  /**
   * A session set without error hands the run `getUser`'s result: it goes
   * on with that user, or with none, and a mounted run then reconciles that
   * user's profile, reaches `Done` and redirects.
   */
  lemma SessionSuccessGivesUser(o: Observations, u: Option<User>)
    requires Resolve(o).QueryTokens? || Resolve(o).FragmentTokens?
    requires o.setSession == Returned(None) && o.currentUser == Returned(u)
    ensures ObtainIdentity(o) == Continue(u) && ObtainedUser(o) == u
    ensures o.mounted ==> Run(o).status == Done && Run(o).redirects == ["/profile"]
    ensures o.mounted ==> Run(o).profileWrites == if u.Some? then ProfileWrites(o, u.value) else []
  {
  }

  /**
   * No user is not a failure: a mounted run without a user skips
   * reconciliation, reaches `Done` and redirects to the profile page.
   */
  lemma NoUserStillDone(o: Observations)
    requires o.mounted && ObtainIdentity(o) == Continue(None)
    ensures Run(o) == Outcome(Done, None, SessionRequests(o), [], ["/profile"])
  {
  }

  /**
   * A run that reaches the mounted check still mounted and was not stopped
   * always ends in `Done`, with no error and the redirect, whatever user it has.
   */
  lemma MountedContinueIsDone(o: Observations)
    requires o.mounted && ObtainIdentity(o).Continue?
    ensures Run(o).status == Done && Run(o).error == None && Run(o).redirects == ["/profile"]
    ensures Render(Run(o).status, Run(o).error) == Activated
  {
  }

  /** The run ends in the error state exactly when a credential or session step stopped it. */
  lemma ErrorExactlyWhenStopped(o: Observations)
    ensures Run(o).status == Error <==> ObtainIdentity(o).Stopped?
    ensures Run(o).status == Error ==> Run(o).error == ObtainIdentity(o).error
  {
  }

  /** No credentials at all: no `setSession`, `Done`, a redirect, and the success view. */
  lemma NoCredentialsStillDone(o: Observations)
    requires o.mounted && Resolve(o) == NoCredentials
    ensures Run(o) == Outcome(Done, None, [], [], ["/profile"])
    ensures Render(Run(o).status, Run(o).error) == Activated
  {
  }

  /**
   * Unmounted once credentials are resolved: no reconciliation, no status
   * change from the initial `Loading`, no redirect; only a run already
   * stopped by an error has left the loading state.
   */
  lemma UnmountedDoesNothingFurther(o: Observations)
    requires !o.mounted
    ensures Run(o).profileWrites == [] && Run(o).redirects == []
    ensures Run(o).status != Done
    ensures Run(o).status == Loading <==> ObtainIdentity(o).Continue?
    ensures Run(o).status == Loading ==> Run(o).error == None
  {
  }

  /** The profile writes of a run: those of the obtained user, when the run is mounted and has one. */
  lemma WritesOfRun(o: Observations)
    ensures Run(o).profileWrites ==
      if o.mounted && ObtainedUser(o).Some? then ProfileWrites(o, ObtainedUser(o).value) else []
  {
  }

  /** The upsert rule for one user, as reconciliation applies it. */
  lemma UpsertRule(o: Observations, user: User, w: ProfileWrite)
    ensures |ProfileWrites(o, user)| <= 1
    ensures w in ProfileWrites(o, user) <==>
      && user.id == w.id && w.id != ""
      && o.profileRead.Returned?
      && (o.profileRead.value == None || o.profileRead.value == Some("") || o.profileRead.value == Some("New User"))
      && o.nameHint.Some?
      && w.name == Trim(o.nameHint.value) && w.name != ""
      && w.email == o.emailHint
  {
    if user.id != "" && o.profileRead.Returned? {
      var existing := o.profileRead.value;
      assert (!Truthy(existing) || existing.value == PlaceholderName) <==>
        (existing == None || existing == Some("") || existing == Some("New User"));
    }
  }

  /**
   * The upsert rule: at most one upsert, and one with the user's id, the
   * trimmed `name` hint and the `email` hint exactly when the run reaches
   * reconciliation with a non-empty user id, the profile read returned,
   * the hint is not blank, and the existing name is missing, empty or the
   * placeholder.
   */
  lemma ProfileWriteRule(o: Observations, w: ProfileWrite)
    ensures |Run(o).profileWrites| <= 1
    ensures w in Run(o).profileWrites <==>
      && o.mounted
      && ObtainedUser(o).Some? && ObtainedUser(o).value.id == w.id && w.id != ""
      && o.profileRead.Returned?
      && (o.profileRead.value == None || o.profileRead.value == Some("") || o.profileRead.value == Some("New User"))
      && o.nameHint.Some?
      && w.name == Trim(o.nameHint.value) && w.name != ""
      && w.email == o.emailHint
  {
    WritesOfRun(o);
    if o.mounted && ObtainedUser(o).Some? {
      UpsertRule(o, ObtainedUser(o).value, w);
    }
  }

  /** The hints are the first `name` and `email` query parameters. */
  lemma HintsFromQuery(env: Environment)
    ensures var q, hint := env.query, Observe(env).nameHint;
            && (hint.None? <==> forall i :: 0 <= i < |q| ==> q[i].name != "name")
            && (hint.Some? ==> exists i :: 0 <= i < |q| && q[i] == Param("name", hint.value)
                                           && forall j :: 0 <= j < i ==> q[j].name != "name")
    ensures var q, hint := env.query, Observe(env).emailHint;
            && (hint.None? <==> forall i :: 0 <= i < |q| ==> q[i].name != "email")
            && (hint.Some? ==> exists i :: 0 <= i < |q| && q[i] == Param("email", hint.value)
                                           && forall j :: 0 <= j < i ==> q[j].name != "email")
  {
    GetFirst(env.query, "name");
    GetFirst(env.query, "email");
  }

  /** An existing name other than the empty string and the placeholder is never overwritten. */
  lemma ExistingNameKept(o: Observations, n: string)
    requires o.profileRead == Returned(Some(n)) && n != "" && n != "New User"
    ensures Run(o).profileWrites == []
  {
    if Run(o).profileWrites != [] {
      ProfileWriteRule(o, Run(o).profileWrites[0]);
    }
  }

  /** The stored name has no white space at either edge and is the hint minus surrounding white space. */
  lemma StoredNameIsTrimmedHint(o: Observations, w: ProfileWrite)
    requires w in Run(o).profileWrites
    ensures o.nameHint.Some?
    ensures w.name != "" && NoEdgeIn(w.name, Whitespace)
    ensures Trim(w.name) == w.name
    ensures var hint := o.nameHint.value;
            exists i, j :: 0 <= i <= j <= |hint| && w.name == hint[i..j]
                           && AllIn(hint[..i], Whitespace) && AllIn(hint[j..], Whitespace)
  {
    ProfileWriteRule(o, w);
    var hint := o.nameHint.value;
    assert w.name == Trim(hint);
    TrimShape(hint);
    TrimIdempotent(hint);
    var i := LeadingIn(hint, Whitespace);
    var j := i + |w.name|;
    assert w.name == hint[i..j];
  }

  /**
   * The profile read, whatever it returns or throws, never changes whether
   * the run succeeds, its error, its session calls or its redirect.
   */
  lemma ProfileReadNeverChangesOutcome(o: Observations, read: Call<Option<string>>)
    ensures var r, r' := Run(o), Run(o.(profileRead := read));
            r'.status == r.status && r'.error == r.error
            && r'.sessionRequests == r.sessionRequests && r'.redirects == r.redirects
  {
    assert Resolve(o.(profileRead := read)) == Resolve(o);
    assert ObtainIdentity(o.(profileRead := read)) == ObtainIdentity(o);
  }

  /** An upsert stores the name `StoredName` gives for the hint and the existing name. */
  lemma WriteStoresStoredName(o: Observations, user: User, w: ProfileWrite)
    requires w in ProfileWrites(o, user)
    ensures o.profileRead.Returned?
    ensures StoredName(o.nameHint, o.profileRead.value) == Some(w.name)
  {
  }

  /**
   * With a user id and a returned read, a reconciliation that writes nothing
   * leaves the existing name, which is what `StoredName` gives.
   */
  lemma NoWriteKeepsName(o: Observations, user: User)
    requires user.id != "" && o.profileRead.Returned? && ProfileWrites(o, user) == []
    ensures StoredName(o.nameHint, o.profileRead.value) == o.profileRead.value
  {
  }

  /**
   * Reconciling a second time, against the profile name the first
   * reconciliation left, writes nothing or writes that same name again.
   */
  lemma ReconcileTwiceKeepsName(o: Observations, user: User)
    requires user.id != "" && o.profileRead.Returned?
    ensures var after := StoredName(o.nameHint, o.profileRead.value);
            forall w :: w in ProfileWrites(o.(profileRead := Returned(after)), user) ==> Some(w.name) == after
  {
  }

  /** Reconciling twice with the same hint stores the same name as reconciling once. */
  lemma ReconcileIdempotent(hint: Option<string>, existing: Option<string>)
    ensures StoredName(hint, StoredName(hint, existing)) == StoredName(hint, existing)
  {
  }

  /** The end states: `Done` always with a redirect and no error, `Error` never with a redirect or an upsert. */
  lemma OutcomeShape(o: Observations)
    ensures Run(o).status == Done <==> Run(o).redirects == ["/profile"]
    ensures Run(o).status != Done ==> Run(o).redirects == [] && Run(o).profileWrites == []
    ensures Run(o).status == Done ==> Run(o).error == None
    ensures Run(o).status == Loading ==> !o.mounted && Run(o).error == None
  {
  }

  /** The error view shows the stored error, or a default when there is none. */
  lemma RenderShowsError(status: Status, error: Option<string>, message: string)
    ensures Render(status, error) == ActivationFailed(message) <==>
      status == Error && (error == Some(message) || (error == None && message == "Unknown error."))
  {
  }
}
