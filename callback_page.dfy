/**
 * The callback page's state and its `handleCallback` effect, step by step:
 * the `user` variable is reassigned across the fallbacks, `status` and
 * `error` are set as the page sets them, and the backend calls and the
 * redirect are recorded in the order they are made.
 */
module CallbackPage {
  import opened Wrappers
  import opened UrlParams
  import JsString
  import opened LinkTokens
  import opened CallbackFlow

  class AuthCallbackPage {
    var status: Status
    var error: Option<string>
    /** Every `setSession` call made so far. */
    var sessionRequests: seq<TokenPair>
    /** Every `profiles` upsert issued so far. */
    var profileWrites: seq<ProfileWrite>
    /** Every route passed to `router.replace` so far. */
    var redirects: seq<string>

    /** A freshly mounted page: loading, no error, nothing called yet. */
    constructor ()
      ensures status == Loading && error == None
      ensures sessionRequests == [] && profileWrites == [] && redirects == []
    {
      status := Loading;
      error := None;
      sessionRequests := [];
      profileWrites := [];
      redirects := [];
    }

    /** The `catch` of the outer `try`: the exception's message, or the generic one. */
    method Fail(message: Option<string>)
      modifies this`status, this`error
      ensures status == Error && error == Some(CaughtMessage(message))
    {
      error := Some(message.GetOr(CallbackFailedMessage));
      status := Error;
    }

    /**
     * `setSession` with `pair`, then `getUser`. On a returned error or an
     * exception the page is put in the error state and `stopped` is set.
     */
    method SetSessionAndGetUser(pair: TokenPair, env: Environment) returns (user: Option<User>, stopped: bool)
      modifies this`status, this`error, this`sessionRequests
      ensures sessionRequests == old(sessionRequests) + [pair]
      ensures stopped <==> EstablishSession(Observe(env)).Stopped?
      ensures stopped ==> status == Error && error == EstablishSession(Observe(env)).error
      ensures !stopped ==> status == old(status) && error == old(error) && user == EstablishSession(Observe(env)).user
    {
      sessionRequests := sessionRequests + [pair];
      user, stopped := None, true;
      match env.setSession {
        case Threw(m) =>
          Fail(m);
          return;
        case Returned(Some(setErr)) =>
          error := setErr.message;
          status := Error;
          return;
        case Returned(None) =>
      }
      match env.currentUser {
        case Threw(m) =>
          Fail(m);
          return;
        case Returned(u) =>
          user, stopped := u, false;
      }
    }

    /** Reads the existing profile name and upserts the trimmed `name` hint when the rule allows it. */
    method ReconcileProfile(env: Environment, user: User)
      requires user.id != ""
      modifies this`profileWrites
      ensures profileWrites == old(profileWrites) + ProfileWrites(Observe(env), user)
    {
      var name := Get(env.query, "name");
      var email := Get(env.query, "email");
      match env.profileRead {
        case Threw(_) =>
          // the inner `catch` swallows it
        case Returned(existingName) =>
          if name.Some? && JsString.Trim(name.value) != ""
             && (!Truthy(existingName) || existingName.value == PlaceholderName)
          {
            profileWrites := profileWrites + [ProfileWrite(user.id, JsString.Trim(name.value), email)];
          }
      }
    }

    /**
     * The credential steps of `handleCallback`: the native session, then the
     * query tokens, then the fragment tokens, each tried only when the
     * previous one gave no user.
     */
    method ObtainUser(env: Environment) returns (user: Option<User>, stopped: bool)
      modifies this`status, this`error, this`sessionRequests
      ensures sessionRequests == old(sessionRequests) + SessionRequests(Observe(env))
      ensures stopped <==> ObtainIdentity(Observe(env)).Stopped?
      ensures stopped ==> status == Error && error == ObtainIdentity(Observe(env)).error
      ensures !stopped ==> status == old(status) && error == old(error) && user == ObtainIdentity(Observe(env)).user
    {
      ghost var o := Observe(env);
      user, stopped := None, false;
      if env.hasSessionFromUrl {
        match env.sessionFromUrl {
          case Threw(m) =>
            assert Resolve(o) == NativeFailed(m);
            Fail(m);
            stopped := true;
            return;
          case Returned(u) =>
            user := u;
        }
      }

      if user.None? {
        // query parameters first (older links), then the fragment
        var fromQuery := SignupPair(TokensOf(env.query));
        if fromQuery.Some? {
          assert Resolve(o) == QueryTokens(fromQuery.value);
          user, stopped := SetSessionAndGetUser(fromQuery.value, env);
        } else {
          var fromFragment := SignupPair(ParseHashTokens(env.href));
          if fromFragment.Some? {
            assert Resolve(o) == FragmentTokens(fromFragment.value);
            user, stopped := SetSessionAndGetUser(fromFragment.value, env);
          } else {
            assert Resolve(o) == NoCredentials;
          }
        }
      } else {
        assert Resolve(o) == NativeUser(user.value);
      }
    }

    /** One run of `handleCallback`. */
    method HandleCallback(env: Environment)
      modifies this
      ensures status == Expected(env).status && error == Expected(env).error
      ensures sessionRequests == old(sessionRequests) + Expected(env).sessionRequests
      ensures profileWrites == old(profileWrites) + Expected(env).profileWrites
      ensures redirects == old(redirects) + Expected(env).redirects
    {
      ghost var o := Observe(env);
      status := Loading;
      error := None;

      var user, stopped := ObtainUser(env);
      if stopped {
        assert Run(o) == Outcome(Error, ObtainIdentity(o).error, SessionRequests(o), [], []);
        return;
      }
      assert ObtainIdentity(o) == Continue(user);

      if !env.mounted {
        assert Run(o) == Outcome(Loading, None, SessionRequests(o), [], []);
        return;
      }

      if user.Some? && user.value.id != "" {
        ReconcileProfile(env, user.value);
      }
      assert Run(o) == Outcome(Done, None, SessionRequests(o),
                               if user.Some? then ProfileWrites(o, user.value) else [], [ProfileRoute]);

      status := Done;
      redirects := redirects + [ProfileRoute];
    }
  }
}
