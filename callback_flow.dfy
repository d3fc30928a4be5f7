/**
 * What one run of the auth-callback page's `handleCallback` does, as a
 * function of everything it observes: the URL, the results of the auth and
 * profile backend calls, and whether the view is still mounted when the
 * credentials have been resolved. The stages follow the page: resolve
 * credentials (native session, then query tokens, then fragment tokens),
 * set the session from a token pair, reconcile the profile name, report.
 */
module CallbackFlow {
  import opened Wrappers
  import opened UrlParams
  import opened JsString
  import opened LinkTokens

  /** The page's `status` state. */
  datatype Status = Loading | Error | Done

  /** A user as the auth backend reports it. */
  datatype User = User(id: string, email: Option<string>)

  /** An awaited backend call: it returns a value, or it rejects with an exception whose `message` may be missing. */
  datatype Call<T> = Returned(value: T) | Threw(message: Option<string>)

  /** The error object `setSession` may return. */
  datatype AuthError = AuthError(message: Option<string>)

  /** The arguments of one `setSession` call. */
  datatype TokenPair = TokenPair(accessToken: string, refreshToken: string)

  /** The row of one `profiles` upsert. */
  datatype ProfileWrite = ProfileWrite(id: string, name: string, email: Option<string>)

  /** Everything one run observes from outside the page. */
  datatype Environment = Environment(
    query: seq<Param>,                  // the parameters `useSearchParams` exposes
    href: string,                       // `window.location.href`
    hasSessionFromUrl: bool,            // whether the auth client exposes `getSessionFromUrl`
    sessionFromUrl: Call<Option<User>>, // the user in the session it extracts, if any
    setSession: Call<Option<AuthError>>,
    currentUser: Call<Option<User>>,    // `getUser`
    mounted: bool,                      // the liveness flag once credentials are resolved
    profileRead: Call<Option<string>>   // the `name` of the existing profile row, if any
  )

  /** What the flow's decisions depend on, with the URL already read. */
  datatype Observations = Observations(
    native: Call<Option<User>>,
    queryTokens: Tokens,
    fragmentTokens: Tokens,
    setSession: Call<Option<AuthError>>,
    currentUser: Call<Option<User>>,
    mounted: bool,
    profileRead: Call<Option<string>>,
    nameHint: Option<string>,
    emailHint: Option<string>
  )

  const SignupType := "signup"
  const PlaceholderName := "New User"
  const ProfileRoute := "/profile"
  const CallbackFailedMessage := "Failed to process authentication callback."
  const UnknownErrorMessage := "Unknown error."

  /** JavaScript truthiness of a `string | null`: present and not empty. */
  predicate Truthy(s: Option<string>) {
    s.Some? && s.value != ""
  }

  /** The token pair of a signup link: `type === "signup"` and both tokens truthy. */
  function SignupPair(t: Tokens): (r: Option<TokenPair>)
  {
    if t.linkType == Some(SignupType) && Truthy(t.accessToken) && Truthy(t.refreshToken)
    then Some(TokenPair(t.accessToken.value, t.refreshToken.value))
    else None
  }

  /** The message a caught exception leaves: its own, or the generic one. */
  function CaughtMessage(message: Option<string>): (r: string) {
    message.GetOr(CallbackFailedMessage)
  }

  /** Where the credentials of a run come from. */
  datatype Resolution =
    | NativeFailed(message: Option<string>)
    | NativeUser(user: User)
    | QueryTokens(pair: TokenPair)
    | FragmentTokens(pair: TokenPair)
    | NoCredentials

  /** The native extraction, as seen by a run: no user when the capability is missing. */
  function NativeResult(env: Environment): (r: Call<Option<User>>) {
    if env.hasSessionFromUrl then env.sessionFromUrl else Returned(None)
  }

  /** Reads the URL: the query and fragment token triples and the `name` and `email` hints. */
  function Observe(env: Environment): (r: Observations) {
    Observations(
      NativeResult(env), TokensOf(env.query), ParseHashTokens(env.href),
      env.setSession, env.currentUser, env.mounted, env.profileRead,
      Get(env.query, "name"), Get(env.query, "email"))
  }

  /** The first source that yields credentials: native session, then query, then fragment. */
  function Resolve(o: Observations): (r: Resolution)
  {
    match o.native
    case Threw(m) => NativeFailed(m)
    case Returned(Some(u)) => NativeUser(u)
    case Returned(None) =>
      var fromQuery := SignupPair(o.queryTokens);
      if fromQuery.Some? then QueryTokens(fromQuery.value)
      else
        var fromFragment := SignupPair(o.fragmentTokens);
        if fromFragment.Some? then FragmentTokens(fromFragment.value) else NoCredentials
  }

  /** The `setSession` calls a run makes: one for a resolved token pair, none otherwise. */
  function SessionRequests(o: Observations): (r: seq<TokenPair>) {
    match Resolve(o)
    case QueryTokens(p) => [p]
    case FragmentTokens(p) => [p]
    case _ => []
  }

  /** After resolution and session setup: the run has stopped with an error message, or goes on with or without a user. */
  datatype Identity = Stopped(error: Option<string>) | Continue(user: Option<User>)

  /** `setSession` with a token pair, then `getUser`. */
  function EstablishSession(o: Observations): (r: Identity) {
    match o.setSession
    case Threw(m) => Stopped(Some(CaughtMessage(m)))
    case Returned(Some(e)) => Stopped(e.message)
    case Returned(None) =>
      match o.currentUser
      case Threw(m) => Stopped(Some(CaughtMessage(m)))
      case Returned(u) => Continue(u)
  }

  function ObtainIdentity(o: Observations): (r: Identity) {
    match Resolve(o)
    case NativeFailed(m) => Stopped(Some(CaughtMessage(m)))
    case NativeUser(u) => Continue(Some(u))
    case QueryTokens(_) => EstablishSession(o)
    case FragmentTokens(_) => EstablishSession(o)
    case NoCredentials => Continue(None)
  }

  /** The user the run goes on with, if any. */
  function ObtainedUser(o: Observations): (r: Option<User>) {
    match ObtainIdentity(o)
    case Continue(u) => u
    case Stopped(_) => None
  }

  /**
   * The name to upsert given the `name` hint and the existing profile name:
   * the trimmed hint, when it is not blank and the existing name is missing,
   * empty or the placeholder.
   */
  function NameToStore(hint: Option<string>, existing: Option<string>): (r: Option<string>) {
    if hint.Some? && Trim(hint.value) != ""
       && (!Truthy(existing) || existing.value == PlaceholderName)
    then Some(Trim(hint.value))
    else None
  }

  /** The profile name after reconciliation: the one written, or the existing one. */
  function StoredName(hint: Option<string>, existing: Option<string>): (r: Option<string>) {
    match NameToStore(hint, existing)
    case Some(n) => Some(n)
    case None => existing
  }

  /** The upserts reconciliation issues for `user`: none when the id is empty or the read threw. */
  function ProfileWrites(o: Observations, user: User): (r: seq<ProfileWrite>) {
    if user.id == "" then []
    else
      match o.profileRead
      case Threw(_) => []
      case Returned(existing) =>
        match NameToStore(o.nameHint, existing)
        case None => []
        case Some(n) => [ProfileWrite(user.id, n, o.emailHint)]
  }

  /** Everything a run leaves behind: the page state and the calls it made. */
  datatype Outcome = Outcome(
    status: Status,
    error: Option<string>,
    sessionRequests: seq<TokenPair>,
    profileWrites: seq<ProfileWrite>,
    redirects: seq<string>)

  /** The outcome of one run, from what it observes. */
  function Run(o: Observations): (r: Outcome) {
    var requests := SessionRequests(o);
    match ObtainIdentity(o)
    case Stopped(e) => Outcome(Error, e, requests, [], [])
    case Continue(u) =>
      if !o.mounted then Outcome(Loading, None, requests, [], [])
      else Outcome(Done, None, requests, if u.Some? then ProfileWrites(o, u.value) else [], [ProfileRoute])
  }

  /** The outcome of one run in `env`. */
  function Expected(env: Environment): (r: Outcome) {
    Run(Observe(env))
  }

  /** What the page shows. */
  datatype View = Activating | Activated | ActivationFailed(message: string)

  function Render(status: Status, error: Option<string>): (r: View) {
    match status
    case Loading => Activating
    case Done => Activated
    case Error => ActivationFailed(error.GetOr(UnknownErrorMessage))
  }
}
