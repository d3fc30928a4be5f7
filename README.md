# Auth callback page, modelled in Dafny

A model of the auth-callback page of the nexus-tech site. The page is
`AuthCallbackPage` in `src/components/Auth/callback/page.tsx`. A user lands on
it after clicking a confirmation or magic link. It then:

1. recovers credentials from the URL (the auth client's native
   `getSessionFromUrl`, then the `access_token`, `refresh_token` and `type` query
   parameters, then the same three fields in the URL fragment);
2. establishes a session with `setSession` and reads the user with `getUser`;
3. reconciles the user's `profiles` row with the `name` and `email` query hints;
4. reports `loading`, `error` or `done` and redirects to `/profile`.

The project is organised as follows:

- `wrappers.dfy` holds `Option`.
- `url_params.dfy` (module `UrlParams`) holds `String.prototype.indexOf` for
  one character, which `parseHashTokens` uses to find the `#`. It also holds
  the part of `URLSearchParams` the page relies on: splitting, pair parsing
  and `get`, with a serializer and the round trip between the two.
- `js_string.dfy` (module `JsString`) is `String.prototype.trim`, over the
  ECMAScript WhiteSpace and LineTerminator code points.
- `link_tokens.dfy` (module `LinkTokens`) is `parseHashTokens` and the token
  triple.
- `callback_flow.dfy` (module `CallbackFlow`) describes what one run of
  `handleCallback` does as functions:
  - `Observe` reads the URL;
  - `Resolve` picks the credential source;
  - `EstablishSession` and `ObtainIdentity` cover the session steps;
  - `NameToStore` and `ProfileWrites` are the upsert rule;
  - `Run` and `Expected` give the whole outcome;
  - `Render` maps the status to the view.
- `callback_page.dfy` (module `CallbackPage`) is the page as a class. Its fields
  are the `status` and `error` state and logs of the `setSession` calls, the
  profile upserts and the redirects. `HandleCallback` is written step by step
  as the source is, and is proved to leave exactly what `Expected` describes.
- `callback_properties.dfy` (module `CallbackProperties`) proves what a run
  guarantees:
  - when `setSession` is called, and with which tokens;
  - which sources hide which;
  - the error messages;
  - the unmounted case;
  - the upsert rule and the shape of the stored name;
  - the end states and the rendered view.

Everything outside the page is an input of a run, an `Environment`:

- the query parameters and `window.location.href`;
- whether the auth client has `getSessionFromUrl`;
- the result of each awaited backend call, which returns a value or throws an
  exception whose `message` may be missing;
- whether the effect is still mounted when credentials are resolved;
- the result of the profile read.

A run that finds no credentials, or finds no user after a successful
`setSession`, is not treated as a failure. Whenever the run reaches
`src/components/Auth/callback/page.tsx:88` still mounted, it goes on to `done`
and redirects to `/profile`, and it skips reconciliation only when there is no
user id. `MountedContinueIsDone`, `NoCredentialsStillDone`, `NoUserStillDone`
and `NoHashNoQueryNoSession` state this behaviour.

## Model

| member | source | states |
|---|---|---|
| UrlParams.IndexOf | src/components/Auth/callback/page.tsx:24 | `indexOf` gives -1 exactly when the character is absent, and otherwise a position holding it with none before it |
| UrlParams.IndexOfFirst | src/components/Auth/callback/page.tsx:24 | any position of the character with none before it is the one `indexOf` returns |
| UrlParams.SplitPieces | src/components/Auth/callback/page.tsx:26 | splitting the query text on `&` gives at least one piece, and no piece contains `&` |
| UrlParams.JoinSplit | src/components/Auth/callback/page.tsx:26 | joining the pieces back with the separator gives the original text |
| UrlParams.SplitJoin | src/components/Auth/callback/page.tsx:26 | splitting separator-free pieces after joining them gives the same pieces |
| UrlParams.GetFirst | src/components/Auth/callback/page.tsx:28-30 | `get` is `null` exactly when no pair has the name, and otherwise is the value of the first pair that has it |
| UrlParams.GetAppend | src/components/Auth/callback/page.tsx:28-30 | `get` on two lists joined is `get` on the first list when it has the name, and `get` on the second otherwise |
| UrlParams.ParsePairText | src/components/Auth/callback/page.tsx:26 | a piece `name=value` whose name has no `=` parses back to that pair |
| UrlParams.ParsePiecesOfPairs | src/components/Auth/callback/page.tsx:26 | parsing the texts of pairs whose names contain no `=` gives those pairs back in order |
| UrlParams.ParseSerialize | src/components/Auth/callback/page.tsx:26 | parsing a serialized list of pairs gives the same list, for every list whose names contain neither `&` nor `=`, whose values contain no `&`, and whose first name does not start with `?` (a leading `?` is dropped by the parser) |
| JsString.LeadingIn | src/components/Auth/callback/page.tsx:110 | the count of leading white space: every counted character is white space, and the next one is not |
| JsString.TrailingIn | src/components/Auth/callback/page.tsx:110 | the count of trailing white space: every counted character is white space, and the one before is not |
| JsString.LeadingOf | src/components/Auth/callback/page.tsx:110 | white space followed by a non-white-space character has exactly that many leading white-space characters |
| JsString.TrailingOf | src/components/Auth/callback/page.tsx:110 | the mirror image of `LeadingOf` at the end of the string |
| JsString.TrimInUnique | src/components/Auth/callback/page.tsx:110 | trimming a core without removable edges, wrapped in removable characters, gives exactly the core |
| JsString.TrimUnique | src/components/Auth/callback/page.tsx:113 | `trim` of white space + core + white space is the core, when the core has no white space at either edge |
| JsString.TrimInShape | src/components/Auth/callback/page.tsx:110 | the trimmed text is a contiguous slice of the input, only removable characters lie outside it, and none lies at its edges |
| JsString.TrimShape | src/components/Auth/callback/page.tsx:113 | `trim` removes only white space, from both ends, and leaves none at either edge |
| JsString.TrimIdempotent | src/components/Auth/callback/page.tsx:113 | trimming twice is the same as trimming once |
| LinkTokens.FragmentShape | src/components/Auth/callback/page.tsx:24-25 | with no `#` the fragment is empty; otherwise it is a proper suffix of the URL that directly follows a `#` |
| LinkTokens.FragmentAfterFirstHash | src/components/Auth/callback/page.tsx:24-25 | the fragment is everything after the first `#`, even when later `#`s follow |
| LinkTokens.NoHashNoTokens | src/components/Auth/callback/page.tsx:22-32 | a URL without `#` yields no access token, no refresh token and no type |
| LinkTokens.HashTokensOfSerializedFragment | src/components/Auth/callback/page.tsx:22-32 | for a list whose names contain neither `&` nor `=`, whose values contain no `&` and whose first name does not start with `?`, a URL made of a `#`-free prefix, a `#` and that list serialized yields the first value of each of the three fields in the list |
| LinkTokens.TokensIgnoreUnrelatedPairs | src/components/Auth/callback/page.tsx:26-31 | pairs with other names placed before the tokens do not change the three fields read |
| CallbackPage.AuthCallbackPage.constructor | src/components/Auth/callback/page.tsx:16-17 | a fresh page is loading with no error, and no call or redirect has been made yet |
| CallbackPage.AuthCallbackPage.Fail | src/components/Auth/callback/page.tsx:129-133 | the outer `catch` stores the exception's message, or "Failed to process authentication callback.", and enters the error state |
| CallbackPage.AuthCallbackPage.SetSessionAndGetUser | src/components/Auth/callback/page.tsx:58-68 | logs one `setSession` call with the pair. A returned error stops the run with its message; an exception stops it with the caught message; otherwise it goes on with `getUser`'s user, leaving status and error unchanged |
| CallbackPage.AuthCallbackPage.ReconcileProfile | src/components/Auth/callback/page.tsx:91-124 | appends exactly the upserts of the upsert rule: none when the read threw, otherwise the trimmed name hint and the email hint when the hint is not blank and the existing name is missing, empty or "New User" |
| CallbackPage.AuthCallbackPage.ObtainUser | src/components/Auth/callback/page.tsx:39-86 | tries the native session, then the query triple, then the fragment triple, each only when the previous gave no user. It logs exactly the session calls of `SessionRequests` and ends stopped or with the user of `ObtainIdentity` |
| CallbackPage.AuthCallbackPage.HandleCallback | src/components/Auth/callback/page.tsx:34-133 | after one run, status and error are those of `Expected(env)`, and the session calls, upserts and redirects appended are exactly those of `Expected(env)` |
| CallbackProperties.SignupPairExact | src/components/Auth/callback/page.tsx:57 | the guard accepts exactly type "signup" with two non-empty tokens, and passes those tokens on |
| CallbackProperties.EmptyTokenIsAbsent | src/components/Auth/callback/page.tsx:57 | an empty access or refresh token is treated exactly as a missing one: no pair either way |
| CallbackProperties.SessionOnlyForSignupPair | src/components/Auth/callback/page.tsx:51-86 | `setSession` is called at most once, only with no native user, and only with a complete signup triple from the query, or from the fragment when the query has none; no call exactly when neither applies |
| CallbackProperties.IncompleteQueryTripleNotUsed | src/components/Auth/callback/page.tsx:57 | a query triple of another type or with a missing or empty token never reaches `setSession`; any session call then uses the fragment's triple |
| CallbackProperties.NativeUserSkipsFallbacks | src/components/Auth/callback/page.tsx:43-51 | a native user is the run's user, no `setSession` is made, and URL tokens, `setSession` and `getUser` results cannot change the outcome |
| CallbackProperties.QueryPairHidesFragment | src/components/Auth/callback/page.tsx:57-71 | with a complete query triple, the session call uses the query tokens and the fragment never affects the outcome |
| CallbackProperties.QueryLinkIgnoresHref | src/components/Auth/callback/page.tsx:53-71 | the same for the URL: with a complete query triple, changing `href` does not change the outcome |
| CallbackProperties.FragmentLinkSetsSession | src/components/Auth/callback/page.tsx:69-76 | with no native user and no complete query triple, a URL made of a `#`-free prefix, a `#` and a serialized list of pairs (names free of `&` and `=`, values free of `&`, first name not starting with `?`) whose fields form a signup triple makes one `setSession` call with exactly its tokens |
| CallbackProperties.NoHashNoQueryNoSession | src/components/Auth/callback/page.tsx:69-128 | with no native user, no complete query triple and no `#`, a mounted run makes no call, reaches `done` and redirects to `/profile` |
| CallbackProperties.SetSessionErrorStops | src/components/Auth/callback/page.tsx:62-66 | a `setSession` error ends in the error state with exactly its message, no upsert and no redirect; the view shows that message or "Unknown error." |
| CallbackProperties.CaughtExceptionMessage | src/components/Auth/callback/page.tsx:129-133 | an exception from the native extraction, `setSession` or `getUser` ends in the error state with its message or the generic one, and no upsert or redirect |
| CallbackProperties.SessionSuccessGivesUser | src/components/Auth/callback/page.tsx:67-68 | when `setSession` returns no error and `getUser` returns, the run goes on with `getUser`'s user or with none; a mounted run then ends in `done`, redirects, and issues exactly that user's upserts |
| CallbackProperties.NoUserStillDone | src/components/Auth/callback/page.tsx:88-128 | a mounted run without a user skips reconciliation, reaches `done` and redirects |
| CallbackProperties.MountedContinueIsDone | src/components/Auth/callback/page.tsx:88-128 | a run that reaches the mounted check still mounted and not stopped ends in `done` with no error, the `/profile` redirect and the success view, with or without a user |
| CallbackProperties.ErrorExactlyWhenStopped | src/components/Auth/callback/page.tsx:62-66 | the run ends in `error` exactly when the native step, `setSession` or `getUser` stopped it, and then with that step's message |
| CallbackProperties.NoCredentialsStillDone | src/components/Auth/callback/page.tsx:51-128 | a run still mounted at the mounted check that finds no credentials makes no session call, ends in `done`, redirects and shows the success view |
| CallbackProperties.UnmountedDoesNothingFurther | src/components/Auth/callback/page.tsx:88 | unmounted at resolution: no upsert, no redirect, never `done`; it stays `loading` with no error exactly when no error had stopped it first |
| CallbackProperties.WritesOfRun | src/components/Auth/callback/page.tsx:88-91 | a run's upserts are those of the obtained user, and only when the run is mounted and has a user |
| CallbackProperties.UpsertRule | src/components/Auth/callback/page.tsx:108-115 | at most one upsert for a user, and one with given id, name and email exactly when the id is non-empty, the read returned, the existing name is missing, empty or "New User", and the name is the non-blank trimmed hint with the email hint |
| CallbackProperties.ProfileWriteRule | src/components/Auth/callback/page.tsx:88-124 | the same upsert rule for a whole run: the run must also be mounted, and the user is the one the run obtained |
| CallbackProperties.HintsFromQuery | src/components/Auth/callback/page.tsx:93-94 | the name hint is absent exactly when no query pair is called `name`, and otherwise is the value of the first pair called `name`; the same for `email` |
| CallbackProperties.ExistingNameKept | src/components/Auth/callback/page.tsx:110 | an existing name other than empty and "New User" is never overwritten |
| CallbackProperties.StoredNameIsTrimmedHint | src/components/Auth/callback/page.tsx:110-113 | an upserted name is non-empty, has no white space at either edge, is a fixed point of `trim`, and is a slice of the hint with only white space around it |
| CallbackProperties.ProfileReadNeverChangesOutcome | src/components/Auth/callback/page.tsx:92-123 | whatever the profile read returns or throws, the status, error, session calls and redirects of the run are the same |
| CallbackProperties.WriteStoresStoredName | src/components/Auth/callback/page.tsx:108-115 | an upsert the rule issues stores the name `StoredName` gives for the hint and the existing name |
| CallbackProperties.NoWriteKeepsName | src/components/Auth/callback/page.tsx:108-110 | for a user with a non-empty id and a profile read that returned, a reconciliation that writes nothing leaves the existing name, which is what `StoredName` gives; with `WriteStoresStoredName`, `StoredName` is the profile name after reconciliation in that case |
| CallbackProperties.ReconcileIdempotent | src/components/Auth/callback/page.tsx:108-113 | reconciling again with the same hint leaves the stored name as it is |
| CallbackProperties.ReconcileTwiceKeepsName | src/components/Auth/callback/page.tsx:108-115 | for a user with a non-empty id and a read that returned, reconciling again against the name the first reconciliation left issues no upsert or one with that same name |
| CallbackProperties.OutcomeShape | src/components/Auth/callback/page.tsx:35-133 | `done` exactly when redirected to `/profile` and then with no error; any other end has no redirect or upsert; `loading` only when unmounted, with no error |
| CallbackProperties.RenderShowsError | src/components/Auth/callback/page.tsx:143-171 | the failure view shows a message exactly in the error state, and the message is the stored error or "Unknown error." when there is none |

## Left out

- The Supabase client is not modelled. `getSessionFromUrl`, `setSession`, `getUser` and the `profiles` select are inputs of a run, given by what each returns or throws.
- The profile select's `error` field is only logged, so it is not an input. A failed select is represented by its `data` being `null`, which is the read returning no name.
- The upsert's result is only logged, so it is not an input. An upsert is recorded when it is issued.
- React's effect lifecycle is not modelled, including the re-run on a change of `searchParams` and the async interleaving. The cleanup flag `mounted` is a single boolean read where the code reads it, after credentials are resolved.
- `console.warn` and `console.error` are left out because they change no state.
- The JSX markup is left out. `Render` keeps only which of the three views is shown and the error text.
- `URLSearchParams` is simplified, as `url_params.dfy` describes. Percent-decoding and `+`-to-space conversion are not modelled, so names and values are the raw text.
- The query parameters and `window.location.href` are independent inputs, although in a browser the query is part of `href`.
- `getSessionFromUrl`'s result is modelled only by the user it yields. A result object whose `user` is a falsy value other than `null` or `undefined` is not modelled.
- Error messages are modelled as strings when present. A thrown value whose `message` is not a string is not modelled.
- `src/components/Preloader.tsx`, `src/app/layout.tsx`, `src/app/confirm-email/page.tsx`, `src/app/profile/layout.tsx` and `src/utils/utils.ts` are not part of this model. They are presentation and helpers outside the callback flow.
