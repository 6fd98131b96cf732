/** The authentication context (contexts/AuthContext.js): a `{user, loading, authError}` record
    driven by the initial session lookup, provider push events, the skip-auth testing bypass and
    sign-out. The browser-stored `skipAuth` flag is part of the state record. The provider is not
    modelled: its answers are inputs of the transitions. */
module Auth {
  import opened Wrappers
  import opened Text

  /** A signed-in identity (`id`, `email`, `user_metadata.full_name`). */
  datatype User = User(id: String, email: String, fullName: Option<String>)

  /** The identity the bypass fabricates. */
  const TestUser: User := User("test-user", "test@example.com", Some("Test User"))

  /** The provider state plus whether `localStorage.skipAuth` holds a truthy value. */
  datatype AuthState = AuthState(
    user: Option<User>,
    loading: bool,
    authError: Option<String>,
    skipFlag: bool)

  /** The state the provider mounts with; the stored flag is whatever the browser holds. */
  function Initial(skipFlag: bool): (s: AuthState)
    ensures s.user.None? && s.loading && s.authError.None?
    ensures s.skipFlag == skipFlag
  {
    AuthState(None, true, None, skipFlag)
  }

  /** A provider session; only its user matters here. */
  datatype ProviderSession = ProviderSession(user: User)

  /** The answer of `getSession()`: a session (possibly none) or an error with a message. */
  datatype Lookup = Found(session: Option<ProviderSession>) | LookupFailed(message: String)

  /** `session?.user ?? null`. */
  function SessionUser(session: Option<ProviderSession>): (u: Option<User>)
    ensures u.Some? <==> session.Some?
    ensures session.Some? ==> u.value == session.value.user
  {
    match session
    case Some(p) => Some(p.user)
    case None => None
  }

  /** getInitialSession's continuation. The bypass flag is not consulted, and nothing races the
      lookup. A failure records the message and keeps the user. */
  function ApplyLookup(s: AuthState, r: Lookup): (t: AuthState)
    ensures !t.loading && t.skipFlag == s.skipFlag
    ensures r.Found? ==> t.user == SessionUser(r.session) && t.authError == s.authError
    ensures r.LookupFailed? ==> t.user == s.user && t.authError == Some(r.message)
  {
    match r
    case Found(session) => s.(user := SessionUser(session), loading := false)
    case LookupFailed(message) => s.(authError := Some(message), loading := false)
  }

  /** The kinds of push event the provider emits. */
  datatype EventKind =
    | SignedIn | SignedOut | TokenRefreshed | UserUpdated | PasswordRecovery | InitialSession

  /** The onAuthStateChange listener: every event overwrites the user with the event's session
      user and ends loading; the event kind only feeds a log line. */
  function ApplyEvent(s: AuthState, kind: EventKind, session: Option<ProviderSession>): (t: AuthState)
    ensures t.user == SessionUser(session) && !t.loading
    ensures t.authError == s.authError && t.skipFlag == s.skipFlag
  {
    s.(user := SessionUser(session), loading := false)
  }

  /** The event kind has no effect on the state. */
  lemma EventKindIrrelevant(s: AuthState, k1: EventKind, k2: EventKind, session: Option<ProviderSession>)
    ensures ApplyEvent(s, k1, session) == ApplyEvent(s, k2, session)
  {
  }

  /** skipAuthentication: store the flag and install the test user, whatever the state held. */
  function SkipAuthentication(s: AuthState): (t: AuthState)
    ensures t.skipFlag && t.user == Some(TestUser) && !t.loading
    ensures t.authError == s.authError
  {
    s.(skipFlag := true, user := Some(TestUser), loading := false)
  }

  lemma SkipIdempotent(s: AuthState)
    ensures SkipAuthentication(SkipAuthentication(s)) == SkipAuthentication(s)
  {
  }

  /** What the provider's `signOut()` did; the context ignores it (errors are only logged). */
  datatype ProviderSignOut = ProviderSignedOut | ProviderRejected | ProviderThrew

  /** The effect of `signOut`: the new state, whether the provider was called, and whether the
      page is reloaded. */
  datatype SignOutStep = SignOutStep(state: AuthState, providerCalled: bool, reload: bool)

  /** signOut: under the bypass, drop the flag and the user and reload without calling the
      provider; otherwise call the provider and change nothing locally, whatever it answers. The
      provider's own SIGNED_OUT push event is a separate `ApplyEvent`. */
  function SignOut(s: AuthState, provider: ProviderSignOut): (r: SignOutStep)
    ensures s.skipFlag ==> !r.state.skipFlag && r.state.user.None? && !r.providerCalled && r.reload
    ensures s.skipFlag ==> r.state.loading == s.loading && r.state.authError == s.authError
    ensures !s.skipFlag ==> r.state == s && r.providerCalled && !r.reload
  {
    if s.skipFlag then SignOutStep(s.(skipFlag := false, user := None), false, true)
    else SignOutStep(s, true, false)
  }

  /** Sign-out undoes the bypass: after skip then sign-out the user is gone and the flag cleared. */
  lemma SignOutUndoesSkip(s: AuthState, provider: ProviderSignOut)
    ensures var r := SignOut(SkipAuthentication(s), provider);
      r.state == s.(user := None, loading := false, skipFlag := false) && !r.providerCalled
  {
  }

  /** Everything that can happen to the context after mount. */
  datatype AuthEvent =
    | LookupDone(lookup: Lookup)
    | Pushed(kind: EventKind, session: Option<ProviderSession>)
    | Skip
    | SignOutCalled(provider: ProviderSignOut)

  function Step(s: AuthState, e: AuthEvent): AuthState {
    match e
    case LookupDone(r) => ApplyLookup(s, r)
    case Pushed(k, session) => ApplyEvent(s, k, session)
    case Skip => SkipAuthentication(s)
    case SignOutCalled(p) => SignOut(s, p).state
  }

  /** The state after a sequence of events, in order. */
  function Run(s: AuthState, events: seq<AuthEvent>): AuthState
    decreases |events|
  {
    if |events| == 0 then s else Run(Step(s, events[0]), events[1..])
  }

  /** Events that end loading: all but sign-out. */
  predicate Settles(e: AuthEvent) {
    !e.SignOutCalled?
  }

  /** Loading ends at the first lookup answer, provider event or bypass, and never starts again:
      from the initial state, loading is still on exactly when no such event has happened. */
  lemma {:induction false} LoadingUntilSettled(s: AuthState, events: seq<AuthEvent>)
    ensures Run(s, events).loading <==> s.loading && forall i :: 0 <= i < |events| ==> !Settles(events[i])
    decreases |events|
  {
    if |events| > 0 {
      LoadingUntilSettled(Step(s, events[0]), events[1..]);
      assert forall i :: 1 <= i < |events| ==> events[i] == events[1..][i - 1];
    }
  }

  /** `authError` is only ever set by a failed lookup: starting without an error, an error is
      present exactly when some lookup failed. */
  lemma {:induction false} ErrorOnlyFromLookup(s: AuthState, events: seq<AuthEvent>)
    requires s.authError.None?
    ensures Run(s, events).authError.Some? <==>
              exists i :: 0 <= i < |events| && events[i].LookupDone? && events[i].lookup.LookupFailed?
    decreases |events|
  {
    if |events| > 0 {
      var e := events[0];
      var t := Step(s, e);
      assert forall i :: 1 <= i < |events| ==> events[i] == events[1..][i - 1];
      if e.LookupDone? && e.lookup.LookupFailed? {
        ErrorStaysOnce(t, events[1..]);
      } else {
        ErrorOnlyFromLookup(t, events[1..]);
        assert forall i :: 0 <= i < |events[1..]| ==> events[1..][i] == events[i + 1];
      }
    }
  }

  /** Once recorded, an error is never cleared. */
  lemma {:induction false} ErrorStaysOnce(s: AuthState, events: seq<AuthEvent>)
    requires s.authError.Some?
    ensures Run(s, events).authError.Some?
    decreases |events|
  {
    if |events| > 0 {
      ErrorStaysOnce(Step(s, events[0]), events[1..]);
    }
  }

  /** What the React context holds for a consumer: the default value `{}` when no provider is
      mounted, the provider's value otherwise. A falsy context cannot arise from this code. */
  datatype ContextValue = Falsy | EmptyDefault | Live(state: AuthState)

  /** The context a consumer sees, with or without an enclosing provider. */
  function ContextOf(provider: Option<AuthState>): ContextValue {
    match provider
    case Some(s) => Live(s)
    case None => EmptyDefault
  }

  /** What `useAuth()` hands to a consumer; missing properties read as `null`/`false`. */
  datatype AuthView = AuthView(user: Option<User>, loading: bool, authError: Option<String>, isFallback: bool)

  const FallbackError: String := "Auth context not available"

  /** useAuth: the fallback record only for a falsy context; otherwise the context as it is. */
  function UseAuth(ctx: ContextValue): (v: AuthView)
    ensures v.isFallback <==> ctx.Falsy?
    ensures ctx.Falsy? ==> v.user.None? && !v.loading && v.authError == Some(FallbackError)
    ensures ctx.EmptyDefault? ==> v.user.None? && !v.loading && v.authError.None?
    ensures ctx.Live? ==> v.user == ctx.state.user && v.loading == ctx.state.loading
                          && v.authError == ctx.state.authError
  {
    match ctx
    case Falsy => AuthView(None, false, Some(FallbackError), true)
    case EmptyDefault => AuthView(None, false, None, false)
    case Live(s) => AuthView(s.user, s.loading, s.authError, false)
  }

  /** The fallback branch is dead: the default context `{}` is truthy. */
  lemma UseAuthNeverFallsBack(provider: Option<AuthState>)
    ensures !UseAuth(ContextOf(provider)).isFallback
  {
  }
}
