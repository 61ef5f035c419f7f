/**
 * middleware.go: middlewareLoggedIn turns a handler that needs the current
 * user into an ordinary handler, by looking the user up first.
 */
module Middleware {
  import opened Wrappers
  import opened AppState
  import opened Cli

  /** func(s *state, cmd command, user database.User) error */
  type UserHandler = (State, Command, User) --> Outcome

  /** The user the loaded configuration names as current. */
  function CurrentUser(s: State): Result<User, Store.DbError> {
    GetUser(s.db, s.config.currentUserName)
  }

  /**
   * middlewareLoggedIn, as written: when the lookup fails the wrapper returns
   * nil without calling the handler and without changing anything.
   */
  function MiddlewareLoggedIn(handler: UserHandler): (r: Handler)
    ensures forall s: State, cmd: Command | CurrentUser(s).Err? :: r.requires(s, cmd) && r(s, cmd) == Outcome(s, None)
    ensures forall s: State, cmd: Command | CurrentUser(s).Ok? && handler.requires(s, cmd, CurrentUser(s).value) ::
              r.requires(s, cmd) && r(s, cmd) == handler(s, cmd, CurrentUser(s).value)
  {
    (s: State, cmd: Command)
      requires CurrentUser(s).Ok? ==> handler.requires(s, cmd, CurrentUser(s).value)
      =>
      match CurrentUser(s)
      case Err(_) => Outcome(s, None)
      case Ok(user) => handler(s, cmd, user)
  }

  /** A failed lookup of the current user is swallowed: success, state unchanged, handler not consulted. */
  lemma LoggedInSwallowsLookupFailure(handler: UserHandler, s: State, cmd: Command)
    requires CurrentUser(s).Err?
    ensures MiddlewareLoggedIn(handler).requires(s, cmd)
    ensures MiddlewareLoggedIn(handler)(s, cmd) == Outcome(s, None)
  {
  }

  /** A successful lookup hands the same state and command, and the user found, to the handler, and returns its outcome. */
  lemma LoggedInPassesUser(handler: UserHandler, s: State, cmd: Command)
    requires CurrentUser(s).Ok? && handler.requires(s, cmd, CurrentUser(s).value)
    ensures MiddlewareLoggedIn(handler).requires(s, cmd)
    ensures MiddlewareLoggedIn(handler)(s, cmd) == handler(s, cmd, CurrentUser(s).value)
    ensures CurrentUser(s).value == s.db.users[s.config.currentUserName]
  {
  }

  /**
   * With nobody logged in, a wrapped handler that would always fail reports
   * success: the caller cannot tell that nothing ran.
   */
  lemma SwallowedFailureLooksLikeSuccess(db: Db, config: Config, saved: Config, env: Env, cmd: Command)
    requires config.currentUserName !in db.users
    ensures var s := State(db, config, saved, env);
            MiddlewareLoggedIn(AlwaysFails).requires(s, cmd)
            && MiddlewareLoggedIn(AlwaysFails)(s, cmd) == Outcome(s, None)
            && MiddlewareLoggedInReporting(AlwaysFails)(s, cmd).err.Some?
  {
    var s := State(db, config, saved, env);
    LoggedInSwallowsLookupFailure(AlwaysFails, s, cmd);
    ReportingSurfacesLookupFailure(AlwaysFails, s, cmd);
  }

  /** A handler that fails whatever it is given. */
  function AlwaysFails(s: State, cmd: Command, user: User): Outcome {
    Outcome(s, Some(Usage("always fails")))
  }

  /** The evident intent: a failed lookup of the current user is returned as the error. */
  function MiddlewareLoggedInReporting(handler: UserHandler): (r: Handler)
    ensures forall s: State, cmd: Command | CurrentUser(s).Err? ::
              r.requires(s, cmd) && r(s, cmd) == Outcome(s, Some(Query(CurrentUser(s).error)))
    ensures forall s: State, cmd: Command | CurrentUser(s).Ok? && handler.requires(s, cmd, CurrentUser(s).value) ::
              r.requires(s, cmd) && r(s, cmd) == handler(s, cmd, CurrentUser(s).value)
  {
    (s: State, cmd: Command)
      requires CurrentUser(s).Ok? ==> handler.requires(s, cmd, CurrentUser(s).value)
      =>
      match CurrentUser(s)
      case Err(e) => Outcome(s, Some(Query(e)))
      case Ok(user) => handler(s, cmd, user)
  }

  /** The reporting wrapper fails, with the lookup's error and nothing changed, exactly when nobody is logged in. */
  lemma ReportingSurfacesLookupFailure(handler: UserHandler, s: State, cmd: Command)
    requires CurrentUser(s).Err?
    ensures MiddlewareLoggedInReporting(handler).requires(s, cmd)
    ensures MiddlewareLoggedInReporting(handler)(s, cmd) == Outcome(s, Some(Query(CurrentUser(s).error)))
  {
  }

  /** Where the current user exists, the two wrappers behave the same. */
  lemma ReportingAgreesWhenLoggedIn(handler: UserHandler, s: State, cmd: Command)
    requires CurrentUser(s).Ok? && handler.requires(s, cmd, CurrentUser(s).value)
    ensures MiddlewareLoggedInReporting(handler)(s, cmd) == MiddlewareLoggedIn(handler)(s, cmd)
  {
  }
}
