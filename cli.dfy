/**
 * commands.go: the command table (a map from command name to handler, with
 * register and run) and the handlers whose argument checks the model keeps.
 * A Go handler changes the database and the config file as it runs; here a
 * handler is a function from the state and the command to an Outcome, the
 * state it leaves and the error it returns.
 */
module Cli {
  import opened Wrappers
  import opened Store
  import opened AppState

  /** func(*state, command) error; partial, since a handler may index arguments it never checked. */
  type Handler = (State, Command) --> Outcome

  /** handlerLogin: sets the config file's current user to an existing user. */
  function HandlerLogin(s: State, cmd: Command): (r: Outcome)
    ensures |cmd.args| == 0 ==> r == Outcome(s, Some(Usage("arguments cannot be empty")))
    ensures |cmd.args| > 0 && GetUser(s.db, cmd.args[0]).Err? ==>
              r == Outcome(s, Some(Wrapped("user does not exist", Query(GetUser(s.db, cmd.args[0]).error))))
    ensures r.err.None? <==> |cmd.args| > 0 && GetUser(s.db, cmd.args[0]).Ok? && s.env.configFault.None?
    ensures r.err.None? ==> r.state == s.(savedConfig := Config(s.config.dbUrl, cmd.args[0]))
    ensures r.err.Some? ==> r.state == s
  {
    if |cmd.args| < 1 then Outcome(s, Some(Usage("arguments cannot be empty")))
    else match GetUser(s.db, cmd.args[0])
      case Err(e) => Outcome(s, Some(Wrapped("user does not exist", Query(e))))
      case Ok(_) =>
        match SetUser(s, cmd.args[0])
        case Err(e) => Outcome(s, Some(e))
        case Ok(s') => Outcome(s', None)
  }

  /**
   * handlerRegister: creates the user, then makes it the config file's current
   * user. When the config write fails, the user stays created.
   */
  function HandlerRegister(s: State, cmd: Command): (r: Outcome)
    ensures |cmd.args| == 0 ==> r == Outcome(s, Some(Usage("not enough arguments passed")))
    ensures r.err.None? <==> |cmd.args| > 0 && s.db.faults.createUser.None? && cmd.args[0] !in s.db.users && s.env.configFault.None?
    ensures |cmd.args| > 0 && CreateUser(s.db, User(s.env.freshId, s.env.now, s.env.now, cmd.args[0])).Err? ==>
              r.state == s && r.err == Some(Query(CreateUser(s.db, User(s.env.freshId, s.env.now, s.env.now, cmd.args[0])).error))
    ensures |cmd.args| > 0 && CreateUser(s.db, User(s.env.freshId, s.env.now, s.env.now, cmd.args[0])).Ok? ==>
              r.state.db.users == s.db.users[cmd.args[0] := User(s.env.freshId, s.env.now, s.env.now, cmd.args[0])]
              && r.state.db.feeds == s.db.feeds
              && r.state.savedConfig == (if r.err.None? then Config(s.config.dbUrl, cmd.args[0]) else s.savedConfig)
    ensures r.state.config == s.config && r.state.env == s.env
  {
    if |cmd.args| < 1 then Outcome(s, Some(Usage("not enough arguments passed")))
    else
      var user := User(s.env.freshId, s.env.now, s.env.now, cmd.args[0]);
      match CreateUser(s.db, user)
      case Err(e) => Outcome(s, Some(Query(e)))
      case Ok(db) =>
        var s1 := s.(db := db);
        match SetUser(s1, cmd.args[0])
        case Err(e) => Outcome(s1, Some(e))
        case Ok(s2) => Outcome(s2, None)
  }

  /**
   * handlerAddFeed: adds a feed owned by the loaded config's current user. It
   * reads two arguments unchecked, but only once the user has been found.
   */
  function HandlerAddFeed(s: State, cmd: Command): (r: Outcome)
    requires GetUser(s.db, s.config.currentUserName).Ok? ==> |cmd.args| >= 2
    ensures r.err.None? <==> GetUser(s.db, s.config.currentUserName).Ok? && s.db.faults.createFeed.None?
                             && forall f :: f in s.db.feeds ==> f.url != cmd.args[1]
    ensures r.err.None? ==>
              r.state == s.(db := s.db.(feeds := s.db.feeds +
                             [FeedRecord(cmd.args[0], cmd.args[1], s.db.users[s.config.currentUserName].id)]))
    ensures r.err.Some? ==> r.state == s && r.err.value.Query?
    ensures GetUser(s.db, s.config.currentUserName).Err? ==>
              r.err == Some(Query(GetUser(s.db, s.config.currentUserName).error))
    ensures GetUser(s.db, s.config.currentUserName).Ok? ==>
              var feed := FeedRecord(cmd.args[0], cmd.args[1], GetUser(s.db, s.config.currentUserName).value.id);
              CreateFeed(s.db, feed).Err? ==> r.err == Some(Query(CreateFeed(s.db, feed).error))
  {
    match GetUser(s.db, s.config.currentUserName)
    case Err(e) => Outcome(s, Some(Query(e)))
    case Ok(user) =>
      match CreateFeed(s.db, FeedRecord(cmd.args[0], cmd.args[1], user.id))
      case Err(e) => Outcome(s, Some(Query(e)))
      case Ok(db) => Outcome(s.(db := db), None)
  }

  /** Without a current user, addfeed returns the lookup's error whatever its arguments, none included. */
  lemma AddFeedLookupFirst(s: State, cmd: Command)
    requires GetUser(s.db, s.config.currentUserName).Err?
    ensures HandlerAddFeed(s, cmd) == Outcome(s, Some(Query(GetUser(s.db, s.config.currentUserName).error)))
  {
  }

  /** What run ends with: the handler's outcome, or the process stopped by log.Fatal. */
  datatype RunResult = Returned(outcome: Outcome) | Fatal(message: string)

  /** The `commands` type: a table of handlers keyed by command name. */
  class Commands {
    var commandNames: map<string, Handler>

    constructor ()
      ensures commandNames == map[]
    {
      commandNames := map[];
    }

    /** register: afterwards `name` maps to `f`, replacing any earlier handler; every other entry is as it was. */
    method Register(name: string, f: Handler)
      modifies this
      ensures commandNames == old(commandNames)[name := f]
      ensures name in commandNames && commandNames[name] == f
      ensures forall n :: n != name ==> (n in commandNames <==> n in old(commandNames))
      ensures forall n :: n != name && n in old(commandNames) ==> commandNames[n] == old(commandNames)[n]
    {
      commandNames := commandNames[name := f];
    }

    /**
     * run: a registered command's handler is applied to the same state and
     * command and its outcome returned as it is; an unknown name is fatal.
     */
    method Run(s: State, cmd: Command) returns (r: RunResult)
      requires cmd.name in commandNames ==> commandNames[cmd.name].requires(s, cmd)
      ensures r.Fatal? <==> cmd.name !in commandNames
      ensures r.Fatal? ==> r.message == "command not found: " + cmd.name
      ensures cmd.name in commandNames ==> r == Returned(commandNames[cmd.name](s, cmd))
    {
      if cmd.name in commandNames {
        var o := commandNames[cmd.name](s, cmd);
        if o.err.Some? {
          return Returned(o);
        }
        r := Returned(Outcome(o.state, None));
      } else {
        r := Fatal("command not found: " + cmd.name);
      }
    }
  }
}
