/**
 * The state every command handler receives (`state` in main.go): the database
 * as the handlers see it, the configuration loaded at start-up, and the
 * configuration file, which SetUser rewrites. Clock, UUID generation and the
 * outcome of file I/O are inputs held in `env`; how queries fail is held in `db`.
 */
module AppState {
  import opened Wrappers
  import opened Times
  import opened Store

  datatype Config = Config(dbUrl: string, currentUserName: string)

  datatype User = User(id: Uuid, createdAt: Timestamp, updatedAt: Timestamp, name: string)

  /** A row of the feeds table as CreateFeed receives it. */
  datatype FeedRecord = FeedRecord(name: string, url: string, userId: Uuid)

  /** How each kind of query fails, other than by a missing row or a uniqueness conflict (None: it does not). */
  datatype QueryFaults = QueryFaults(getUser: Option<string>, createUser: Option<string>, createFeed: Option<string>)

  /** The user and feed tables, and the failures their queries meet. */
  datatype Db = Db(users: map<string, User>, feeds: seq<FeedRecord>, faults: QueryFaults)

  /** What the environment yields: time.Now(), uuid.New(), and how reading and writing the config file ends. */
  datatype Env = Env(now: Timestamp, freshId: Uuid, configFault: Option<string>)

  datatype State = State(db: Db, config: Config, savedConfig: Config, env: Env)

  /** The errors a handler returns. */
  datatype Error = Usage(message: string) | Query(dbError: DbError) | ConfigFile(message: string)
                 | Wrapped(context: string, inner: Error)

  datatype Command = Command(name: string, args: seq<string>)

  /** A handler's result: the state it leaves and the error it returns (None for nil). */
  datatype Outcome = Outcome(state: State, err: Option<Error>)

  /** GetUser: the user of that name, no rows when there is none. */
  function GetUser(db: Db, name: string): (r: Result<User, DbError>)
    ensures r.Ok? <==> db.faults.getUser.None? && name in db.users
    ensures r.Ok? ==> r.value == db.users[name]
  {
    if db.faults.getUser.Some? then Err(Other(db.faults.getUser.value))
    else if name in db.users then Ok(db.users[name])
    else Err(NoRows)
  }

  /** CreateUser: adds the user unless the query fails or the name is taken. */
  function CreateUser(db: Db, user: User): (r: Result<Db, DbError>)
    ensures r.Ok? <==> db.faults.createUser.None? && user.name !in db.users
    ensures r.Ok? ==> r.value == db.(users := db.users[user.name := user])
  {
    if db.faults.createUser.Some? then Err(Other(db.faults.createUser.value))
    else if user.name in db.users then Err(DuplicateKey)
    else Ok(db.(users := db.users[user.name := user]))
  }

  /** CreateFeed: appends the feed unless the query fails or its URL is registered already. */
  function CreateFeed(db: Db, feed: FeedRecord): (r: Result<Db, DbError>)
    ensures r.Ok? <==> db.faults.createFeed.None? && forall f :: f in db.feeds ==> f.url != feed.url
    ensures r.Ok? ==> r.value == db.(feeds := db.feeds + [feed])
  {
    if db.faults.createFeed.Some? then Err(Other(db.faults.createFeed.value))
    else if exists f :: f in db.feeds && f.url == feed.url then Err(DuplicateKey)
    else Ok(db.(feeds := db.feeds + [feed]))
  }

  /**
   * Config.SetUser: rereads the file and writes it back with the new current
   * user and the loaded database URL. The loaded configuration is not changed.
   */
  function SetUser(s: State, user: string): (r: Result<State, Error>)
    ensures r.Ok? <==> s.env.configFault.None?
    ensures r.Ok? ==> r.value == s.(savedConfig := Config(s.config.dbUrl, user))
  {
    if s.env.configFault.Some? then Err(ConfigFile(s.env.configFault.value))
    else Ok(s.(savedConfig := Config(s.config.dbUrl, user)))
  }
}
