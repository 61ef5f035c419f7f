# gator: a Dafny model of the feed-ingestion core

gator is a command-line RSS aggregator. Users register and log in, add feeds,
and an aggregation pass fetches feeds and stores their items as posts in a
database. This project models and proves the core of that program:

- **Times** (`scrape.go`, `parseUnknownTime`): a publication date is
  normalised by trying six layouts in a fixed order. The first layout that
  parses wins. The parse for one layout is a function passed in as input.
- **Rss** (`rss.go`, `fetchFeed`): the `RSSFeed` and `RSSItem` records, and
  the steps of a fetch. Building the request, sending it, reading the body
  and decoding the XML each may fail. This is an abstract `Exchange` plus an
  uninterpreted `unmarshal`. After decoding, an in-place loop over an
  `array` unescapes the channel's and each item's title and description
  (`unescape` is uninterpreted).
- **Store**: the database as the ingestion pass sees it, as a `class` with
  these fields:
  - a feed table (`map`);
  - a post table (`seq`) whose URL column is unique;
  - ghost logs of every `CreatePost` and `MarkFeedFetched` call.

  Each call's failure, other than a uniqueness conflict, is an input.
- **Scrape** (`scrape.go`, `scrapeFeeds`): one pass goes like this:
  - it selects a feed and fetches it;
  - it tries one insert per item, in document order, where a duplicate key
    skips the item and any other insert error aborts the pass;
  - it marks the feed fetched.

  The method is proved against the pure function `Ingest`. Lemmas about
  `Ingest` give URL uniqueness, the URL set after a pass, the row count, and
  idempotence of a re-run.
- **AppState / Cli** (`commands.go`): the handler state, the user and feed
  tables, and the config file. Each kind of query (`GetUser`, `CreateUser`,
  `CreateFeed`) has its own failure input. The `commands` table is a `class` with a map
  field, with `Register` and `Run`. The handlers `handlerLogin`,
  `handlerRegister` and `handlerAddFeed` are functions from a state and a
  command to an `Outcome`. An `Outcome` is the state left behind plus the
  error returned.
- **Middleware** (`middleware.go`, `middlewareLoggedIn`): a combinator that
  looks up the current user, then calls the wrapped handler or returns
  success.

Three behaviours of the code that are easy to misread, and that the model
keeps:

- After an insert error other than a duplicate key, `scrapeFeeds` returns at
  once. The feed is **not** marked fetched on that path (scrape.go:79-81).
- `PublishedAt.Valid` is true on both branches, including when the date did
  not parse (scrape.go:54-58).
- An unknown command is fatal (`log.Fatal`), not a returned error
  (commands.go:145-146). It is modelled as the distinct result `Fatal`.

## Model

| member | source | states |
|---|---|---|
| Times.FirstLayout | scrape.go:24-28 | The index found is the first layout that parses. Every earlier layout fails. None comes back exactly when no layout parses. |
| Times.ParseUnknownTime | scrape.go:14-30 | The result is an error exactly when none of the six layouts parses the string, and the error carries the input string. Otherwise it is the value of the first layout that parses. |
| Times.LayoutOrder | scrape.go:15-28 | The result equals trying, in order: RFC3339, RFC1123, RFC1123Z, `2006-01-02 15:04:05`, `2006-01-02`, `02 Jan 2006 15:04`. The first success is returned, and the error comes only after all six fail. |
| Times.EarliestLayoutWins | scrape.go:24-27 | A string that parses as RFC3339 gets that reading, whatever later layouts would give. |
| Times.OnlyLayoutsConsulted | scrape.go:24-29 | Two parsers that agree on the six layouts for a string give the same result. The result depends only on the input and those six parses. |
| Rss.Retrieve | rss.go:31-60 | The decoded feed is returned exactly when building, sending, reading and decoding all succeed. On failure, the error names the first step that failed, every earlier step passed, and no feed is returned. |
| Rss.UnescapedItems | rss.go:65-68 | The items keep their number and order. Each title and description is `unescape` of the original. Link and pubDate are unchanged. |
| Rss.Unescaped | rss.go:62-68 | The channel title and description are unescaped, the channel link is unchanged, and the items are post-processed as above. |
| Rss.UnescapeItems | rss.go:65-68 | The in-place loop over the item array leaves it equal to the unescaped items of its old contents. Its invariant: items before `i` are done, items from `i` on are untouched. |
| Rss.FetchFeed | rss.go:28-71 | The result equals the failing step's error, or else the decoded feed with channel and items unescaped. |
| Store.CreatePostError | scrape.go:60-81 | An insert succeeds exactly when the call does not fail and the URL is new. It is rejected as a duplicate key exactly when the call does not fail and the URL is already stored. |
| Store.Marked | scrape.go:45 | Marking stamps the one feed with the time and leaves every other feed and the key set unchanged. |
| Store.Database.GetNextFeedToFetch | scrape.go:34-37 | The call's failure is returned as is. An empty table gives no rows. Otherwise the result is a feed of the table. |
| Store.Database.CreatePost | scrape.go:60-75 | The call is logged. The row is appended exactly when no error is returned. The URL column stays unique. |
| Store.Database.MarkFeedFetched | scrape.go:85-88 | The call is logged once. Without a failure the feed is stamped, and the call's failure is the error returned. |
| Scrape.PostFor | scrape.go:60-75 | The row carries the item's title, link and description (valid), the selected feed's ID, and the time of the pass. PublishedAt is always valid. |
| Scrape.PostForDate | scrape.go:53-59 | PublishedAt is the parsed date when a layout parses, and the current time when none does. It is valid in both cases. |
| Scrape.Params | scrape.go:52-75 | One insert is attempted per item; with `ParamsAt`, the i-th is the row for the i-th item. |
| Scrape.ParamsAt | scrape.go:52-75 | The i-th insert attempted is the row for the i-th item: one per item, in document order. |
| Scrape.UnparseableDateKept | scrape.go:53-59 | The insert for an item whose date no layout parses is still made, with the item's link, stamped with the current time and marked valid. |
| Scrape.Ingest | scrape.go:52-83 | The loop only appends to the post table. An abort happens at one of the attempted inserts and is never a duplicate-key error. |
| Scrape.AbortSticks | scrape.go:79-81 | Once an insert error aborts the loop, no later item is attempted or changes the result. |
| Scrape.IngestKeepsUnique | scrape.go:60-82 | The loop keeps the post URLs unique. |
| Scrape.IngestAddsOnlyNew | scrape.go:60-82 | Every row the loop adds is one of the attempted inserts, with a URL that was not stored before. |
| Scrape.IngestUrls | scrape.go:52-83 | After a loop that did not abort, the stored URLs are the old URLs plus every item link. |
| Scrape.IngestNothingNew | scrape.go:76-78 | Inserts whose URLs are all stored already add nothing, whatever other faults occur. |
| Scrape.ReingestAddsNothing | scrape.go:52-90 | Re-running on items whose links were stored by a complete pass adds no post. |
| Scrape.IngestCount | scrape.go:52-83 | A complete loop adds exactly one row per distinct item link that was not stored before. |
| Scrape.InsertItem | scrape.go:53-75 | One loop step normalises the date and attempts exactly the row `PostFor` describes. The error and new post table are `CreatePost`'s. |
| Scrape.InsertItems | scrape.go:52-83 | The post table after the loop is `Ingest`'s. The inserts attempted are the item rows in order, up to and including the one that aborted. The returned error is the aborting one or none. |
| Scrape.ScrapeFeeds | scrape.go:32-91 | Each branch is covered. A selection failure returns that error with nothing fetched, inserted or marked. A selected feed is fetched exactly once, from its URL. A fetch failure marks the feed exactly once, inserts nothing, and returns only the mark's error. A fetch success attempts every item in order, as `Ingest`. An aborting insert returns its error with no mark. A complete loop then marks the feed once and returns the mark's error. |
| AppState.GetUser | commands.go:23 | A user is found exactly when the query does not fail and the name is registered. The result is that user. |
| AppState.CreateUser | commands.go:44-52 | The user is added exactly when the query does not fail and the name is free. |
| AppState.CreateFeed | commands.go:105-112 | The feed is appended exactly when the query does not fail and its URL is not registered. |
| AppState.SetUser | internal/config/config.go:47-62 | Without a file failure, the config file becomes the new current user with the loaded database URL. The loaded config is untouched. |
| Cli.HandlerLogin | commands.go:18-35 | No arguments gives the usage error with nothing done. A failed lookup gives the wrapped error with the current user unchanged. It succeeds exactly when the user exists and the file write works, and then only the config file changes. |
| Cli.HandlerRegister | commands.go:37-60 | No arguments gives the usage error with no user created. It succeeds exactly when the name is free and the file write works. A failed create changes nothing. A successful create adds the user even if the file write then fails. |
| Cli.HandlerAddFeed | commands.go:99-116 | It needs two arguments, read unchecked, only once the current user has been found. It succeeds exactly when the current user is found, the feed insert does not fail and the URL is new, and then appends the feed owned by that user. Otherwise nothing changes and the failing query's error is returned: the lookup's, or else the insert's. |
| Cli.AddFeedLookupFirst | commands.go:100-103 | Without a current user, addfeed returns the lookup's error with nothing changed, whatever its arguments, none included. |
| Cli.Commands.Register | commands.go:151-153 | Afterwards the name maps to the new handler, replacing any earlier one. Every other name's entry is unchanged. |
| Cli.Commands.Run | commands.go:138-149 | A registered name's handler is applied to the same state and command, and its outcome is returned unchanged. An unknown name gives the fatal result "command not found: " + name. |
| Middleware.MiddlewareLoggedIn | middleware.go:9-17 | The wrapper looks up the user the loaded config names. If the lookup fails it returns success with the state unchanged. Otherwise it returns the wrapped handler's outcome on the same state and command and that user. The lemmas below restate each case for one call. |
| Middleware.LoggedInSwallowsLookupFailure | middleware.go:11-14 | When the current user's lookup fails, the wrapper returns success with the state unchanged, without consulting the handler. |
| Middleware.LoggedInPassesUser | middleware.go:11-15 | When the lookup succeeds, the wrapper returns exactly what the handler returns on the same state and command and the user named by the loaded config. |
| Middleware.SwallowedFailureLooksLikeSuccess | middleware.go:12-14 | With nobody logged in, a wrapped handler that always fails is reported as a success. |
| Middleware.MiddlewareLoggedInReporting | middleware.go:9-17 | The corrected wrapper: a failed lookup returns the lookup's error with the state unchanged; a successful one behaves as `MiddlewareLoggedIn`. |
| Middleware.ReportingSurfacesLookupFailure | middleware.go:12-14 | The corrected wrapper returns the lookup's error and changes nothing when the current user cannot be found. |
| Middleware.ReportingAgreesWhenLoggedIn | middleware.go:15 | When the current user exists, the corrected wrapper behaves exactly as the original. |

## Left out

- HTTP and XML: the client, the request's User-Agent header, `io.ReadAll`
  and `encoding/xml` are an abstract `Exchange`, which records how each step
  ended, plus an uninterpreted `unmarshal`. The deferred `Body.Close` with
  `log.Fatal` on failure is not modelled.
- `time.Parse` is a function parameter, one partial parse per layout. There
  is no calendar arithmetic.
- `time.Now()` is a parameter. One instant serves a whole pass, whereas the
  code reads the clock separately for `CreatedAt`, `UpdatedAt` and the
  fallback publish time.
- `html.UnescapeString` is uninterpreted.
- The database package (`internal/database`) is not part of this model:
  - the SQL queries are abstract tables;
  - errors are tags, so a duplicate key is the tag `DuplicateKey`, not a
    substring of the message;
  - which feed `GetNextFeedToFetch` picks is left open (any registered
    feed);
  - the IDs `uuid.New()` generates: a post has no ID in the model, and a
    new user's ID is the input `freshId`.
- The two halves of the model see separate slices of the database. The
  ingestion pass works on the `Store.Database` class (feeds by ID, posts).
  The handlers work on the value `AppState.Db` (users, feeds as
  `FeedRecord`). A feed added by `Cli.HandlerAddFeed` is therefore not
  linked to the feed table `Scrape.ScrapeFeeds` selects from.
- Query failures are inputs fixed per kind of query in a state, so two
  calls of the same query in one command meet the same failure.
- The config file's location, JSON encoding and reading are abstracted to a
  single `configFault` input. A config read at start-up is the `config`
  field.
- `Times.ParseUnknownTime`: the error holds the input string but not the
  `%q`-formatted message text.
- `Cli.HandlerLogin`: the `%w` wrapping is the `Wrapped` error constructor,
  not a message string.
- `Cli.HandlerAddFeed`: it requires two arguments once the current user has
  been found. The code then indexes `cmd.args[0]` and `cmd.args[1]`
  unchecked, and with fewer arguments Go panics there, which the model does
  not represent. When the lookup fails, the error is returned before any
  argument is read, and the model covers that case for any arguments.
- main.go is left out: command-line parsing, opening the database and the
  registration list. main.go registers `middlewareLoggedIn(handlerAddFeed)`
  although `handlerAddFeed` in commands.go takes no user. The model follows
  commands.go.
- `handlerReset`, `handlerGetUsers`, `handlerListFeeds` and `handlerGetFeed`
  are thin query-and-print wrappers and are not modelled.
- All `fmt.Printf` and `log` output.
- Scheduling, repetition and concurrency of aggregation passes: no loop
  calling `scrapeFeeds` exists in the files modelled.

## Findings

| source | as written | input that shows it | evidently intended | confidence | as-written member | corrected member |
|---|---|---|---|---|---|---|
| middleware.go:12-14 | when the current user cannot be looked up, the wrapper returns nil, so the command reports success without running | the config names a user who is not in the users table, and a command registered through the wrapper, such as `follow` (main.go:53), is run: its handler does not run and no error is returned | return the lookup's error, so the caller learns the command did not run | medium, not executed | Middleware.SwallowedFailureLooksLikeSuccess | Middleware.ReportingSurfacesLookupFailure |
