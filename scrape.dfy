/**
 * One ingestion pass of scrape.go (scrapeFeeds): select a feed, fetch it, try to
 * insert one post per item in document order (a duplicate URL is skipped, any
 * other insert error aborts), then mark the feed fetched. The clock, the network,
 * the date parser, the unescaper and the database's own failures are inputs.
 */
module Scrape {
  import opened Wrappers
  import opened Times
  import opened Rss
  import opened Store

  /** Everything a pass consults besides the database's tables. */
  datatype Env = Env(
    selectFault: Option<string>,             // failure of GetNextFeedToFetch
    fetch: string -> Exchange,               // how the GET of each URL goes
    unmarshal: Unmarshal,                    // encoding/xml
    unescape: Unescape,                      // html.UnescapeString
    parse: TimeParser,                       // time.Parse
    // failure of CreatePost other than a conflict; a function of the row, so two
    // identical rows meet the same failure (no lemma depends on this)
    insertFault: Post -> Option<string>,
    markFault: Option<string>,               // failure of MarkFeedFetched
    now: Timestamp)                          // time.Now()

  /** The row inserted for one item: its texts, the selected feed, and a publish time that is always valid. */
  function PostFor(item: RssItem, feedId: Uuid, env: Env): (p: Post)
    ensures p.title == item.title && p.url == item.link && p.feedId == feedId
    ensures p.description == NullString(item.description, true)
    ensures p.publishedAt.valid
    ensures p.createdAt == env.now && p.updatedAt == env.now
  {
    var pubTime := match ParseUnknownTime(env.parse, item.pubDate)
      case Ok(t) => t
      case Err(_) => env.now;
    Post(env.now, env.now, NullTime(pubTime, true), item.title, item.link,
         NullString(item.description, true), feedId)
  }

  /**
   * The publish time of an item's row is the normalised date when parseUnknownTime
   * succeeds and the time of the pass when it fails; it is marked valid either way.
   */
  lemma PostForDate(item: RssItem, feedId: Uuid, env: Env)
    ensures ParseUnknownTime(env.parse, item.pubDate).Ok? ==>
              PostFor(item, feedId, env).publishedAt == NullTime(ParseUnknownTime(env.parse, item.pubDate).value, true)
    ensures ParseUnknownTime(env.parse, item.pubDate).Err? ==>
              PostFor(item, feedId, env).publishedAt == NullTime(env.now, true)
  {
  }

  /** The insert attempted for each item, in document order. */
  function Params(items: seq<RssItem>, feedId: Uuid, env: Env): (ps: seq<Post>)
    ensures |ps| == |items|
    decreases |items|
  {
    if items == [] then []
    else Params(items[..|items| - 1], feedId, env) + [PostFor(items[|items| - 1], feedId, env)]
  }

  lemma {:induction false} ParamsAt(items: seq<RssItem>, i: nat, feedId: Uuid, env: Env)
    requires i < |items|
    ensures Params(items, feedId, env)[i] == PostFor(items[i], feedId, env)
    decreases |items|
  {
    if i < |items| - 1 {
      var front := items[..|items| - 1];
      ParamsAt(front, i, feedId, env);
    }
  }

  /** Where the item loop stands: still going with the post table so far, or stopped by an insert error. */
  datatype Progress = Running(posts: seq<Post>) | Aborted(posts: seq<Post>, error: DbError, attempted: nat)

  type Faults = Post -> Option<string>

  /**
   * The item loop after its first `n` inserts, as a function of the post table
   * before it: each insert either adds its row, is skipped as a duplicate, or
   * stops the loop with its error.
   */
  function Ingest(posts0: seq<Post>, ps: seq<Post>, n: nat, fault: Faults): (g: Progress)
    requires n <= |ps|
    ensures posts0 <= g.posts
    ensures g.Aborted? ==> 1 <= g.attempted <= n && g.error != DuplicateKey
  {
    if n == 0 then Running(posts0)
    else
      match Ingest(posts0, ps, n - 1, fault)
      case Aborted(posts, e, k) => Aborted(posts, e, k)
      case Running(posts) =>
        var p := ps[n - 1];
        match CreatePostError(posts, p, fault(p))
        case None => Running(posts + [p])
        case Some(e) => if e == DuplicateKey then Running(posts) else Aborted(posts, e, n)
  }

  /** One more insert: the loop's progress after `n + 1` inserts, from its progress after `n`. */
  lemma IngestStep(posts0: seq<Post>, ps: seq<Post>, n: nat, fault: Faults, posts: seq<Post>)
    requires n < |ps| && Ingest(posts0, ps, n, fault) == Running(posts)
    ensures CreatePostError(posts, ps[n], fault(ps[n])).None? ==> Ingest(posts0, ps, n + 1, fault) == Running(posts + [ps[n]])
    ensures CreatePostError(posts, ps[n], fault(ps[n])) == Some(DuplicateKey) ==> Ingest(posts0, ps, n + 1, fault) == Running(posts)
    ensures CreatePostError(posts, ps[n], fault(ps[n])).Some? && CreatePostError(posts, ps[n], fault(ps[n])) != Some(DuplicateKey) ==>
              Ingest(posts0, ps, n + 1, fault) == Aborted(posts, CreatePostError(posts, ps[n], fault(ps[n])).value, n + 1)
  {
  }

  /** One turn of the item loop, from the progress and trace before the insert to those after it. */
  lemma LoopStep(posts0: seq<Post>, ps: seq<Post>, i: nat, fault: Faults, attempts0: seq<Post>,
                 posts: seq<Post>, attempts: seq<Post>, e: Option<DbError>, posts': seq<Post>, attempts': seq<Post>)
    requires i < |ps| && Ingest(posts0, ps, i, fault) == Running(posts) && attempts == attempts0 + ps[..i]
    requires e == CreatePostError(posts, ps[i], fault(ps[i]))
    requires posts' == (if e.None? then posts + [ps[i]] else posts) && attempts' == attempts + [ps[i]]
    ensures attempts' == attempts0 + ps[..i + 1]
    ensures e.Some? && e.value != DuplicateKey ==> Ingest(posts0, ps, |ps|, fault) == Aborted(posts', e.value, i + 1)
    ensures !(e.Some? && e.value != DuplicateKey) ==> Ingest(posts0, ps, i + 1, fault) == Running(posts')
  {
    IngestStep(posts0, ps, i, fault, posts);
    PrefixSnoc(ps, i);
    if e.Some? && e.value != DuplicateKey {
      AbortSticks(posts0, ps, i + 1, |ps|, fault);
    }
  }

  lemma PrefixSnoc<T>(s: seq<T>, i: nat)
    requires i < |s|
    ensures s[..i + 1] == s[..i] + [s[i]]
  {
  }

  /** How many inserts the loop over `n` items attempted. */
  function Attempted(g: Progress, n: nat): nat {
    if g.Running? then n else g.attempted
  }

  /** Once the loop has stopped, the later items change nothing. */
  lemma {:induction false} AbortSticks(posts0: seq<Post>, ps: seq<Post>, k: nat, n: nat, fault: Faults)
    requires k <= n <= |ps|
    requires Ingest(posts0, ps, k, fault).Aborted?
    ensures Ingest(posts0, ps, n, fault) == Ingest(posts0, ps, k, fault)
    decreases n - k
  {
    if k < n {
      AbortSticks(posts0, ps, k, n - 1, fault);
    }
  }

  /** The loop keeps the URL column unique. */
  lemma {:induction false} IngestKeepsUnique(posts0: seq<Post>, ps: seq<Post>, n: nat, fault: Faults)
    requires n <= |ps| && UniqueUrls(posts0)
    ensures UniqueUrls(Ingest(posts0, ps, n, fault).posts)
  {
    if n > 0 {
      IngestKeepsUnique(posts0, ps, n - 1, fault);
    }
  }

  /** Appending a row adds its URL to the URLs of a table. */
  lemma UrlsOfSnoc(posts: seq<Post>, p: Post)
    ensures UrlsOf(posts + [p]) == UrlsOf(posts) + {p.url}
  {
    var all := posts + [p];
    forall q | q in all ensures q in posts || q == p {
      var i :| 0 <= i < |all| && all[i] == q;
      if i < |posts| {
        assert posts[i] == q;
      }
    }
    assert p == all[|posts|];
    forall q | q in posts ensures q in all {
      var i :| 0 <= i < |posts| && posts[i] == q;
      assert all[i] == q;
    }
  }

  /** A table that extends another has at least its URLs. */
  lemma PrefixUrls(a: seq<Post>, b: seq<Post>)
    requires a <= b
    ensures UrlsOf(a) <= UrlsOf(b)
  {
    forall p | p in a ensures p in b {
      var i :| 0 <= i < |a| && a[i] == p;
      assert b[i] == p;
    }
  }

  /** Every row the loop adds is one of its first `n` inserts, with a URL that was not stored before. */
  lemma {:induction false} IngestAddsOnlyNew(posts0: seq<Post>, ps: seq<Post>, n: nat, fault: Faults)
    requires n <= |ps|
    ensures forall p :: p in Ingest(posts0, ps, n, fault).posts[|posts0|..] ==> p in ps[..n] && p.url !in UrlsOf(posts0)
  {
    if n > 0 {
      IngestAddsOnlyNew(posts0, ps, n - 1, fault);
      var g := Ingest(posts0, ps, n - 1, fault);
      var h := Ingest(posts0, ps, n, fault);
      assert ps[..n] == ps[..n - 1] + [ps[n - 1]];
      forall p | p in h.posts[|posts0|..] ensures p in ps[..n] && p.url !in UrlsOf(posts0) {
        if g.Running? && h.posts == g.posts + [ps[n - 1]] && p == ps[n - 1] {
          assert p.url !in UrlsOf(g.posts);
          PrefixUrls(posts0, g.posts);
        } else {
          assert h.posts == g.posts || h.posts == g.posts + [ps[n - 1]];
          assert p in g.posts[|posts0|..];
        }
      }
    }
  }

  /** A loop that has not aborted leaves exactly the old URLs plus the link of every item it passed. */
  lemma {:induction false} IngestUrls(posts0: seq<Post>, ps: seq<Post>, n: nat, fault: Faults)
    requires n <= |ps| && Ingest(posts0, ps, n, fault).Running?
    ensures UrlsOf(Ingest(posts0, ps, n, fault).posts) == UrlsOf(posts0) + UrlsOf(ps[..n])
  {
    if n > 0 {
      var p := ps[n - 1];
      IngestUrls(posts0, ps, n - 1, fault);
      assert ps[..n] == ps[..n - 1] + [p];
      UrlsOfSnoc(ps[..n - 1], p);
      var g := Ingest(posts0, ps, n - 1, fault);
      var h := Ingest(posts0, ps, n, fault);
      if h.posts == g.posts + [p] {
        UrlsOfSnoc(g.posts, p);
      } else {
        assert p.url in UrlsOf(g.posts);
      }
    } else {
      assert ps[..0] == [];
    }
  }

  /** Inserts whose URLs are all stored already add nothing, whatever else fails. */
  lemma {:induction false} IngestNothingNew(posts0: seq<Post>, ps: seq<Post>, n: nat, fault: Faults)
    requires n <= |ps|
    requires forall i :: 0 <= i < n ==> ps[i].url in UrlsOf(posts0)
    ensures Ingest(posts0, ps, n, fault).posts == posts0
  {
    if n > 0 {
      IngestNothingNew(posts0, ps, n - 1, fault);
    }
  }

  /** Re-running a completed loop on items whose links it has stored adds no post. */
  lemma ReingestAddsNothing(posts0: seq<Post>, ps: seq<Post>, again: seq<Post>, fault: Faults, fault': Faults)
    requires Ingest(posts0, ps, |ps|, fault).Running?
    requires UrlsOf(again) <= UrlsOf(ps)
    ensures var posts := Ingest(posts0, ps, |ps|, fault).posts;
            Ingest(posts, again, |again|, fault').posts == posts
  {
    var g := Ingest(posts0, ps, |ps|, fault);
    IngestUrls(posts0, ps, |ps|, fault);
    assert ps[..|ps|] == ps;
    forall i | 0 <= i < |again| ensures again[i].url in UrlsOf(g.posts) {
      assert again[i] in again;
      assert again[i].url in UrlsOf(again);
    }
    IngestNothingNew(g.posts, again, |again|, fault');
  }

  /** A table whose URLs are unique holds as many URLs as rows. */
  lemma {:induction false} UniqueUrlsCount(posts: seq<Post>)
    requires UniqueUrls(posts)
    ensures |UrlsOf(posts)| == |posts|
    decreases |posts|
  {
    if posts != [] {
      var front := posts[..|posts| - 1];
      var p := posts[|posts| - 1];
      assert posts == front + [p];
      forall i, j | 0 <= i < j < |front| ensures front[i].url != front[j].url {
        assert front[i] == posts[i] && front[j] == posts[j];
      }
      UniqueUrlsCount(front);
      UrlsOfSnoc(front, p);
      forall q | q in front ensures q.url != p.url {
        var i :| 0 <= i < |front| && front[i] == q;
        assert posts[i] == q;
      }
    }
  }

  /** A completed loop adds exactly one post per distinct link it had not stored before. */
  lemma IngestCount(posts0: seq<Post>, ps: seq<Post>, fault: Faults)
    requires UniqueUrls(posts0)
    requires Ingest(posts0, ps, |ps|, fault).Running?
    ensures |Ingest(posts0, ps, |ps|, fault).posts| == |posts0| + |UrlsOf(ps) - UrlsOf(posts0)|
  {
    var g := Ingest(posts0, ps, |ps|, fault);
    IngestKeepsUnique(posts0, ps, |ps|, fault);
    IngestUrls(posts0, ps, |ps|, fault);
    assert ps[..|ps|] == ps;
    UniqueUrlsCount(posts0);
    UniqueUrlsCount(g.posts);
    var a, b := UrlsOf(posts0), UrlsOf(ps);
    assert a + b == a + (b - a);
    assert a * (b - a) == {};
  }

  /** An item whose date no layout parses is still inserted, stamped with the time of the pass. */
  lemma UnparseableDateKept(items: seq<RssItem>, i: nat, feedId: Uuid, env: Env)
    requires i < |items|
    requires forall j :: 0 <= j < |Layouts| ==> env.parse(Layouts[j], items[i].pubDate).None?
    ensures Params(items, feedId, env)[i].publishedAt == NullTime(env.now, true)
    ensures Params(items, feedId, env)[i].url == items[i].link
  {
    ParamsAt(items, i, feedId, env);
    PostForDate(items[i], feedId, env);
  }

  /** The body of the item loop of scrapeFeeds: normalise the date, then try the insert. */
  method InsertItem(db: Database, item: RssItem, feedId: Uuid, env: Env) returns (err: Option<DbError>)
    requires db.Valid()
    modifies db`posts, db`attempts
    ensures db.Valid()
    ensures var p := PostFor(item, feedId, env);
            err == CreatePostError(old(db.posts), p, env.insertFault(p))
            && db.posts == (if err.None? then old(db.posts) + [p] else old(db.posts))
            && db.attempts == old(db.attempts) + [p]
  {
    var parsed := ParseUnknownTime(env.parse, item.pubDate);
    var validTime := parsed.Ok?;
    var pubTime := env.now;
    if parsed.Ok? {
      pubTime := parsed.value;
    } else {
      // an unparseable date falls back to the time of the pass and still counts as valid
      validTime := true;
    }
    var post := Post(env.now, env.now, NullTime(pubTime, validTime), item.title, item.link,
                     NullString(item.description, true), feedId);
    assert post == PostFor(item, feedId, env);
    err := db.CreatePost(post, env.insertFault(post));
  }

  /**
   * The item loop of scrapeFeeds: one insert per item in document order; a
   * duplicate is skipped, any other insert error is returned at once.
   */
  method InsertItems(db: Database, items: seq<RssItem>, feedId: Uuid, env: Env) returns (err: Option<DbError>)
    requires db.Valid()
    modifies db`posts, db`attempts
    ensures db.Valid()
    ensures var ps := Params(items, feedId, env);
            var g := Ingest(old(db.posts), ps, |ps|, env.insertFault);
            db.posts == g.posts
            && db.attempts == old(db.attempts) + ps[..Attempted(g, |ps|)]
            && err == (if g.Aborted? then Some(g.error) else None)
  {
    ghost var ps := Params(items, feedId, env);
    ghost var posts0 := db.posts;
    var i := 0;
    while i < |items|
      invariant 0 <= i <= |items|
      invariant db.Valid()
      invariant Ingest(posts0, ps, i, env.insertFault) == Running(db.posts)
      invariant db.attempts == old(db.attempts) + ps[..i]
    {
      ParamsAt(items, i, feedId, env);
      ghost var before, tried := db.posts, db.attempts;
      var e := InsertItem(db, items[i], feedId, env);
      LoopStep(posts0, ps, i, env.insertFault, old(db.attempts), before, tried, e, db.posts, db.attempts);
      if e.Some? && e.value != DuplicateKey {
        return e;
      }
      // a duplicate key skips the item: on to the next one
      i := i + 1;
    }
    assert ps[..|items|] == ps;
    err := None;
  }

  /**
   * scrapeFeeds. `selected` is the feed GetNextFeedToFetch chose, if any, and
   * `fetched` the URLs fetched; the ensures say, per branch, what was fetched,
   * inserted and marked and what is returned.
   */
  method ScrapeFeeds(db: Database, env: Env)
    returns (err: Option<DbError>, ghost selected: Option<Feed>, ghost fetched: seq<string>)
    requires db.Valid()
    modifies db
    ensures db.Valid()
    // selection fails: that error, and nothing else happens
    ensures selected.None? <==> env.selectFault.Some? || old(db.feeds) == map[]
    ensures selected.None? ==>
              err == Some(if env.selectFault.Some? then Other(env.selectFault.value) else NoRows)
              && db.feeds == old(db.feeds) && db.posts == old(db.posts)
              && db.attempts == old(db.attempts) && db.marks == old(db.marks)
    ensures selected.None? ==> fetched == []
    ensures selected.Some? ==> selected.value.id in old(db.feeds) && old(db.feeds)[selected.value.id] == selected.value
    // a selected feed is fetched once, from its own URL
    ensures selected.Some? ==> fetched == [selected.value.url]
    // fetch fails: the feed is marked once, nothing is inserted, only the mark's error is returned
    ensures selected.Some? && Fetched(env.fetch(selected.value.url), env.unmarshal, env.unescape).Err? ==>
              db.marks == old(db.marks) + [selected.value.id]
              && db.feeds == (if env.markFault.None? then Marked(old(db.feeds), selected.value.id, env.now) else old(db.feeds))
              && db.posts == old(db.posts) && db.attempts == old(db.attempts)
              && err == MarkError(env.markFault)
    // fetch succeeds: one insert per item in order, then the mark unless an insert aborted
    ensures selected.Some? && Fetched(env.fetch(selected.value.url), env.unmarshal, env.unescape).Ok? ==>
              var ps := Params(Fetched(env.fetch(selected.value.url), env.unmarshal, env.unescape).value.channel.item,
                               selected.value.id, env);
              var g := Ingest(old(db.posts), ps, |ps|, env.insertFault);
              db.posts == g.posts
              && db.attempts == old(db.attempts) + ps[..Attempted(g, |ps|)]
              && (g.Aborted? ==> err == Some(g.error) && db.feeds == old(db.feeds) && db.marks == old(db.marks))
              && (g.Running? ==>
                    db.marks == old(db.marks) + [selected.value.id]
                    && db.feeds == (if env.markFault.None? then Marked(old(db.feeds), selected.value.id, env.now) else old(db.feeds))
                    && err == MarkError(env.markFault))
  {
    fetched := [];
    var next := db.GetNextFeedToFetch(env.selectFault);
    if next.Err? {
      err, selected := Some(next.error), None;
      return;
    }
    var feedToFetch := next.value;
    selected := Some(feedToFetch);

    fetched := [feedToFetch.url];
    var feeds := FetchFeed(env.fetch(feedToFetch.url), env.unmarshal, env.unescape);
    if feeds.Err? {
      // still marked, so that a broken feed is not selected forever
      err := db.MarkFeedFetched(feedToFetch.id, env.now, env.markFault);
      return;
    }

    err := InsertItems(db, feeds.value.channel.item, feedToFetch.id, env);
    if err.Some? {
      return;
    }

    err := db.MarkFeedFetched(feedToFetch.id, env.now, env.markFault);
  }
}
