/**
 * The database as the ingestion pass sees it: a feed table and a post table
 * whose URL column is unique. The SQL is not part of this model; each call's
 * failure other than a uniqueness conflict is an input (`fault`).
 */
module Store {
  import opened Wrappers
  import opened Times

  type Uuid = nat

  /** The errors a query can end with; a uniqueness conflict is its own tag. */
  datatype DbError = NoRows | DuplicateKey | Other(message: string)

  datatype Feed = Feed(id: Uuid, name: string, url: string, lastFetchedAt: Option<Timestamp>)

  datatype NullTime = NullTime(time: Timestamp, valid: bool)

  datatype NullString = NullString(str: string, valid: bool)

  /** A row of the post table, as CreatePost receives it (its generated ID aside). */
  datatype Post = Post(createdAt: Timestamp, updatedAt: Timestamp, publishedAt: NullTime,
                       title: string, url: string, description: NullString, feedId: Uuid)

  function UrlsOf(posts: seq<Post>): set<string> {
    set p | p in posts :: p.url
  }

  predicate UniqueUrls(posts: seq<Post>) {
    forall i, j :: 0 <= i < j < |posts| ==> posts[i].url != posts[j].url
  }

  /** How CreatePost answers: the connection's own failure first, then the uniqueness constraint. */
  function CreatePostError(posts: seq<Post>, p: Post, fault: Option<string>): (r: Option<DbError>)
    ensures r.None? <==> fault.None? && p.url !in UrlsOf(posts)
    ensures r == Some(DuplicateKey) <==> fault.None? && p.url in UrlsOf(posts)
  {
    if fault.Some? then Some(Other(fault.value))
    else if p.url in UrlsOf(posts) then Some(DuplicateKey)
    else None
  }

  /** The feed table after a successful MarkFeedFetched of `id` at `now`. */
  function Marked(feeds: map<Uuid, Feed>, id: Uuid, now: Timestamp): (r: map<Uuid, Feed>)
    ensures r.Keys == feeds.Keys
    ensures id in feeds ==> r[id] == feeds[id].(lastFetchedAt := Some(now))
    ensures forall k :: k in feeds && k != id ==> r[k] == feeds[k]
  {
    if id in feeds then feeds[id := feeds[id].(lastFetchedAt := Some(now))] else feeds
  }

  function MarkError(fault: Option<string>): Option<DbError> {
    if fault.Some? then Some(Other(fault.value)) else None
  }

  class Database {
    var feeds: map<Uuid, Feed>
    var posts: seq<Post>
    /** Every CreatePost call made, in order, whether or not it inserted. */
    ghost var attempts: seq<Post>
    /** Every MarkFeedFetched call made, in order. */
    ghost var marks: seq<Uuid>

    ghost predicate Valid()
      reads this
    {
      UniqueUrls(posts) && forall id :: id in feeds ==> feeds[id].id == id
    }

    constructor (feeds: map<Uuid, Feed>)
      requires forall id :: id in feeds ==> feeds[id].id == id
      ensures Valid()
      ensures this.feeds == feeds && posts == [] && attempts == [] && marks == []
    {
      this.feeds := feeds;
      posts := [];
      attempts := [];
      marks := [];
    }

    /** GetNextFeedToFetch: no rows on an empty table, else some registered feed (which one is the SQL's choice). */
    method GetNextFeedToFetch(fault: Option<string>) returns (r: Result<Feed, DbError>)
      requires Valid()
      ensures fault.Some? ==> r == Err(Other(fault.value))
      ensures fault.None? && feeds == map[] ==> r == Err(NoRows)
      ensures r.Ok? <==> fault.None? && feeds != map[]
      ensures r.Ok? ==> r.value.id in feeds && feeds[r.value.id] == r.value
    {
      if fault.Some? {
        return Err(Other(fault.value));
      }
      if feeds == map[] {
        return Err(NoRows);
      }
      var id :| id in feeds;
      r := Ok(feeds[id]);
    }

    /** CreatePost: inserts the row unless the call fails or its URL is already stored. */
    method CreatePost(p: Post, fault: Option<string>) returns (err: Option<DbError>)
      requires Valid()
      modifies this`posts, this`attempts
      ensures Valid()
      ensures err == CreatePostError(old(posts), p, fault)
      ensures posts == if err.None? then old(posts) + [p] else old(posts)
      ensures attempts == old(attempts) + [p]
    {
      attempts := attempts + [p];
      err := CreatePostError(posts, p, fault);
      if err.None? {
        posts := posts + [p];
      }
    }

    /** MarkFeedFetched: stamps the feed with `now` unless the call fails. */
    method MarkFeedFetched(id: Uuid, now: Timestamp, fault: Option<string>) returns (err: Option<DbError>)
      requires Valid()
      modifies this`feeds, this`marks
      ensures Valid()
      ensures err == MarkError(fault)
      ensures feeds == if fault.None? then Marked(old(feeds), id, now) else old(feeds)
      ensures marks == old(marks) + [id]
    {
      marks := marks + [id];
      err := MarkError(fault);
      if fault.None? {
        feeds := Marked(feeds, id, now);
      }
    }
  }
}
