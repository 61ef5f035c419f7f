/**
 * The feed document of rss.go and what fetchFeed does with it. The HTTP and XML
 * steps are abstract: an Exchange says how each I/O step of one fetch ends, and
 * `unmarshal` stands for encoding/xml. html.UnescapeString is the uninterpreted
 * parameter `unescape`.
 */
module Rss {
  import opened Wrappers

  newtype byte = x: int | 0 <= x < 256

  datatype RssItem = RssItem(title: string, link: string, description: string, pubDate: string)

  datatype Channel = Channel(title: string, link: string, description: string, item: seq<RssItem>)

  datatype RssFeed = RssFeed(channel: Channel)

  /** The steps of fetchFeed that can fail, in the order they run. */
  datatype Stage = BuildRequest | SendRequest | ReadBody | DecodeXml

  datatype FetchError = FetchError(stage: Stage, message: string)

  /** How one GET of a feed URL goes: the error of building and of sending the request, and the body read. */
  datatype Exchange = Exchange(buildError: Option<string>, sendError: Option<string>, body: Result<seq<byte>, string>)

  type Unmarshal = seq<byte> -> Result<RssFeed, string>

  type Unescape = string -> string

  function Rank(st: Stage): nat {
    match st
    case BuildRequest => 0
    case SendRequest => 1
    case ReadBody => 2
    case DecodeXml => 3
  }

  /** Whether step `st` of the exchange succeeds, given that the steps before it did. */
  predicate Passes(x: Exchange, unmarshal: Unmarshal, st: Stage) {
    match st
    case BuildRequest => x.buildError.None?
    case SendRequest => x.sendError.None?
    case ReadBody => x.body.Ok?
    case DecodeXml => x.body.Ok? && unmarshal(x.body.value).Ok?
  }

  /**
   * The request/response/read/decode part of fetchFeed: the decoded document when
   * every step succeeds, otherwise the error of the first step that fails and no
   * document at all.
   */
  function Retrieve(x: Exchange, unmarshal: Unmarshal): (r: Result<RssFeed, FetchError>)
    ensures r.Ok? <==> forall st :: Passes(x, unmarshal, st)
    ensures r.Ok? ==> x.body.Ok? && unmarshal(x.body.value) == Ok(r.value)
    ensures r.Err? ==> !Passes(x, unmarshal, r.error.stage)
    ensures r.Err? ==> forall st :: Rank(st) < Rank(r.error.stage) ==> Passes(x, unmarshal, st)
  {
    if x.buildError.Some? then
      assert !Passes(x, unmarshal, BuildRequest); Err(FetchError(BuildRequest, x.buildError.value))
    else if x.sendError.Some? then
      assert !Passes(x, unmarshal, SendRequest); Err(FetchError(SendRequest, x.sendError.value))
    else if x.body.Err? then
      assert !Passes(x, unmarshal, ReadBody); Err(FetchError(ReadBody, x.body.error))
    else match unmarshal(x.body.value)
      case Err(m) => assert !Passes(x, unmarshal, DecodeXml); Err(FetchError(DecodeXml, m))
      case Ok(feed) => Ok(feed)
  }

  function UnescapeItem(it: RssItem, unescape: Unescape): RssItem {
    it.(title := unescape(it.title), description := unescape(it.description))
  }

  /** The items after post-processing: same number, same order, texts unescaped, link and date untouched. */
  function UnescapedItems(items: seq<RssItem>, unescape: Unescape): (r: seq<RssItem>)
    ensures |r| == |items|
    ensures forall i :: 0 <= i < |items| ==>
              r[i].title == unescape(items[i].title) && r[i].description == unescape(items[i].description)
              && r[i].link == items[i].link && r[i].pubDate == items[i].pubDate
  {
    seq(|items|, i requires 0 <= i < |items| => UnescapeItem(items[i], unescape))
  }

  /** The document fetchFeed returns for a decoded one. */
  function Unescaped(feed: RssFeed, unescape: Unescape): (r: RssFeed)
    ensures r.channel.title == unescape(feed.channel.title)
    ensures r.channel.description == unescape(feed.channel.description)
    ensures r.channel.link == feed.channel.link
    ensures r.channel.item == UnescapedItems(feed.channel.item, unescape)
  {
    RssFeed(Channel(unescape(feed.channel.title), feed.channel.link,
                    unescape(feed.channel.description), UnescapedItems(feed.channel.item, unescape)))
  }

  /** What fetchFeed returns for one exchange: the specification of FetchFeed. */
  function Fetched(x: Exchange, unmarshal: Unmarshal, unescape: Unescape): Result<RssFeed, FetchError> {
    match Retrieve(x, unmarshal)
    case Err(e) => Err(e)
    case Ok(feed) => Ok(Unescaped(feed, unescape))
  }

  /** The post-processing loop of fetchFeed, in place: each item's description, then its title, is unescaped. */
  method UnescapeItems(a: array<RssItem>, unescape: Unescape)
    modifies a
    ensures a[..] == UnescapedItems(old(a[..]), unescape)
  {
    var i := 0;
    while i < a.Length
      invariant 0 <= i <= a.Length
      invariant forall k :: 0 <= k < i ==> a[k] == UnescapeItem(old(a[k]), unescape)
      invariant forall k :: i <= k < a.Length ==> a[k] == old(a[k])
    {
      a[i] := a[i].(description := unescape(a[i].description));
      a[i] := a[i].(title := unescape(a[i].title));
      i := i + 1;
    }
  }

  /** fetchFeed: the failing step's error with no document, or the decoded document post-processed. */
  method FetchFeed(x: Exchange, unmarshal: Unmarshal, unescape: Unescape) returns (r: Result<RssFeed, FetchError>)
    ensures r == Fetched(x, unmarshal, unescape)
  {
    if x.buildError.Some? {
      return Err(FetchError(BuildRequest, x.buildError.value));
    }
    if x.sendError.Some? {
      return Err(FetchError(SendRequest, x.sendError.value));
    }
    if x.body.Err? {
      return Err(FetchError(ReadBody, x.body.error));
    }
    var decoded := unmarshal(x.body.value);
    if decoded.Err? {
      return Err(FetchError(DecodeXml, decoded.error));
    }
    var feed := decoded.value;
    feed := feed.(channel := feed.channel.(description := unescape(feed.channel.description)));
    feed := feed.(channel := feed.channel.(title := unescape(feed.channel.title)));
    var items := feed.channel.item;
    var a := new RssItem[|items|](i requires 0 <= i < |items| => items[i]);
    assert a[..] == items;
    UnescapeItems(a, unescape);
    feed := feed.(channel := feed.channel.(item := a[..]));
    r := Ok(feed);
  }
}
