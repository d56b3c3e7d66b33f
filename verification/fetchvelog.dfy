/** `fetchVelogPosts`: the blog feed, read from a one-hour cache in local
    storage or fetched from the rss2json service and mapped to posts. The
    clock, what local storage holds, whether writing it succeeds, and what
    the fetch settles with are inputs. */
module VelogFeed {
  import opened Base

  // ----- extractFirstImage: /<img[^>]*src="([^"]+)"/i -----

  /** Case folding of a regular expression with the `i` flag and without
      `u`: only ASCII letters fold onto the letters of the pattern. */
  function Lower(c: char): (r: char)
    ensures 'A' <= c <= 'Z' ==> r as int == c as int + 32
    ensures !('A' <= c <= 'Z') ==> r == c
  {
    if 'A' <= c <= 'Z' then (c as int + 32) as char else c
  }

  /** `<img` starts at `p`. */
  predicate ImgAt(s: string, p: nat)
  {
    p + 4 <= |s| && s[p] == '<' && Lower(s[p + 1]) == 'i' && Lower(s[p + 2]) == 'm' && Lower(s[p + 3]) == 'g'
  }

  /** `src="` starts at `q`. */
  predicate SrcAt(s: string, q: nat)
  {
    q + 5 <= |s| && Lower(s[q]) == 's' && Lower(s[q + 1]) == 'r' && Lower(s[q + 2]) == 'c'
    && s[q + 3] == '=' && s[q + 4] == '"'
  }

  /** The first `"` at or after `i`. */
  function NextQuote(s: string, i: nat): (r: Option<nat>)
    ensures r.Some? ==> i <= r.value < |s| && s[r.value] == '"'
    ensures r.Some? ==> forall k :: i <= k < r.value ==> s[k] != '"'
    ensures r.None? ==> forall k :: i <= k < |s| ==> s[k] != '"'
    decreases |s| - i
  {
    if i >= |s| then None
    else if s[i] == '"' then Some(i)
    else NextQuote(s, i + 1)
  }

  /** `src="([^"]+)"` matches at `q`: a non-empty run of non-quotes follows,
      closed by a quote. */
  predicate SrcValueAt(s: string, q: nat)
  {
    SrcAt(s, q) && q + 5 < |s| && s[q + 5] != '"' && NextQuote(s, q + 5).Some?
  }

  /** No `>` in `s[a..b]`. */
  predicate NoGt(s: string, a: nat, b: nat)
  {
    forall k :: a <= k < b && k < |s| ==> s[k] != '>'
  }

  /** The whole pattern matches with `<img` at `p` and `src="` at `q`: what
      lies between is `[^>]*`. */
  predicate MatchAt(s: string, p: nat, q: nat)
  {
    ImgAt(s, p) && p + 4 <= q && NoGt(s, p + 4, q) && SrcValueAt(s, q)
  }

  /** The match the engine reports: the leftmost `<img`, and for it the
      rightmost `src="`, since `[^>]*` is greedy and gives characters back
      one at a time. */
  ghost predicate FirstMatch(s: string, p: nat, q: nat)
  {
    && MatchAt(s, p, q)
    && (forall p': nat, q': nat :: p' < p ==> !MatchAt(s, p', q'))
    && (forall q': nat :: q < q' ==> !MatchAt(s, p, q'))
  }

  /** The end of the `[^>]*` run from `i`: the first `>`, or the end. */
  function RunEnd(s: string, i: nat): (g: nat)
    requires i <= |s|
    ensures i <= g <= |s| && NoGt(s, i, g) && (g < |s| ==> s[g] == '>')
    decreases |s| - i
  {
    if i == |s| || s[i] == '>' then i else RunEnd(s, i + 1)
  }

  /** The rightmost `q` in `[lo, hi)` at which the `src` part matches. */
  function LastSrc(s: string, lo: nat, hi: nat): (r: Option<nat>)
    ensures r.Some? ==> lo <= r.value < hi && SrcValueAt(s, r.value)
    ensures r.Some? ==> forall q: nat :: r.value < q < hi ==> !SrcValueAt(s, q)
    ensures r.None? ==> forall q: nat :: lo <= q < hi ==> !SrcValueAt(s, q)
    decreases hi
  {
    if hi <= lo then None
    else if SrcValueAt(s, hi - 1) then Some(hi - 1)
    else LastSrc(s, lo, hi - 1)
  }

  /** A `src` past the end of the `[^>]*` run cannot be part of a match. */
  lemma PastRunEnd(s: string, p: nat, q: nat)
    requires ImgAt(s, p)
    requires RunEnd(s, p + 4) <= q
    ensures !MatchAt(s, p, q)
  {
    var g := RunEnd(s, p + 4);
    if g < q && g < |s| {
      assert s[g] == '>';
    }
  }

  /** The rightmost `src` for the `<img` at `p`, if any. */
  function SrcFor(s: string, p: nat): (r: Option<nat>)
    requires ImgAt(s, p)
    ensures r.Some? ==> MatchAt(s, p, r.value) && forall q: nat :: r.value < q ==> !MatchAt(s, p, q)
    ensures r.None? ==> forall q: nat :: !MatchAt(s, p, q)
  {
    var g := RunEnd(s, p + 4);
    var r := LastSrc(s, p + 4, g);
    assert forall q: nat :: g <= q ==> !MatchAt(s, p, q) by {
      forall q | g <= q ensures !MatchAt(s, p, q) { PastRunEnd(s, p, q); }
    }
    r
  }

  /** The leftmost match starting at or after `from`. */
  function Search(s: string, from: nat): (r: Option<(nat, nat)>)
    ensures r.Some? ==> from <= r.value.0 && MatchAt(s, r.value.0, r.value.1)
    ensures r.Some? ==> forall q: nat :: r.value.1 < q ==> !MatchAt(s, r.value.0, q)
    ensures r.Some? ==> forall p: nat, q: nat :: from <= p < r.value.0 ==> !MatchAt(s, p, q)
    ensures r.None? ==> forall p: nat, q: nat :: from <= p ==> !MatchAt(s, p, q)
    decreases |s| - from
  {
    if from + 4 > |s| then None
    else if ImgAt(s, from) && SrcFor(s, from).Some? then Some((from, SrcFor(s, from).value))
    else Search(s, from + 1)
  }

  /** The captured group of the `src` at `q`. */
  function Capture(s: string, q: nat): (c: string)
    requires SrcValueAt(s, q)
    ensures c != [] && forall k :: 0 <= k < |c| ==> c[k] != '"'
  {
    s[q + 5..NextQuote(s, q + 5).value]
  }

  /** `extractFirstImage`: nothing for a missing or empty string; otherwise
      the captured `src` of the first match, if there is one. */
  function ExtractFirstImage(html: Option<string>): (r: Option<string>)
    ensures html.None? || html == Some("") ==> r.None?
    ensures r.Some? ==> r.value != [] && forall k :: 0 <= k < |r.value| ==> r.value[k] != '"'
    ensures r.Some? ==> exists p, q :: FirstMatch(html.value, p, q) && r.value == Capture(html.value, q)
    ensures html.Some? && r.None? ==> forall p: nat, q: nat :: !MatchAt(html.value, p, q)
  {
    if html.None? || html.value == "" then None
    else
      var s := html.value;
      match Search(s, 0)
      case None => None
      case Some(m) =>
        assert FirstMatch(s, m.0, m.1);
        Some(Capture(s, m.1))
  }

  /** The reported match is determined: there is only one. */
  lemma FirstMatchUnique(s: string, p: nat, q: nat, p2: nat, q2: nat)
    requires FirstMatch(s, p, q) && FirstMatch(s, p2, q2)
    ensures p == p2 && q == q2
  {
  }

  /** A tag with two `src` attributes. */
  const TwoSources := "<img src=\"a\" src=\"b\">"

  /** The second `src` of the tag matches, capturing `b`. */
  lemma TwoSourcesSecondMatches()
    ensures MatchAt(TwoSources, 0, 13)
    ensures Capture(TwoSources, 13) == "b"
  {
    var s := TwoSources;
    assert NextQuote(s, 19) == Some(19);
    assert NextQuote(s, 18) == Some(19);
    assert s[18..19] == "b";
  }

  /** No `src` after the second one matches within the tag. */
  lemma TwoSourcesNoLater(q: nat)
    requires 13 < q
    ensures !MatchAt(TwoSources, 0, q)
  {
    if q >= 20 && q < 21 { assert TwoSources[20] == '>'; }
  }

  /** Greedy `[^>]*` makes the last `src` of the first tag win: for
      `<img src="a" src="b">` the extracted image is `b`, not `a`. */
  lemma GreedyTakesLastSrc()
    ensures ExtractFirstImage(Some(TwoSources)) == Some("b")
  {
    var s := TwoSources;
    TwoSourcesSecondMatches();
    forall q: nat | 13 < q ensures !MatchAt(s, 0, q) { TwoSourcesNoLater(q); }
    assert FirstMatch(s, 0, 13);
    var r := ExtractFirstImage(Some(s));
    var p2, q2 :| FirstMatch(s, p2, q2) && r.value == Capture(s, q2);
    FirstMatchUnique(s, 0, 13, p2, q2);
  }

  // ----- pickThumb -----

  /** `enclosure: { link?: string }`. */
  datatype Enclosure = Enclosure(link: Option<string>)

  /** An item of the rss2json response; every field may be missing. */
  datatype FeedItem = FeedItem(
    title: Option<string>,
    link: Option<string>,
    pubDate: Option<string>,
    thumbnail: Option<string>,
    enclosure: Option<Enclosure>,
    content: Option<string>,
    description: Option<string>)

  /** A string operand of `||` is truthy when present and non-empty. */
  predicate Present(x: Option<string>)
  {
    x.Some? && x.value != ""
  }

  /** `a || b || ... || undefined` over optional strings: the first
      non-empty one. */
  function FirstPresent(xs: seq<Option<string>>): (r: Option<string>)
    ensures r.Some? ==> r.value != ""
    ensures r.Some? ==> exists i :: 0 <= i < |xs| && xs[i] == r && forall j :: 0 <= j < i ==> !Present(xs[j])
    ensures r.None? ==> forall i :: 0 <= i < |xs| ==> !Present(xs[i])
  {
    if |xs| == 0 then None
    else if Present(xs[0]) then xs[0]
    else
      var r := FirstPresent(xs[1..]);
      assert r.Some? ==> exists i :: 0 <= i < |xs| && xs[i] == r && forall j :: 0 <= j < i ==> !Present(xs[j]) by {
        if r.Some? {
          var i :| 0 <= i < |xs[1..]| && xs[1..][i] == r && forall j :: 0 <= j < i ==> !Present(xs[1..][j]);
          assert xs[i + 1] == r;
          assert forall j :: 0 <= j < i + 1 ==> !Present(xs[j]) by {
            forall j | 0 <= j < i + 1 ensures !Present(xs[j]) {
              if j > 0 { assert xs[j] == xs[1..][j - 1]; }
            }
          }
        }
      }
      r
  }

  /** `it.enclosure?.link`. */
  function EnclosureLink(it: FeedItem): (r: Option<string>)
    ensures it.enclosure.None? ==> r.None?
  {
    match it.enclosure
    case None => None
    case Some(e) => e.link
  }

  /** The thumbnail candidates, in the order `pickThumb` tries them. */
  function ThumbCandidates(it: FeedItem): (cs: seq<Option<string>>)
    ensures |cs| == 4 && cs[0] == it.thumbnail && cs[1] == EnclosureLink(it)
    ensures cs[2] == ExtractFirstImage(it.content) && cs[3] == ExtractFirstImage(it.description)
  {
    [it.thumbnail, EnclosureLink(it), ExtractFirstImage(it.content), ExtractFirstImage(it.description)]
  }

  /** `pickThumb`: the thumbnail, else the enclosure's link, else the first
      image of the content, else the first image of the description, each
      skipped when missing or empty. */
  function PickThumb(it: FeedItem): (r: Option<string>)
    ensures r.Some? ==> r.value != ""
    ensures Present(it.thumbnail) ==> r == it.thumbnail
    ensures !Present(it.thumbnail) && Present(EnclosureLink(it)) ==> r == EnclosureLink(it)
    ensures !Present(it.thumbnail) && !Present(EnclosureLink(it)) && ExtractFirstImage(it.content).Some?
            ==> r == ExtractFirstImage(it.content)
    ensures !Present(it.thumbnail) && !Present(EnclosureLink(it)) && ExtractFirstImage(it.content).None?
            ==> r == ExtractFirstImage(it.description)
  {
    if Present(it.thumbnail) then it.thumbnail
    else if Present(EnclosureLink(it)) then EnclosureLink(it)
    else if ExtractFirstImage(it.content).Some? then ExtractFirstImage(it.content)
    else ExtractFirstImage(it.description)
  }

  /** `pickThumb` is the first present candidate, in priority order. */
  lemma {:induction false} PickThumbIsFirstPresent(it: FeedItem)
    ensures PickThumb(it) == FirstPresent(ThumbCandidates(it))
  {
    var cs := ThumbCandidates(it);
    var r := FirstPresent(cs);
    if r.Some? {
      var i :| 0 <= i < |cs| && cs[i] == r && forall j :: 0 <= j < i ==> !Present(cs[j]);
      assert Present(cs[i]);
    } else {
      assert !Present(cs[0]) && !Present(cs[1]) && !Present(cs[2]) && !Present(cs[3]);
    }
  }

  // ----- posts -----

  /** `VelogPost`; a `None` thumbnail is `undefined`. */
  datatype Post = Post(title: string, link: string, pubDate: string, thumbnail: Option<string>)

  /** The title of an item without one. */
  const NoTitle := "제목 없음"

  /** An item as a post: `??` defaults for a missing title, link and date,
      and the picked thumbnail, never the empty string. */
  function ToPost(it: FeedItem): (p: Post)
    ensures it.title.Some? ==> p.title == it.title.value
    ensures it.title.None? ==> p.title == NoTitle
    ensures it.link.Some? ==> p.link == it.link.value
    ensures it.link.None? ==> p.link == "#"
    ensures it.pubDate.Some? ==> p.pubDate == it.pubDate.value
    ensures it.pubDate.None? ==> p.pubDate == ""
    ensures p.thumbnail == PickThumb(it) && (p.thumbnail.Some? ==> p.thumbnail.value != "")
  {
    var t := PickThumb(it);
    Post(it.title.GetOr(NoTitle), it.link.GetOr("#"), it.pubDate.GetOr(""),
         if t.Some? && t.value != "" then t else None)
  }

  /** `xs.slice(0, limit)`: a negative end counts from the end. */
  function Take<T>(xs: seq<T>, limit: int): (r: seq<T>)
    ensures 0 <= limit ==> |r| == if limit < |xs| then limit else |xs|
    ensures limit < 0 ==> |r| == if |xs| + limit > 0 then |xs| + limit else 0
    ensures r == xs[..|r|]
  {
    var end := if limit < 0 then |xs| + limit else limit;
    if end <= 0 then [] else if end < |xs| then xs[..end] else xs
  }

  /** A non-negative limit: taking again changes nothing. */
  lemma TakeIdempotent<T>(xs: seq<T>, limit: int)
    requires 0 <= limit
    ensures Take(Take(xs, limit), limit) == Take(xs, limit)
  {
  }

  /** The mapping of the fetched items: at most `limit` of them, in feed
      order. */
  function MapItems(items: seq<FeedItem>, limit: int): (ps: seq<Post>)
    ensures |ps| == |Take(items, limit)|
    ensures forall i :: 0 <= i < |ps| ==> ps[i] == ToPost(items[i])
  {
    var taken := Take(items, limit);
    seq(|taken|, i requires 0 <= i < |taken| => ToPost(taken[i]))
  }

  // ----- the cache and the fetch -----

  /** The time a cache entry is fresh, in milliseconds. */
  const CacheTtlMs := 60 * 60 * 1000

  /** What `localStorage.getItem` gives: nothing (or the empty string), a
      value `JSON.parse` rejects or that is `null`, or an object whose `ts`
      is a number or missing and whose `posts` is a list or missing. */
  datatype Cached = Absent | Unreadable | Stored(ts: Option<int>, posts: Option<seq<Post>>)

  /** The entry is less than an hour old. A missing `ts` makes the
      difference `NaN`, which compares false. */
  predicate Fresh(c: Cached, now: int)
  {
    c.Stored? && c.ts.Some? && now - c.ts.value < CacheTtlMs
  }

  /** The fresh entry can be served: reading `posts.slice` on a missing
      list throws inside the `try`, which falls through to the fetch. */
  predicate Served(c: Cached, now: int)
  {
    Fresh(c, now) && c.posts.Some?
  }

  /** The parsed response of rss2json: `null`, or an object whose `items`
      is a list or missing. */
  datatype FeedBody = NullBody | FeedObject(items: Option<seq<FeedItem>>)

  /** What `fetch` resolves with: the `ok` flag and what `res.json()`
      settles with. */
  datatype FeedResponse = FeedResponse(ok: bool, body: Result<FeedBody, Thrown>)

  /** The error of a response that is not ok. */
  const FetchFailedMessage := "rss2json fetch failed"

  /** What reading `items` of `null` throws. */
  const NullItems := "Cannot read properties of null (reading 'items')"

  /** A call: what it settles with, whether it fetched, and local storage
      afterwards. */
  datatype Run = Run(result: Result<seq<Post>, Thrown>, fetched: bool, cacheAfter: Cached)

  /** The fetch path: failures propagate, a body without items gives no
      posts, and the posts are stored with `writeTime` when the write
      succeeds. */
  function FetchPath(limit: int, cached: Cached, response: Result<FeedResponse, Thrown>,
                     writeTime: int, writeSucceeds: bool): (r: Run)
    ensures r.fetched
    ensures response.Err? ==> r.result == Err(response.error) && r.cacheAfter == cached
    ensures response.Ok? && !response.value.ok ==>
      r.result == Err(ErrorValue(FetchFailedMessage)) && r.cacheAfter == cached
    ensures r.result.Ok? ==> response.Ok? && response.value.ok && response.value.body.Ok?
    ensures response.Ok? && response.value.ok && response.value.body.Err? ==>
      r.result == Err(response.value.body.error) && r.cacheAfter == cached
    ensures response.Ok? && response.value.ok && response.value.body == Ok(NullBody) ==>
      r.result == Err(ErrorValue(NullItems)) && r.cacheAfter == cached
    ensures response.Ok? && response.value.ok && response.value.body.Ok? && response.value.body.value.FeedObject? ==>
      r.result.Ok?
    ensures response.Ok? && response.value.ok && response.value.body == Ok(FeedObject(None)) ==> r.result == Ok([])
    ensures r.result.Ok? && response.value.body.value.FeedObject? ==>
      r.result.value == MapItems(response.value.body.value.items.GetOr([]), limit)
    ensures r.result.Ok? && writeSucceeds ==> r.cacheAfter == Stored(Some(writeTime), Some(r.result.value))
    ensures !(r.result.Ok? && writeSucceeds) ==> r.cacheAfter == cached
  {
    match response
    case Err(e) => Run(Err(e), true, cached)
    case Ok(res) =>
      if !res.ok then Run(Err(ErrorValue(FetchFailedMessage)), true, cached)
      else
        match res.body
        case Err(e) => Run(Err(e), true, cached)
        case Ok(NullBody) => Run(Err(ErrorValue(NullItems)), true, cached)
        case Ok(FeedObject(items)) =>
          var posts := MapItems(items.GetOr([]), limit);
          Run(Ok(posts), true, if writeSucceeds then Stored(Some(writeTime), Some(posts)) else cached)
  }

  /** `fetchVelogPosts(limit)`: a fresh cache entry is served without a
      fetch; anything else fetches. `now` is the clock at the check and
      `writeTime` at the write. */
  function FetchVelogPosts(limit: int, cached: Cached, now: int, response: Result<FeedResponse, Thrown>,
                           writeTime: int, writeSucceeds: bool): (r: Run)
    ensures r.fetched <==> !Served(cached, now)
    ensures Served(cached, now) ==> r == Run(Ok(Take(cached.posts.value, limit)), false, cached)
    ensures !Served(cached, now) ==> r == FetchPath(limit, cached, response, writeTime, writeSucceeds)
  {
    if Served(cached, now) then Run(Ok(Take(cached.posts.value, limit)), false, cached)
    else FetchPath(limit, cached, response, writeTime, writeSucceeds)
  }

  /** An entry that cannot be read is as good as none: the call fetches and
      settles the same way. */
  lemma UnreadableIgnored(limit: int, now: int, response: Result<FeedResponse, Thrown>,
                          writeTime: int, writeSucceeds: bool)
    ensures var a := FetchVelogPosts(limit, Unreadable, now, response, writeTime, writeSucceeds);
      var b := FetchVelogPosts(limit, Absent, now, response, writeTime, writeSucceeds);
      a.fetched && a.result == b.result
  {
  }

  /** Whether the cache write succeeds does not change what the call
      settles with. */
  lemma WriteFailureIgnored(limit: int, cached: Cached, now: int, response: Result<FeedResponse, Thrown>,
                            writeTime: int)
    ensures FetchVelogPosts(limit, cached, now, response, writeTime, true).result
         == FetchVelogPosts(limit, cached, now, response, writeTime, false).result
  {
  }

  /** Fetched posts are at most `limit`, in feed order, with the defaults
      filled in and no empty thumbnail. */
  lemma FetchedPostsBounded(limit: int, cached: Cached, now: int, items: seq<FeedItem>,
                            writeTime: int, writeSucceeds: bool)
    requires 0 <= limit && !Served(cached, now)
    ensures var r := FetchVelogPosts(limit, cached, now, Ok(FeedResponse(true, Ok(FeedObject(Some(items))))),
                                     writeTime, writeSucceeds);
      && r.result.Ok? && |r.result.value| <= limit && |r.result.value| <= |items|
      && (forall i :: 0 <= i < |r.result.value| ==>
            r.result.value[i] == ToPost(items[i])
            && (r.result.value[i].thumbnail.Some? ==> r.result.value[i].thumbnail.value != ""))
  {
  }

  /** A successful fetch whose write succeeds is served back by any call
      within the hour, with the same limit, without fetching again. */
  lemma CacheRoundTrip(limit: int, cached: Cached, now: int, response: Result<FeedResponse, Thrown>,
                       writeTime: int, later: int, response2: Result<FeedResponse, Thrown>,
                       writeTime2: int, writeSucceeds2: bool)
    requires 0 <= limit && later - writeTime < CacheTtlMs && !Served(cached, now)
    requires FetchVelogPosts(limit, cached, now, response, writeTime, true).result.Ok?
    ensures var first := FetchVelogPosts(limit, cached, now, response, writeTime, true);
      var second := FetchVelogPosts(limit, first.cacheAfter, later, response2, writeTime2, writeSucceeds2);
      first.fetched && !second.fetched && second.result == first.result
  {
    var first := FetchVelogPosts(limit, cached, now, response, writeTime, true);
    var posts := first.result.value;
    assert first.cacheAfter == Stored(Some(writeTime), Some(posts));
    assert Take(posts, limit) == posts;
  }
}
