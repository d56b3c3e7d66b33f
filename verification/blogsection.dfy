/** The blog section: a grid of cards for the posts of the feed. The posts
    come from `fetchVelogPosts(4)`, whose settled result is an input, and
    `new Date(pubDate)` is the input `localTime`. */
module BlogSection {
  import opened Base
  import opened JsString
  import opened LocalDate
  import opened VelogFeed
  import List = FeedbackList

  /** How many posts the section asks for. */
  const RequestedPosts := 4

  /** The error shown when the feed cannot be loaded, whatever was thrown. */
  const BlogLoadFailed := "블로그 글을 불러오지 못했습니다."

  /** What shows while there are neither posts nor an error. */
  const Placeholder := "불러오는 중..."

  /** `formatDate`: the empty string for a missing or empty date, otherwise
      `${year}.${MM}.${DD}`. */
  function FormatDate(d: Option<string>, localTime: string -> LocalTime): (r: string)
    ensures d.None? || d == Some("") ==> r == ""
    ensures d.Some? && d.value != "" && localTime(d.value).Valid? ==> DateReads(r, localTime(d.value).fields)
    ensures d.Some? && d.value != "" && localTime(d.value).Invalid? ==> r == "NaN.NaN.NaN"
  {
    if d.None? || d.value == "" then "" else DateText(localTime(d.value))
  }

  /** The section and the feedback list print the same day for the same
      date string. */
  lemma FormatDateAgreesWithList(d: string, localTime: string -> LocalTime)
    requires d != ""
    ensures FormatDate(Some(d), localTime) == List.FormatDateTime(localTime(d)).0
  {
  }

  /** `hasThumb`: a thumbnail is present and not blank. */
  predicate HasThumb(post: Post)
  {
    post.thumbnail.Some? && Utf16Length(Trim(post.thumbnail.value)) > 0
  }

  /** A card: the link it opens, the title, the background image or the
      placeholder gradient, and the date line if any. */
  datatype Card = Card(href: string, title: string, background: Option<string>, gradient: bool, date: Option<string>)

  /** `BlogCard`. */
  function CardOf(post: Post, localTime: string -> LocalTime): (c: Card)
    ensures c.href == post.link && c.title == post.title
    ensures c.background.Some? <==> post.thumbnail.Some? && Trim(post.thumbnail.value) != ""
    ensures c.background.Some? ==> c.background == post.thumbnail
    ensures c.gradient <==> c.background.None?
    ensures c.date.Some? <==> post.pubDate != ""
    ensures c.date.Some? ==> c.date.value == FormatDate(Some(post.pubDate), localTime)
  {
    Card(post.link, post.title, if HasThumb(post) then post.thumbnail else None, !HasThumb(post),
         if post.pubDate != "" then Some(FormatDate(Some(post.pubDate), localTime)) else None)
  }

  /** The section state: the posts, and the error, `None` for `null`. */
  datatype Section = Section(posts: seq<Post>, error: Option<string>)

  /** The state on mount. */
  const Initial := Section([], None)

  /** The request settling: the posts replace the list, or the fixed error
      is set. */
  function Settle(s: Section, fetched: Result<seq<Post>, Thrown>): (t: Section)
    ensures fetched.Ok? ==> t == s.(posts := fetched.value)
    ensures fetched.Err? ==> t == s.(error := Some(BlogLoadFailed))
  {
    match fetched
    case Ok(xs) => s.(posts := xs)
    case Err(_) => s.(error := Some(BlogLoadFailed))
  }

  /** What the section shows: the error, the grid of cards, or the
      placeholder. */
  datatype SectionView = ErrorText(text: string) | Grid(cards: seq<Card>) | Loading(text: string)

  /** The section for a state: the error wins over the grid, the grid over
      the placeholder. */
  function Render(s: Section, localTime: string -> LocalTime): (v: SectionView)
    ensures v.ErrorText? <==> s.error.Some? && s.error.value != ""
    ensures v.ErrorText? ==> v.text == s.error.value
    ensures v.Grid? <==> !v.ErrorText? && |s.posts| > 0
    ensures v.Grid? ==>
      && |v.cards| == |s.posts|
      && forall i :: 0 <= i < |s.posts| ==> v.cards[i] == CardOf(s.posts[i], localTime)
    ensures v.Loading? ==> v.text == Placeholder
  {
    if s.error.Some? && s.error.value != "" then ErrorText(s.error.value)
    else if |s.posts| > 0 then
      Grid(seq(|s.posts|, i requires 0 <= i < |s.posts| => CardOf(s.posts[i], localTime)))
    else Loading(Placeholder)
  }

  /** The section once `fetchVelogPosts(4)` has settled: the fixed error on
      any failure; otherwise at most four cards, one per post in order, or
      the placeholder when the feed is empty, which then never goes away. */
  lemma SectionAfterLoad(cached: Cached, now: int, response: Result<FeedResponse, Thrown>,
                         writeTime: int, writeSucceeds: bool, localTime: string -> LocalTime)
    ensures var run := FetchVelogPosts(RequestedPosts, cached, now, response, writeTime, writeSucceeds);
      var v := Render(Settle(Initial, run.result), localTime);
      && (run.result.Err? ==> v == ErrorText(BlogLoadFailed))
      && (run.result.Ok? && |run.result.value| > 0 ==>
            v.Grid? && |v.cards| <= RequestedPosts
            && forall i :: 0 <= i < |v.cards| ==> v.cards[i].href == run.result.value[i].link)
      && (run.result.Ok? && |run.result.value| == 0 ==> v == Loading(Placeholder))
  {
  }
}
