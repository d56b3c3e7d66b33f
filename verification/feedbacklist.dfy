/** `FeedbackList`: the scrolling list of entries that a parent feeds with
    items, a loading flag, an error, and the load-more controls `hasMore`,
    `loadingMore` and `onLoadMore`. The view is a function of the
    properties. The intersection observer is a value that the callback ref
    replaces; the browser's side of it (when an element intersects) is an
    input. */
module FeedbackList {
  import opened Base
  import opened FeedbackStore
  import opened LocalDate
  import opened FeedbackPayload
  import Page = FeedbackPage

  /** The component's properties; `error` is `None` for `null`. */
  datatype Props = Props(
    items: seq<FeedbackDto>,
    loading: bool,
    error: Option<string>,
    hasMore: bool,
    loadingMore: bool)

  /** One rendered `article`: its key, the name, the date and time stamps,
      the `dateTime` attribute, the message, and whether the load-more ref
      is attached to it. */
  datatype Article = Article(
    key: string,
    name: string,
    date: string,
    time: string,
    dateTime: string,
    message: string,
    observed: bool)

  /** What the component renders: the first-load spinner, the error panel
      with its retry button, the empty note, or the feed with its footer
      parts (the load-more spinner, the "all seen" note and the inline
      error). */
  datatype ListView =
    | Spinner
    | ErrorPanel(text: string)
    | EmptyNote
    | Feed(articles: seq<Article>, moreSpinner: bool, allSeen: bool, inlineError: Option<string>)

  /** `formatDateTime`: the date and time stamps of a parsed date. */
  function FormatDateTime(t: LocalTime): (r: (string, string))
    ensures t.Valid? ==> DateReads(r.0, t.fields) && TimeReads(r.1, t.fields)
    ensures t.Invalid? ==> r == ("NaN.NaN.NaN", "NaN:NaN")
  {
    (DateText(t), TimeText(t))
  }

  /** The article of the entry at `index`. */
  function ArticleAt(p: Props, index: nat, localTime: string -> LocalTime): (a: Article)
    requires index < |p.items|
    ensures a.key == p.items[index].id && a.name == p.items[index].name
    ensures a.message == p.items[index].message && a.dateTime == p.items[index].createdAt
    ensures a.observed <==> index == |p.items| - 1 && p.hasMore
    ensures (a.date, a.time) == FormatDateTime(localTime(p.items[index].createdAt))
  {
    var it := p.items[index];
    var stamp := FormatDateTime(localTime(it.createdAt));
    Article(it.id, it.name, stamp.0, stamp.1, it.createdAt, it.message,
            index == |p.items| - 1 && p.hasMore)
  }

  /** The view for a set of properties. */
  function Render(p: Props, localTime: string -> LocalTime): (v: ListView)
    ensures v.Spinner? <==> p.loading && |p.items| == 0
    ensures v.ErrorPanel? <==> !p.loading && ErrorShown(p.error) && |p.items| == 0
    ensures v.ErrorPanel? ==> v.text == p.error.value
    ensures v.EmptyNote? <==> !p.loading && !ErrorShown(p.error) && |p.items| == 0
    ensures v.Feed? <==> |p.items| > 0
    ensures v.Feed? ==>
      && |v.articles| == |p.items|
      && (forall i :: 0 <= i < |p.items| ==> v.articles[i] == ArticleAt(p, i, localTime))
      && (v.moreSpinner <==> p.loadingMore)
      && (v.allSeen <==> !p.hasMore && !p.loadingMore)
      && (v.inlineError.Some? <==> ErrorShown(p.error))
      && (v.inlineError.Some? ==> v.inlineError == p.error)
  {
    if p.loading && |p.items| == 0 then Spinner
    else if ErrorShown(p.error) && |p.items| == 0 then ErrorPanel(p.error.value)
    else if |p.items| == 0 then EmptyNote
    else
      Feed(seq(|p.items|, i requires 0 <= i < |p.items| => ArticleAt(p, i, localTime)),
           p.loadingMore,
           !p.hasMore && |p.items| > 0 && !p.loadingMore,
           if ErrorShown(p.error) then p.error else None)
  }

  /** The feed lists every entry once, in the given order, and attaches the
      load-more ref to the last one only, and only when there is more to
      load. */
  lemma FeedListsEveryItem(p: Props, localTime: string -> LocalTime)
    requires |p.items| > 0
    ensures var v := Render(p, localTime);
      && v.Feed?
      && (forall i :: 0 <= i < |p.items| ==> v.articles[i].key == p.items[i].id)
      && (forall i :: 0 <= i < |p.items| ==>
            (v.articles[i].observed <==> i == |p.items| - 1 && p.hasMore))
      && (p.hasMore ==> v.articles[|p.items| - 1].observed)
  {
  }

  /** An error does not hide entries already shown: with entries present,
      the articles and load-more parts are the same with or without it, and
      only the inline error differs. */
  lemma ErrorKeepsItems(p: Props, localTime: string -> LocalTime)
    requires |p.items| > 0
    ensures var with := Render(p, localTime);
      var without := Render(p.(error := None), localTime);
      && with.Feed? && without.Feed?
      && with.articles == without.articles
      && with.moreSpinner == without.moreSpinner && with.allSeen == without.allSeen
      && without.inlineError.None?
  {
    var with := Render(p, localTime);
    var without := Render(p.(error := None), localTime);
    assert forall i :: 0 <= i < |p.items| ==> ArticleAt(p, i, localTime) == ArticleAt(p.(error := None), i, localTime);
    assert with.articles == without.articles;
  }

  /** A row of this list and a row of the feedback page print the same
      stamp for the same entry. */
  lemma StampAgreesWithPage(p: Props, index: nat, localTime: string -> LocalTime)
    requires index < |p.items|
    ensures var a := ArticleAt(p, index, localTime);
      a.date + " " + a.time == Page.RowOf(p.items[index], localTime).stamp
  {
  }

  /** An intersection observer as the callback ref creates it: the
      `hasMore` its callback captured, and whether it observes an element. */
  datatype Observer = Observer(hasMore: bool, observing: bool)

  /** `lastElementRef(node)` with the properties of the render that created
      it: nothing happens while loading or loading more; otherwise the
      current observer is disconnected and replaced by one that observes the
      node, if there is one. */
  function AttachRef(current: Option<Observer>, p: Props, nodePresent: bool): (r: Option<Observer>)
    ensures r != current ==> !p.loading && !p.loadingMore
    ensures !p.loading && !p.loadingMore ==> r.Some? && r.value.hasMore == p.hasMore && r.value.observing == nodePresent
  {
    if p.loading || p.loadingMore then current
    else Some(Observer(p.hasMore, nodePresent))
  }

  /** The observer's callback on an intersection report: whether
      `onLoadMore` is called. An observer that observes nothing gets no
      reports. */
  function OnIntersect(o: Option<Observer>, isIntersecting: bool): (loadMore: bool)
    ensures loadMore <==> o.Some? && o.value.observing && isIntersecting && o.value.hasMore
  {
    match o
    case None => false
    case Some(obs) => obs.observing && isIntersecting && obs.hasMore
  }

  /** The callback ref called once per item of `calls`, each with the
      properties of the render it belongs to and whether a node is given. */
  function Replay(current: Option<Observer>, calls: seq<(Props, bool)>): (r: Option<Observer>)
    decreases |calls|
  {
    if |calls| == 0 then current
    else Replay(AttachRef(current, calls[0].0, calls[0].1), calls[1..])
  }

  /** React only calls the ref of a render that attached it, and a render
      attaches it only when `hasMore` held; so every observer that the ref
      ever creates captured `hasMore` as true. */
  lemma {:induction false} ReplayKeepsHasMore(current: Option<Observer>, calls: seq<(Props, bool)>)
    requires current.None? || current.value.hasMore
    requires forall i :: 0 <= i < |calls| ==> calls[i].0.hasMore
    ensures var r := Replay(current, calls); r.None? || r.value.hasMore
    decreases |calls|
  {
    if |calls| > 0 {
      ReplayKeepsHasMore(AttachRef(current, calls[0].0, calls[0].1), calls[1..]);
    }
  }

  /** While loading or loading more, however often the ref is called, the
      observer stays the one there was. */
  lemma {:induction false} NoObserverWhileLoading(current: Option<Observer>, calls: seq<(Props, bool)>)
    requires forall i :: 0 <= i < |calls| ==> calls[i].0.loading || calls[i].0.loadingMore
    ensures Replay(current, calls) == current
    decreases |calls|
  {
    if |calls| > 0 {
      NoObserverWhileLoading(AttachRef(current, calls[0].0, calls[0].1), calls[1..]);
    }
  }

  /** `onLoadMore` is only ever called when `hasMore` held. Since every
      observer the ref creates captured `hasMore` as true, the callback's own
      `hasMore` test never blocks: an observed intersection always loads
      more. */
  lemma LoadMoreOnlyWhenMore(calls: seq<(Props, bool)>)
    requires forall i :: 0 <= i < |calls| ==> calls[i].0.hasMore
    ensures var o := Replay(None, calls);
      OnIntersect(o, true) <==> o.Some? && o.value.observing
  {
    ReplayKeepsHasMore(None, calls);
  }

  /** Once idle with more to load, attaching the ref to the last article and
      seeing it intersect calls `onLoadMore`. */
  lemma IdleLastItemLoadsMore(current: Option<Observer>, p: Props)
    requires !p.loading && !p.loadingMore && p.hasMore
    ensures OnIntersect(AttachRef(current, p, true), true)
    ensures !OnIntersect(AttachRef(current, p, true), false)
  {
  }
}
