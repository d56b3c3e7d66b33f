/** `FeedbackPage`: the list of entries on the left, the form on the right.
    The component state is a record and each event a function on it.
    Awaited calls are inputs: what `ApiClient.getFeedbacks` settles with
    for a load, and what `ApiClient.createFeedback` settles with for a
    submit. `new Date(createdAt)` is the input `localTime`. */
module FeedbackPage {
  import opened Base
  import opened JsString
  import opened Json
  import opened FeedbackStore
  import opened LocalDate
  import opened FeedbackPayload

  /** The page's `slug` property when none is given. */
  const DefaultSlug := "/feedback"

  /** The error shown when a load rejects with something that is not an
      `Error`. */
  const LoadFailed := "목록을 불러오지 못했습니다."

  /** The component state; `error` is `None` for `null`. */
  datatype Page = Page(
    items: seq<FeedbackDto>,
    name: string,
    message: string,
    email: string,
    hp: string,
    loading: bool,
    sending: bool,
    error: Option<string>)

  /** The state on mount, before the first load has settled. */
  const Initial := Page([], "", "", "", "", true, false, None)

  /** The typed-in fields; `hp` is the hidden honeypot. */
  predicate SameDraft(p: Page, q: Page)
  {
    p.name == q.name && p.message == q.message && p.email == q.email && p.hp == q.hp
  }

  /** `load()`: loading starts and the error is cleared; then the items
      are replaced, or kept with the error set; loading ends either way. */
  function Load(p: Page, fetched: Result<seq<FeedbackDto>, Thrown>): (q: Page)
    ensures !q.loading && SameDraft(p, q) && q.sending == p.sending
    ensures fetched.Ok? ==> q.items == fetched.value && q.error.None?
    ensures fetched.Err? ==> q.items == p.items && q.error == Some(MessageOr(fetched.error, LoadFailed))
  {
    var started := p.(loading := true, error := None);
    match fetched
    case Ok(xs) => started.(items := xs, loading := false)
    case Err(e) => started.(error := Some(MessageOr(e, LoadFailed)), loading := false)
  }

  /** A submit: the state afterwards, and the request sent, if any. */
  datatype Step = Step(page: Page, request: Option<Payload>)

  /** `submit`: nothing happens for a blank message. Otherwise the payload
      is sent; on success the name, message and email are cleared and the
      list reloaded (`reloaded` is what that load settles with); on failure
      the error is set and the draft kept. `sending` ends false. */
  function Submit(p: Page, slug: string, sent: Result<Json, Thrown>,
                  reloaded: Result<seq<FeedbackDto>, Thrown>): (s: Step)
    ensures Blank(p.message) ==> s == Step(p, None)
    ensures !Blank(p.message) ==>
      && s.request == Some(BuildPayload(slug, p.name, p.message, p.email, p.hp))
      && !s.page.sending
    ensures !Blank(p.message) && sent.Ok? ==>
      && s.page.name == "" && s.page.message == "" && s.page.email == "" && s.page.hp == p.hp
      && s.page == Load(s.page, reloaded)
      && (reloaded.Err? ==> s.page.items == p.items)
    ensures !Blank(p.message) && sent.Err? ==>
      s.page == p.(error := Some(MessageOr(sent.error, SubmitFailed)), sending := false)
  {
    if Blank(p.message) then Step(p, None)
    else
      var request := BuildPayload(slug, p.name, p.message, p.email, p.hp);
      var started := p.(sending := true, error := None);
      match sent
      case Ok(_) =>
        var cleared := started.(message := "", name := "", email := "");
        Step(Load(cleared, reloaded).(sending := false), Some(request))
      case Err(e) =>
        Step(started.(error := Some(MessageOr(e, SubmitFailed)), sending := false), Some(request))
  }

  /** Loading again with the same result changes nothing more. */
  lemma LoadIdempotent(p: Page, fetched: Result<seq<FeedbackDto>, Thrown>)
    ensures Load(Load(p, fetched), fetched) == Load(p, fetched)
  {
  }

  /** After a failed submit the draft is kept, so submitting again sends
      the same request. */
  lemma RetrySendsSameRequest(p: Page, slug: string, e: Thrown, sent: Result<Json, Thrown>,
                              reloaded: Result<seq<FeedbackDto>, Thrown>)
    requires !Blank(p.message)
    ensures var first := Submit(p, slug, Err(e), reloaded);
      Submit(first.page, slug, sent, reloaded).request == first.request
  {
  }

  /** After a successful submit the message is empty, so submitting again
      sends nothing. */
  lemma SubmitAfterSuccessSendsNothing(p: Page, slug: string, ok: Json, sent: Result<Json, Thrown>,
                                       reloaded: Result<seq<FeedbackDto>, Thrown>)
    requires !Blank(p.message)
    ensures var first := Submit(p, slug, Ok(ok), reloaded);
      Submit(first.page, slug, sent, reloaded) == Step(first.page, None)
  {
    var first := Submit(p, slug, Ok(ok), reloaded);
    assert first.page.message == "";
    TrimEmptyIffAllSpace("");
  }

  /** One listed entry: its key, name, `date time` stamp and message. */
  datatype Row = Row(key: string, name: string, stamp: string, message: string)

  /** What the left column shows in place of the list. */
  datatype ListView = Spinner | ErrorPanel(text: string) | EmptyNote | Rows(rows: seq<Row>)

  /** The rendered page: the list column, the count line (`총 N개의
      피드백`), the progress bar, the submit button and the form's error
      note. */
  datatype View = View(
    list: ListView,
    count: Option<string>,
    progress: bool,
    submitDisabled: bool,
    buttonLabel: string,
    errorNote: Option<string>)

  /** An entry as a row. */
  function RowOf(it: FeedbackDto, localTime: string -> LocalTime): (r: Row)
    ensures r.key == it.id && r.name == it.name && r.message == it.message
    ensures r.stamp == DateText(localTime(it.createdAt)) + " " + TimeText(localTime(it.createdAt))
  {
    var t := localTime(it.createdAt);
    Row(it.id, it.name, DateText(t) + " " + TimeText(t), it.message)
  }

  /** The count line. */
  function CountText(n: nat): string
  {
    "총 " + NatToDecimal(n) + "개의 피드백"
  }

  /** The page for a state: loading wins over the error, the error over the
      empty note, the empty note over the rows; the count line shows only
      when neither loading nor showing an error. */
  function Render(p: Page, localTime: string -> LocalTime): (v: View)
    ensures v.list.Spinner? <==> p.loading
    ensures v.list.ErrorPanel? <==> !p.loading && ErrorShown(p.error)
    ensures v.list.ErrorPanel? ==> v.list.text == p.error.value
    ensures v.list.EmptyNote? <==> !p.loading && !ErrorShown(p.error) && |p.items| == 0
    ensures v.list.Rows? ==>
      && |v.list.rows| == |p.items| > 0
      && forall i :: 0 <= i < |p.items| ==> v.list.rows[i] == RowOf(p.items[i], localTime)
    ensures v.count.Some? <==> !p.loading && !ErrorShown(p.error)
    ensures v.count.Some? ==> v.count.value == CountText(|p.items|)
    ensures v.progress == p.sending
    ensures v.submitDisabled <==> SubmitDisabled(p.sending, p.message)
    ensures v.errorNote.Some? <==> ErrorShown(p.error)
  {
    var list :=
      if p.loading then Spinner
      else if ErrorShown(p.error) then ErrorPanel(p.error.value)
      else if |p.items| == 0 then EmptyNote
      else Rows(seq(|p.items|, i requires 0 <= i < |p.items| => RowOf(p.items[i], localTime)));
    var count := if !p.loading && !ErrorShown(p.error) then Some(CountText(|p.items|)) else None;
    View(list, count, p.sending, SubmitDisabled(p.sending, p.message), ButtonLabel(p.sending),
         if ErrorShown(p.error) then p.error else None)
  }

  /** After a successful load the page shows exactly the loaded entries,
      in order, or the empty note, and counts them. */
  lemma LoadedPageShowsItems(p: Page, xs: seq<FeedbackDto>, localTime: string -> LocalTime)
    ensures var v := Render(Load(p, Ok(xs)), localTime);
      && (xs == [] ==> v.list == EmptyNote)
      && (xs != [] ==>
            && v.list.Rows? && |v.list.rows| == |xs|
            && forall i :: 0 <= i < |xs| ==> v.list.rows[i].key == xs[i].id)
      && v.count == Some(CountText(|xs|))
  {
  }

  /** After a failed load with a non-empty message the page shows the
      error, hides the count, and keeps the entries it had. */
  lemma FailedLoadShowsError(p: Page, e: Thrown, localTime: string -> LocalTime)
    requires MessageOr(e, LoadFailed) != ""
    ensures var q := Load(p, Err(e));
      && Render(q, localTime).list == ErrorPanel(MessageOr(e, LoadFailed))
      && Render(q, localTime).count.None?
      && q.items == p.items
  {
  }
}
