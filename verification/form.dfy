/** `FeedbackForm`: the stand-alone form with a success overlay. A submit
    settles with what `ApiClient.createFeedback` gives (an input); a
    successful one schedules a 1500 ms timer, and the timer firing is a
    separate event that hides the overlay and calls `onSuccess`. */
module FeedbackForm {
  import opened Base
  import opened JsString
  import opened Json
  import opened FeedbackPayload

  /** The delay of the success overlay, in milliseconds. */
  const SuccessDelayMs := 1500

  /** The message limit shown next to the counter. */
  const CounterLimit := "/1000"

  /** The component state. */
  datatype Form = Form(
    name: string,
    message: string,
    email: string,
    hp: string,
    sending: bool,
    error: Option<string>,
    showSuccess: bool)

  /** The state on mount. */
  const Initial := Form("", "", "", "", false, None, false)

  /** A submit: the state afterwards, the request sent (if any) and the
      delay of the timer it scheduled (if any). */
  datatype Step = Step(form: Form, request: Option<Payload>, timer: Option<nat>)

  /** `submit`: nothing happens for a blank message. On success the
      overlay shows, the name, message and email are cleared and the timer
      is scheduled; on failure the error is set, the fields are kept and no
      timer is scheduled. `sending` ends false. */
  function Submit(f: Form, slug: string, sent: Result<Json, Thrown>): (s: Step)
    ensures Blank(f.message) ==> s == Step(f, None, None)
    ensures !Blank(f.message) ==>
      && s.request == Some(BuildPayload(slug, f.name, f.message, f.email, f.hp))
      && !s.form.sending
    ensures !Blank(f.message) && sent.Ok? ==>
      && s.form.showSuccess && s.timer == Some(SuccessDelayMs)
      && s.form.name == "" && s.form.message == "" && s.form.email == "" && s.form.hp == f.hp
      && s.form.error.None?
    ensures !Blank(f.message) && sent.Err? ==>
      && s.timer.None?
      && s.form == f.(sending := false, error := Some(MessageOr(sent.error, SubmitFailed)))
  {
    if Blank(f.message) then Step(f, None, None)
    else
      var request := BuildPayload(slug, f.name, f.message, f.email, f.hp);
      var started := f.(sending := true, error := None);
      match sent
      case Ok(_) =>
        var shown := started.(showSuccess := true, message := "", name := "", email := "");
        Step(shown.(sending := false), Some(request), Some(SuccessDelayMs))
      case Err(e) =>
        Step(started.(error := Some(MessageOr(e, SubmitFailed)), sending := false), Some(request), None)
  }

  /** The timer firing: the state afterwards and how many times
      `onSuccess` was called. */
  datatype Fired = Fired(form: Form, onSuccessCalls: nat)

  /** The timer callback: hide the overlay, then call `onSuccess` once. */
  function TimerFires(f: Form): (r: Fired)
    ensures !r.form.showSuccess && r.onSuccessCalls == 1
    ensures r.form == f.(showSuccess := false)
  {
    Fired(f.(showSuccess := false), 1)
  }

  /** A successful submit is followed by exactly one `onSuccess` call,
      1500 ms later, after which the form is back with empty fields. */
  lemma SuccessCallsBackOnce(f: Form, slug: string, ok: Json)
    requires !Blank(f.message)
    ensures var s := Submit(f, slug, Ok(ok));
      && s.timer == Some(SuccessDelayMs)
      && TimerFires(s.form).onSuccessCalls == 1
      && TimerFires(s.form).form == Form("", "", "", f.hp, false, None, false)
  {
  }

  /** A failed or skipped submit schedules nothing, so `onSuccess` is never
      called. */
  lemma FailureNeverCallsBack(f: Form, slug: string, sent: Result<Json, Thrown>)
    requires Blank(f.message) || sent.Err?
    ensures Submit(f, slug, sent).timer.None?
    ensures Submit(f, slug, sent).form.showSuccess == f.showSuccess
  {
  }

  /** What the component renders: the overlay alone, or the editor with
      its progress bar, message counter, submit button and error note. */
  datatype View =
    | Overlay
    | Editor(progress: bool, counter: string, disabled: bool, caption: string, errorNote: Option<string>)

  /** The rendering of a state. */
  function Render(f: Form): (v: View)
    ensures v.Overlay? <==> f.showSuccess
    ensures v.Editor? ==>
      && v.progress == f.sending
      && v.counter == NatToDecimal(Utf16Length(f.message)) + CounterLimit
      && (v.disabled <==> SubmitDisabled(f.sending, f.message))
      && v.caption == ButtonLabel(f.sending)
      && (v.errorNote.Some? <==> ErrorShown(f.error))
  {
    if f.showSuccess then Overlay
    else
      Editor(f.sending,
             NatToDecimal(Utf16Length(f.message)) + CounterLimit,
             SubmitDisabled(f.sending, f.message),
             ButtonLabel(f.sending),
             if ErrorShown(f.error) then f.error else None)
  }

  /** The button is disabled exactly when a click could not send: a submit
      is in flight, or the message is blank and the submit would be a
      no-op. */
  lemma DisabledIffNothingToSend(f: Form, slug: string, sent: Result<Json, Thrown>)
    requires !f.showSuccess && !f.sending
    ensures Render(f).disabled <==> Submit(f, slug, sent).request.None?
  {
  }

  /** While the overlay shows, the editor is not rendered at all, whatever
      else the state holds; once the timer fires it is back. */
  lemma OverlayHidesEditor(f: Form, slug: string, ok: Json)
    requires !Blank(f.message)
    ensures Render(Submit(f, slug, Ok(ok)).form) == Overlay
    ensures Render(TimerFires(Submit(f, slug, Ok(ok)).form).form).Editor?
  {
  }
}
