/** `EmailModal`: a contact form sent through emailjs, with a sending phase
    that lasts at least `minSendingMs` and a success phase that closes the
    modal after `successDurationMs`. The clock readings and what the send
    settles with are inputs; each timer firing is an event of its own. */
module EmailModal {
  import opened Base
  import JsString

  /** The recipient when none is given. */
  const DefaultToEmail := "gusdn-2137@naver.com"

  /** The shortest sending phase when none is given, in milliseconds. */
  const DefaultMinSendingMs := 2000

  /** How long the success phase shows when not given, in milliseconds. */
  const DefaultSuccessDurationMs := 1900

  /** The properties the phase machine reads. */
  datatype Config = Config(toEmail: string, minSendingMs: int, successDurationMs: int, hasOnSuccess: bool)

  /** The configuration of a modal given no optional properties. */
  const Defaults := Config(DefaultToEmail, DefaultMinSendingMs, DefaultSuccessDurationMs, false)

  /** `Phase`. */
  datatype Phase = FormPhase | Sending | Success

  /** `formData`. */
  datatype FormData = FormData(name: string, email: string, subject: string, message: string)

  /** The cleared form. */
  const EmptyForm := FormData("", "", "", "")

  /** The component state; `sendStart` is `sendStartRef.current`. */
  datatype Modal = Modal(data: FormData, isSending: bool, phase: Phase, sendStart: Option<int>)

  /** The state on mount. */
  const Initial := Modal(EmptyForm, false, FormPhase, None)

  /** The parameters handed to `emailjs.send`. */
  datatype EmailParams = EmailParams(fromName: string, fromEmail: string, subject: string, message: string, toEmail: string)

  /** The callbacks a step calls, in order. */
  datatype Callback = OnSuccess | OnClose

  /** A step: the state afterwards, the mail sent (if any), whether an
      alert shows, the delay of a timer it scheduled (if any) and the
      callbacks it called. */
  datatype Step = Step(modal: Modal, sent: Option<EmailParams>, alert: bool, timer: Option<int>, calls: seq<Callback>)

  /** The required-field check: a field fails only when it is the empty
      string, so blanks pass. */
  predicate Complete(d: FormData)
  {
    d.name != "" && d.email != "" && d.subject != "" && d.message != ""
  }

  /** The phases and the sending flag move together in every state the
      modal reaches. */
  predicate Consistent(m: Modal)
  {
    (m.phase == Sending <==> m.isSending) && (m.phase == Sending ==> m.sendStart.Some?)
  }

  /** `handleSubmit` up to the send: an incomplete form alerts and changes
      nothing; a complete one enters the sending phase at `start` and sends
      the fields to the configured recipient. */
  function Submit(m: Modal, cfg: Config, start: int): (s: Step)
    ensures !Complete(m.data) ==> s == Step(m, None, true, None, [])
    ensures Complete(m.data) ==>
      && s.modal == m.(isSending := true, phase := Sending, sendStart := Some(start))
      && s.sent == Some(EmailParams(m.data.name, m.data.email, m.data.subject, m.data.message, cfg.toEmail))
      && !s.alert && s.timer.None? && s.calls == []
  {
    if !Complete(m.data) then Step(m, None, true, None, [])
    else
      var d := m.data;
      Step(m.(isSending := true, phase := Sending, sendStart := Some(start)),
           Some(EmailParams(d.name, d.email, d.subject, d.message, cfg.toEmail)), false, None, [])
  }

  /** `Math.max(minSendingMs - elapsed, 0)`: the least non-negative wait
      that makes the sending phase last `minMs`. */
  function Wait(minMs: int, elapsed: int): (w: int)
    ensures w >= 0 && elapsed + w >= minMs
    ensures w == 0 || elapsed + w == minMs
  {
    if minMs - elapsed > 0 then minMs - elapsed else 0
  }

  /** No shorter wait keeps both promises. */
  lemma WaitLeast(minMs: int, elapsed: int, w: int)
    requires w >= 0 && elapsed + w >= minMs
    ensures Wait(minMs, elapsed) <= w
  {
  }

  /** The send settling at `now`: on success the state is kept and the
      first timer is scheduled for the rest of the minimum sending time; on
      failure the form is back with its fields and an alert shows. */
  function Settle(m: Modal, cfg: Config, sent: Result<(), Thrown>, now: int): (s: Step)
    ensures sent.Ok? ==> s.modal == m && !s.alert && s.calls == []
    ensures sent.Ok? ==> s.timer == Some(Wait(cfg.minSendingMs, now - m.sendStart.GetOr(now)))
    ensures sent.Err? ==> s == Step(m.(isSending := false, phase := FormPhase), None, true, None, [])
  {
    match sent
    case Ok(_) =>
      var elapsed := now - m.sendStart.GetOr(now);
      Step(m, None, false, Some(Wait(cfg.minSendingMs, elapsed)), [])
    case Err(_) =>
      Step(m.(isSending := false, phase := FormPhase), None, true, None, [])
  }

  /** The first timer: the success phase, sending over, the fields cleared,
      and the second timer scheduled. */
  function SuccessShown(m: Modal, cfg: Config): (s: Step)
    ensures s.modal.phase == Success && !s.modal.isSending && s.modal.data == EmptyForm
    ensures s.modal.sendStart == m.sendStart
    ensures s.timer == Some(cfg.successDurationMs) && s.sent.None? && !s.alert && s.calls == []
  {
    Step(m.(phase := Success, isSending := false, data := EmptyForm), None, false, Some(cfg.successDurationMs), [])
  }

  /** The second timer: `onSuccess` if given, then `onClose`, and the form
      phase again. */
  function Closed(m: Modal, cfg: Config): (s: Step)
    ensures s.modal == m.(phase := FormPhase)
    ensures s.calls == if cfg.hasOnSuccess then [OnSuccess, OnClose] else [OnClose]
    ensures s.sent.None? && !s.alert && s.timer.None?
  {
    Step(m.(phase := FormPhase), None, false, None,
         (if cfg.hasOnSuccess then [OnSuccess] else []) + [OnClose])
  }

  /** A complete form, sent successfully: the sending phase lasts at least
      the minimum, then the success phase shows with the fields cleared, and
      then `onSuccess` and `onClose` run and the form phase is back. */
  lemma SendSucceeds(m: Modal, cfg: Config, start: int, now: int)
    requires Complete(m.data) && start <= now
    ensures var s1 := Submit(m, cfg, start);
      var s2 := Settle(s1.modal, cfg, Ok(()), now);
      var s3 := SuccessShown(s2.modal, cfg);
      var s4 := Closed(s3.modal, cfg);
      && s1.modal.phase == Sending && s1.modal.isSending
      && s2.timer.Some? && now + s2.timer.value >= start + cfg.minSendingMs
      && s2.timer.value >= 0
      && s3.modal.phase == Success && !s3.modal.isSending && s3.modal.data == EmptyForm
      && s4.modal.phase == FormPhase && s4.modal.data == EmptyForm
      && s4.calls[|s4.calls| - 1] == OnClose
      && (cfg.hasOnSuccess ==> s4.calls == [OnSuccess, OnClose])
  {
  }

  /** A failed send keeps the fields, so sending again sends the same
      mail. */
  lemma RetrySendsSameMail(m: Modal, cfg: Config, start: int, e: Thrown, now: int, start2: int)
    requires Complete(m.data)
    ensures var s1 := Submit(m, cfg, start);
      var s2 := Settle(s1.modal, cfg, Err(e), now);
      && s2.modal.phase == FormPhase && !s2.modal.isSending && s2.modal.data == m.data
      && Submit(s2.modal, cfg, start2).sent == s1.sent
  {
  }

  /** A non-empty field of spaces only: `trim()` would empty it, but `!field`
      does not refuse it. */
  predicate Blank(s: string)
  {
    s != "" && JsString.AllSpace(s)
  }

  /** Blank text passes the required-field check: only the empty string is
      refused, so fields that trim to nothing are sent as they are. */
  lemma BlanksPass(m: Modal, cfg: Config, start: int)
    requires Blank(m.data.name) && Blank(m.data.email) && Blank(m.data.subject) && Blank(m.data.message)
    ensures JsString.Trim(m.data.name) == "" && JsString.Trim(m.data.email) == ""
    ensures JsString.Trim(m.data.subject) == "" && JsString.Trim(m.data.message) == ""
    ensures Submit(m, cfg, start).sent == Some(EmailParams(m.data.name, m.data.email, m.data.subject, m.data.message, cfg.toEmail))
  {
    JsString.TrimEmptyIffAllSpace(m.data.name);
    JsString.TrimEmptyIffAllSpace(m.data.email);
    JsString.TrimEmptyIffAllSpace(m.data.subject);
    JsString.TrimEmptyIffAllSpace(m.data.message);
  }

  /** With no optional properties: the mail goes to the default recipient,
      a send that settles at once waits the full 2000 ms, and the success
      phase shows for 1900 ms. */
  lemma DefaultTimings(m: Modal, start: int)
    requires Complete(m.data)
    ensures var s1 := Submit(m, Defaults, start);
      var s2 := Settle(s1.modal, Defaults, Ok(()), start);
      var s3 := SuccessShown(s2.modal, Defaults);
      && s1.sent.Some? && s1.sent.value.toEmail == "gusdn-2137@naver.com"
      && s2.timer == Some(2000)
      && s3.timer == Some(1900)
  {
  }

  /** Every step keeps the phase and the sending flag in step. */
  lemma StepsKeepConsistent(m: Modal, cfg: Config, t: int, sent: Result<(), Thrown>)
    requires Consistent(m)
    ensures Consistent(Submit(m, cfg, t).modal)
    ensures m.phase == Sending ==> Consistent(Settle(m, cfg, sent, t).modal)
    ensures Consistent(SuccessShown(m, cfg).modal)
    ensures m.phase == Success ==> Consistent(Closed(m, cfg).modal)
  {
  }

  /** The form with its submit button, as rendered in the form phase. */
  datatype FormView = FormView(sendDisabled: bool, caption: string)

  /** The modal as rendered when open: the close button, the form, and the
      sending and success animations. */
  datatype ModalView = ModalView(closeButton: bool, form: Option<FormView>, sendingAnimation: bool, successAnimation: bool)

  /** The rendering: nothing when closed. */
  function Render(m: Modal, isOpen: bool): (v: Option<ModalView>)
    ensures v.Some? <==> isOpen
    ensures v.Some? ==> (v.value.closeButton <==> !m.isSending && m.phase != Success)
    ensures v.Some? ==> (v.value.form.Some? <==> m.phase == FormPhase)
    ensures v.Some? && v.value.form.Some? ==> (v.value.form.value.sendDisabled <==> m.isSending)
    ensures v.Some? ==> (v.value.sendingAnimation <==> m.phase == Sending)
    ensures v.Some? ==> (v.value.successAnimation <==> m.phase == Success)
  {
    if !isOpen then None
    else
      Some(ModalView(
        !m.isSending && m.phase != Success,
        if m.phase == FormPhase then Some(FormView(m.isSending, if m.isSending then "전송 중..." else "메일 보내기")) else None,
        m.phase == Sending,
        m.phase == Success))
  }

  /** In a reachable state the close button shows exactly in the form
      phase, and there the send button is enabled. */
  lemma CloseOnlyInForm(m: Modal)
    requires Consistent(m)
    ensures Render(m, true).value.closeButton <==> m.phase == FormPhase
    ensures m.phase == FormPhase ==> !Render(m, true).value.form.value.sendDisabled
  {
  }
}
