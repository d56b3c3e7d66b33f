/** What the feedback page and the feedback form send on submit, the
    controls they share, and how the servers take what is sent. Both
    components build the request the same way: the trimmed name or
    "익명", the trimmed message, the trimmed email or nothing, and the
    honeypot exactly as typed. */
module FeedbackPayload {
  import opened Base
  import opened JsString
  import opened ObjectIds
  import opened IsoTime
  import opened FeedbackStore
  import opened FeedbackSchema
  import opened Wire
  import V = VercelFeedback
  import E = ExpressFeedback

  /** `CreateFeedbackRequest`; `email: undefined` is left out by
      `JSON.stringify`, hence `None`. */
  datatype Payload = Payload(slug: string, name: string, message: string, email: Option<string>, hp: string)

  /** The error shown when a submit rejects with something that is not an
      `Error`. */
  const SubmitFailed := "등록 실패"

  /** `!message.trim()`: submitting is a no-op. */
  predicate Blank(message: string)
  {
    Trim(message) == ""
  }

  /** `disabled={sending || !message.trim()}` on the submit button. */
  predicate SubmitDisabled(sending: bool, message: string)
  {
    sending || Blank(message)
  }

  /** The submit button's label. */
  function ButtonLabel(sending: bool): string
  {
    if sending then "등록 중..." else "등록"
  }

  /** `{error && ...}`: an error is shown only when it is a non-empty
      string. */
  predicate ErrorShown(error: Option<string>)
  {
    error.Some? && error.value != ""
  }

  /** The request body built from the form fields. */
  function BuildPayload(slug: string, name: string, message: string, email: string, hp: string): (p: Payload)
    ensures p.slug == slug && p.hp == hp && p.message == Trim(message)
    ensures !Blank(name) ==> p.name == Trim(name)
    ensures Blank(name) ==> p.name == Anonymous
    ensures p.email.Some? <==> !Blank(email)
    ensures p.email.Some? ==> p.email.value == Trim(email)
  {
    Payload(slug,
            if Trim(name) != "" then Trim(name) else Anonymous,
            Trim(message),
            if Trim(email) != "" then Some(Trim(email)) else None,
            hp)
  }

  /** The default name has no space at either end. */
  lemma AnonymousTrimmed()
    ensures IsTrimmed(Anonymous) && Trim(Anonymous) == Anonymous
    ensures Utf16Length(Anonymous) == 2
  {
    assert Anonymous == ['익', '명'];
    TrimFixesTrimmed(Anonymous);
  }

  /** A built payload is already normal: its name is never blank, and its
      name, message and email carry no surrounding spaces. */
  lemma {:induction false} PayloadNormal(slug: string, name: string, message: string, email: string, hp: string)
    ensures var p := BuildPayload(slug, name, message, email, hp);
      && IsTrimmed(p.name) && p.name != ""
      && IsTrimmed(p.message)
      && (p.email.Some? ==> IsTrimmed(p.email.value) && p.email.value != "")
  {
    AnonymousTrimmed();
  }

  /** Building a payload from the fields of a built one gives it back:
      normalisation is idempotent. */
  lemma {:induction false} BuildPayloadIdempotent(slug: string, name: string, message: string, email: string, hp: string)
    ensures var p := BuildPayload(slug, name, message, email, hp);
      BuildPayload(p.slug, p.name, p.message, p.email.GetOr(""), p.hp) == p
  {
    var p := BuildPayload(slug, name, message, email, hp);
    TrimIdempotent(name);
    TrimIdempotent(message);
    TrimIdempotent(email);
    AnonymousTrimmed();
    assert Trim("") == "" by { TrimEmptyIffAllSpace(""); }
  }

  /** The body the servers parse from the payload. */
  function PayloadBody(p: Payload): (b: Body)
    ensures b.Object? && b.slug == Text(p.slug) && b.name == Text(p.name) && b.message == Text(p.message)
    ensures b.email == (if p.email.Some? then Text(p.email.value) else Missing)
    ensures b.hp == Text(p.hp)
  {
    Object(Text(p.slug), Text(p.name), Text(p.message),
           if p.email.Some? then Text(p.email.value) else Missing,
           Text(p.hp))
  }

  /** The fields of the form are within what the schema allows: a slug of
      1 to 200 code units, a message and a name that fit once trimmed, and
      an email that is blank or passes the email check. */
  predicate WithinSchema(slug: string, name: string, message: string, email: string, isEmail: string -> bool)
  {
    && 1 <= Utf16Length(slug) <= SlugMax
    && !Blank(message) && Utf16Length(Trim(message)) <= MessageMax
    && Utf16Length(Trim(name)) <= NameMax
    && (Blank(email) || isEmail(Trim(email)))
  }

  /** A submitted payload from fields within the schema passes both
      schemas. */
  lemma {:induction false} PayloadConforms(slug: string, name: string, message: string, email: string, hp: string,
                                           isEmail: string -> bool, withHp: bool)
    requires WithinSchema(slug, name, message, email, isEmail)
    ensures Conforms(PayloadBody(BuildPayload(slug, name, message, email, hp)), isEmail, withHp)
  {
    var p := BuildPayload(slug, name, message, email, hp);
    TrimIdempotent(name);
    TrimIdempotent(message);
    AnonymousTrimmed();
    assert Utf16Length(Trim(message)) >= 1 by {
      var t := Trim(message);
      assert t != [];
      assert Utf16Length(t) == CodeUnits(t[0]) + Utf16Length(t[1..]);
    }
    if !Blank(name) {
      var t := Trim(name);
      assert Utf16Length(t) == CodeUnits(t[0]) + Utf16Length(t[1..]);
    }
  }

  /** End to end on the Vercel function: with an empty honeypot, a submit
      from fields within the schema is stored as exactly the normalised
      payload, and answered 201. */
  lemma {:induction false} VercelStoresPayload(slug: string, name: string, message: string, email: string,
                                               q: QueryValue, store: Store, now: TimeValue, newId: ObjectId,
                                               isEmail: string -> bool)
    requires WithinSchema(slug, name, message, email, isEmail)
    ensures var p := BuildPayload(slug, name, message, email, "");
      V.Handle(V.Request(Some("POST"), q, PayloadBody(p)), store, now, newId, None, isEmail)
      == Outcome(Response(201, Ack, None), store + [FeedbackDoc(newId, p.slug, p.name, p.message, p.email, now)])
  {
    var p := BuildPayload(slug, name, message, email, "");
    PayloadConforms(slug, name, message, email, "", isEmail, true);
    PayloadNormal(slug, name, message, email, "");
    TrimFixesTrimmed(p.name);
    TrimFixesTrimmed(p.message);
    assert Trim("") == "" by { TrimEmptyIffAllSpace(""); }
    V.ValidPostAppends(V.Request(Some("POST"), q, PayloadBody(p)), store, now, newId, isEmail);
  }

  /** End to end on the Express app: the same submit is stored the same
      way. */
  lemma {:induction false} ExpressStoresPayload(slug: string, name: string, message: string, email: string,
                                                q: QueryValue, store: Store, now: TimeValue, newId: ObjectId,
                                                isEmail: string -> bool)
    requires WithinSchema(slug, name, message, email, isEmail)
    ensures var p := BuildPayload(slug, name, message, email, "");
      E.Handle(E.Request("POST", q, PayloadBody(p)), store, now, newId, None, isEmail)
      == Some(Outcome(Response(201, Ack, None), store + [FeedbackDoc(newId, p.slug, p.name, p.message, p.email, now)]))
  {
    var p := BuildPayload(slug, name, message, email, "");
    PayloadConforms(slug, name, message, email, "", isEmail, false);
    PayloadNormal(slug, name, message, email, "");
    TrimFixesTrimmed(p.name);
    TrimFixesTrimmed(p.message);
    E.ValidPostAppends(E.Request("POST", q, PayloadBody(p)), store, now, newId, isEmail);
  }
}
