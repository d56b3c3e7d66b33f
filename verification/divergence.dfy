/** Where the Vercel function and the Express app agree and where they part
    ways, stated over the same request, store, clock, id and fault. */
module ServerDivergence {
  import opened Base
  import opened JsString
  import opened ObjectIds
  import opened IsoTime
  import opened FeedbackStore
  import opened FeedbackSchema
  import opened Wire
  import V = VercelFeedback
  import E = ExpressFeedback

  /** A join of two or more parts is longer than its first part. */
  lemma {:induction false} JoinLonger(xs: seq<string>, sep: string)
    requires |xs| >= 2
    ensures |Join(xs, sep)| >= |xs[0]| + |sep|
    ensures Join(xs, sep)[..|xs[0]|] == xs[0]
  {
    assert Join(xs, sep) == xs[0] + sep + Join(xs[1..], sep);
  }

  /** The two servers read the same slug exactly when the parameter is not
      repeated: `?slug=a&slug=b` is "a" for Vercel and "a,b" for Express. */
  lemma SlugReadingsAgreeIffNotRepeated(q: QueryValue)
    ensures V.GetFirst(q) == E.SlugParam(q) <==> !(q.QMany? && |q.xs| >= 2)
  {
    if q.QMany? && |q.xs| >= 2 {
      JoinLonger(q.xs, ",");
    }
  }

  /** A thrown value on which both catch clauses report the same text. */
  predicate SameReport(fault: Option<Thrown>)
  {
    fault.None? || (fault.value.ErrorValue? && fault.value.message != "")
  }

  /** On a GET with a parameter that is not repeated, both servers give the
      same outcome, as long as any error carries a non-empty message. */
  lemma GetAgrees(q: QueryValue, body: Body, store: Store, now: TimeValue, newId: ObjectId,
                  fault: Option<Thrown>, isEmail: string -> bool)
    requires !(q.QMany? && |q.xs| >= 2)
    requires SameReport(fault)
    ensures E.Handle(E.Request("GET", q, body), store, now, newId, fault, isEmail)
         == Some(V.Handle(V.Request(Some("GET"), q, body), store, now, newId, fault, isEmail))
  {
    SlugReadingsAgreeIffNotRepeated(q);
    V.HandleGet(V.Request(Some("GET"), q, body), store, now, newId, fault, isEmail);
  }

  /** On a POST whose body has no `hp` property, both servers give the same
      outcome, as long as any error carries a non-empty message. */
  lemma PostWithoutHoneypotAgrees(body: Body, q: QueryValue, store: Store, now: TimeValue, newId: ObjectId,
                                  fault: Option<Thrown>, isEmail: string -> bool)
    requires body.NonObject? || body.hp.Missing?
    requires SameReport(fault)
    ensures E.Handle(E.Request("POST", q, body), store, now, newId, fault, isEmail)
         == Some(V.Handle(V.Request(Some("POST"), q, body), store, now, newId, fault, isEmail))
  {
    V.HandlePost(V.Request(Some("POST"), q, body), store, now, newId, fault, isEmail);
    assert SafeParse(body, isEmail, true) == SafeParse(body, isEmail, false);
  }

  /** A whitespace-only honeypot on an otherwise valid body: Vercel trims it
      away and stores the feedback; Express finds it truthy and stores
      nothing. */
  lemma WhitespaceHoneypotDiverges(body: Body, q: QueryValue, store: Store, now: TimeValue, newId: ObjectId,
                                   isEmail: string -> bool)
    requires Conforms(body, isEmail, true)
    requires body.hp.Text? && body.hp.s != "" && AllSpace(body.hp.s)
    ensures V.Handle(V.Request(Some("POST"), q, body), store, now, newId, None, isEmail).response.status == 201
    ensures |V.Handle(V.Request(Some("POST"), q, body), store, now, newId, None, isEmail).store| == |store| + 1
    ensures E.Handle(E.Request("POST", q, body), store, now, newId, None, isEmail)
         == Some(Outcome(Response(200, Ack, None), store))
  {
    TrimEmptyIffAllSpace(body.hp.s);
  }

  /** A truthy honeypot on a body the Vercel schema rejects (including a
      non-string `hp`): Vercel answers 400, Express 200. Neither writes. */
  lemma InvalidBodyWithHoneypotDiverges(body: Body, q: QueryValue, store: Store, now: TimeValue, newId: ObjectId,
                                        fault: Option<Thrown>, isEmail: string -> bool)
    requires body.Object? && Truthy(body.hp)
    requires !Conforms(body, isEmail, true)
    ensures V.Handle(V.Request(Some("POST"), q, body), store, now, newId, fault, isEmail)
         == Outcome(Response(400, ErrorReply("Invalid input"), None), store)
    ensures E.Handle(E.Request("POST", q, body), store, now, newId, fault, isEmail)
         == Some(Outcome(Response(200, Ack, None), store))
  {
  }

  /** A method other than GET, HEAD or POST: Vercel answers 405 with an
      `Allow` header, the Express app has no route for it. */
  lemma OtherMethodDiverges(verb: string, q: QueryValue, body: Body, store: Store, now: TimeValue,
                            newId: ObjectId, fault: Option<Thrown>, isEmail: string -> bool)
    requires verb != "GET" && verb != "HEAD" && verb != "POST"
    ensures V.Handle(V.Request(Some(verb), q, body), store, now, newId, fault, isEmail).response
         == Response(405, ErrorReply("Method Not Allowed"), Some("GET, POST"))
    ensures E.Handle(E.Request(verb, q, body), store, now, newId, fault, isEmail).None?
  {
  }

  /** An error with an empty message: Vercel reports the empty string,
      Express the fixed fallback text. */
  lemma EmptyErrorMessageDiverges(q: QueryValue, body: Body, store: Store, now: TimeValue,
                                  newId: ObjectId, isEmail: string -> bool)
    requires V.GetFirst(q) != "" && E.SlugParam(q) != ""
    ensures V.Handle(V.Request(Some("GET"), q, body), store, now, newId, Some(ErrorValue("")), isEmail).response
         == Response(500, ErrorReply(""), None)
    ensures E.Handle(E.Request("GET", q, body), store, now, newId, Some(ErrorValue("")), isEmail)
         == Some(Outcome(Response(500, ErrorReply("Internal Server Error"), None), store))
  {
    V.HandleGet(V.Request(Some("GET"), q, body), store, now, newId, Some(ErrorValue("")), isEmail);
  }

  /** The wire form of the listing after appending a document newer than
      the rest of its thread starts with that document's entry. */
  lemma NewEntryHeadsWireListing(store: Store, d: FeedbackDoc)
    requires forall x :: x in store && x.slug == d.slug ==> x.createdAt < d.createdAt
    ensures var items := ToDtos(Listing(Append(store, d), d.slug));
      && |items| > 0 && items[0] == ToDto(d)
      && items[0].slug == d.slug && items[0].message == d.message
      && ParseHex(items[0].id) == Some(d.id)
  {
    NewestHeadsListing(store, d);
  }

  /** Posting to the Vercel function and then listing the thread: when the
      clock has moved past every earlier entry of the thread, the new entry
      heads the listing. */
  lemma {:induction false} CreateThenList(body: Body, q: QueryValue, store: Store, now: TimeValue,
                                          newId: ObjectId, isEmail: string -> bool)
    requires Conforms(body, isEmail, true)
    requires !(body.hp.Text? && Trim(body.hp.s) != "")
    requires forall x :: x in store && x.slug == body.slug.s ==> x.createdAt < now
    ensures var after := V.Handle(V.Request(Some("POST"), q, body), store, now, newId, None, isEmail).store;
      var reply := V.Handle(V.Request(Some("GET"), QOne(body.slug.s), body), after, now, newId, None, isEmail).response.reply;
      && reply.Items? && |reply.items| > 0
      && reply.items[0].slug == body.slug.s
      && reply.items[0].message == Trim(body.message.s)
      && ParseHex(reply.items[0].id) == Some(newId)
  {
    var d := NewDoc(SafeParse(body, isEmail, true).value, newId, now);
    V.PostThenGet(body, q, store, now, newId, isEmail);
    NewEntryHeadsWireListing(store, d);
  }
}
