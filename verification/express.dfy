/** The Express routes `GET /api/feedback` and `POST /api/feedback` of
    `server/index.ts`. As for the Vercel function, the database is the
    store argument, `fault` what a database call throws, `now` the clock
    and `newId` the driver's id. Express also runs a GET route for HEAD;
    any other method matches no route of the app. */
module ExpressFeedback {
  import opened Base
  import opened JsString
  import opened ObjectIds
  import opened IsoTime
  import opened FeedbackStore
  import opened FeedbackSchema
  import opened Wire

  /** The parts of the request the routes read; Node always supplies a
      method. */
  datatype Request = Request(verb: string, slug: QueryValue, body: Body)

  /** `String(req.query.slug || "")`: a repeated parameter is an array,
      which is truthy even when empty and prints as its elements joined
      by commas. */
  function SlugParam(q: QueryValue): (r: string)
    ensures q.QAbsent? ==> r == ""
    ensures q.QOne? ==> r == q.s
    ensures q.QMany? ==> r == Join(q.xs, ",")
  {
    match q
    case QAbsent => ""
    case QOne(s) => s
    case QMany(xs) => Join(xs, ",")
  }

  /** `(e as Error).message || "Internal Server Error"`: an empty message,
      or a thrown value without one, falls back to the fixed text. */
  function ErrorText(e: Thrown): (r: string)
    ensures r != ""
    ensures e.ErrorValue? && e.message != "" ==> r == e.message
    ensures !(e.ErrorValue? && e.message != "") ==> r == "Internal Server Error"
  {
    match e
    case ErrorValue(m) => if m != "" then m else "Internal Server Error"
    case NonErrorValue => "Internal Server Error"
  }

  function Failure(e: Thrown, store: Store): Outcome
  {
    Outcome(Response(500, ErrorReply(ErrorText(e)), None), store)
  }

  function Answer(status: int, reply: Reply, store: Store): Outcome
  {
    Outcome(Response(status, reply, None), store)
  }

  /** `req.body?.hp` is truthy: any non-empty string, whitespace included,
      or any truthy non-string value. */
  predicate HoneypotTruthy(body: Body)
  {
    body.Object? && Truthy(body.hp)
  }

  /** The GET route. */
  function List(slug: QueryValue, store: Store, fault: Option<Thrown>): (o: Outcome)
    ensures o.store == store
  {
    var s := SlugParam(slug);
    if s == "" then Answer(400, ErrorReply("Missing slug"), store)
    else if fault.Some? then Failure(fault.value, store)
    else Answer(200, Items(ToDtos(Listing(store, s))), store)
  }

  /** The POST route: the honeypot first, then `CommentSchema`, then one
      insert. */
  function Create(body: Body, store: Store, now: TimeValue, newId: ObjectId,
                  fault: Option<Thrown>, isEmail: string -> bool): (o: Outcome)
    ensures o.response.status == 201 <==> o.store != store
  {
    if HoneypotTruthy(body) then Answer(200, Ack, store)
    else
      match SafeParse(body, isEmail, false)
      case None => Answer(400, ErrorReply("Invalid input"), store)
      case Some(sub) =>
        if fault.Some? then Failure(fault.value, store)
        else Answer(201, Ack, Append(store, NewDoc(sub, newId, now)))
  }

  /** The app on `/api/feedback`: `None` when no route matches the method
      (Express's own 404 then answers). No route sends an `Allow` header;
      the store changes only on a 201, by one document at its end. */
  function Handle(req: Request, store: Store, now: TimeValue, newId: ObjectId,
                  fault: Option<Thrown>, isEmail: string -> bool): (o: Option<Outcome>)
    ensures o.None? <==> req.verb != "GET" && req.verb != "HEAD" && req.verb != "POST"
    ensures o.Some? ==> o.value.response.status in {200, 201, 400, 500}
    ensures o.Some? ==> o.value.response.allow.None?
    ensures o.Some? && o.value.response.status != 201 ==> o.value.store == store
    ensures o.Some? && o.value.response.status == 201 ==>
      && |o.value.store| == |store| + 1 && o.value.store[..|store|] == store
      && o.value.store[|store|].id == newId && o.value.store[|store|].createdAt == now
  {
    if req.verb == "GET" || req.verb == "HEAD" then Some(List(req.slug, store, fault))
    else if req.verb == "POST" then Some(Create(req.body, store, now, newId, fault, isEmail))
    else None
  }

  /** A GET whose slug prints as the empty string gets 400 "Missing slug". */
  lemma EmptySlugRejected(req: Request, store: Store, now: TimeValue, newId: ObjectId,
                          fault: Option<Thrown>, isEmail: string -> bool)
    requires req.verb == "GET"
    requires req.slug.QAbsent? || req.slug == QOne("") || req.slug == QMany([]) || req.slug == QMany([""])
    ensures Handle(req, store, now, newId, fault, isEmail)
         == Some(Outcome(Response(400, ErrorReply("Missing slug"), None), store))
  {
  }

  /** A GET lists the thread named by the printed slug, exactly as the
      listing of the store orders and limits it. */
  lemma GetListsThread(req: Request, store: Store, now: TimeValue, newId: ObjectId, isEmail: string -> bool)
    requires req.verb == "GET" && SlugParam(req.slug) != ""
    ensures var o := Handle(req, store, now, newId, None, isEmail);
      var slug := SlugParam(req.slug);
      var docs := Listing(store, slug);
      && o == Some(Outcome(Response(200, Items(ToDtos(docs)), None), store))
      && |docs| <= 150
      && NewestFirst(docs)
      && (forall i :: 0 <= i < |docs| ==> docs[i].slug == slug && docs[i] in store)
  {
    ListingDrawnFromStore(store, SlugParam(req.slug));
  }

  /** A truthy honeypot is answered 200 `{ok: true}` before anything else:
      whitespace-only counts, the rest of the body may be invalid, and the
      database is not reached. */
  lemma HoneypotFirst(req: Request, store: Store, now: TimeValue, newId: ObjectId,
                      fault: Option<Thrown>, isEmail: string -> bool)
    requires req.verb == "POST"
    requires req.body.Object? && Truthy(req.body.hp)
    ensures Handle(req, store, now, newId, fault, isEmail)
         == Some(Outcome(Response(200, Ack, None), store))
  {
  }

  /** Without a truthy honeypot, a body failing `CommentSchema` gets 400
      "Invalid input" and writes nothing. `hp` itself is not validated. */
  lemma InvalidPostRejected(req: Request, store: Store, now: TimeValue, newId: ObjectId,
                            fault: Option<Thrown>, isEmail: string -> bool)
    requires req.verb == "POST"
    requires !HoneypotTruthy(req.body)
    requires !Conforms(req.body, isEmail, false)
    ensures Handle(req, store, now, newId, fault, isEmail)
         == Some(Outcome(Response(400, ErrorReply("Invalid input"), None), store))
  {
  }

  /** A valid body without a truthy honeypot appends one document and
      answers 201. */
  lemma ValidPostAppends(req: Request, store: Store, now: TimeValue, newId: ObjectId, isEmail: string -> bool)
    requires req.verb == "POST"
    requires !HoneypotTruthy(req.body)
    requires Conforms(req.body, isEmail, false)
    ensures var o := Handle(req, store, now, newId, None, isEmail);
      var b := req.body;
      o == Some(Outcome(Response(201, Ack, None), store + [FeedbackDoc(
        newId,
        b.slug.s,
        if b.name.Missing? then "익명" else Trim(b.name.s),
        Trim(b.message.s),
        if b.email.Missing? || b.email.s == "" then None else Some(b.email.s),
        now)]))
  {
  }

  /** When the database throws, a request that reaches it gets 500 with the
      message, or "Internal Server Error" when it is empty or missing. */
  lemma FaultAnswers500(req: Request, store: Store, now: TimeValue, newId: ObjectId,
                        e: Thrown, isEmail: string -> bool)
    requires
      || (req.verb == "GET" && SlugParam(req.slug) != "")
      || (req.verb == "POST" && !HoneypotTruthy(req.body) && Conforms(req.body, isEmail, false))
    ensures Handle(req, store, now, newId, Some(e), isEmail)
         == Some(Outcome(Response(500, ErrorReply(ErrorText(e)), None), store))
  {
  }
}
