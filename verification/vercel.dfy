/** The Vercel function `api/feedback.ts`: one handler for every method
    on `/api/feedback`. The database is the store argument; `fault` is the
    value a database call throws, if one does; `now` is `new Date()` and
    `newId` the id the driver assigns. */
module VercelFeedback {
  import opened Base
  import opened JsString
  import opened ObjectIds
  import opened IsoTime
  import opened FeedbackStore
  import opened FeedbackSchema
  import opened Wire

  /** The parts of the request the handler reads. */
  datatype Request = Request(verb: Option<string>, slug: QueryValue, body: Body)

  /** `getFirst`: the first of repeated values, or the value itself;
      `""` stands for nothing. */
  function GetFirst(q: QueryValue): (r: string)
    ensures q.QAbsent? || (q.QMany? && q.xs == []) ==> r == ""
    ensures q.QOne? ==> r == q.s
    ensures q.QMany? && q.xs != [] ==> r == q.xs[0]
  {
    match q
    case QAbsent => ""
    case QOne(s) => s
    case QMany(xs) => if xs == [] then "" else xs[0]
  }

  /** The catch clause: 500 with the error's message, or the fixed text
      for a thrown value that is not an `Error`. */
  function Failure(e: Thrown, store: Store): (o: Outcome)
    ensures o.store == store && o.response.status == 500
    ensures o.response.reply == ErrorReply(MessageOr(e, "Internal Server Error"))
  {
    Outcome(Response(500, ErrorReply(MessageOr(e, "Internal Server Error")), None), store)
  }

  /** The reply for `status` with no header and no write. */
  function Answer(status: int, reply: Reply, store: Store): Outcome
  {
    Outcome(Response(status, reply, None), store)
  }

  /** `hp && hp.trim()`: the honeypot holds something besides spaces. */
  predicate HoneypotFilled(hp: Option<string>)
  {
    hp.Some? && Trim(hp.value) != ""
  }

  /** GET: list the thread named by `slug`. */
  function List(slug: QueryValue, store: Store, fault: Option<Thrown>): (o: Outcome)
    ensures o.store == store
  {
    var s := GetFirst(slug);
    if s == "" then Answer(400, ErrorReply("Missing slug"), store)
    else if fault.Some? then Failure(fault.value, store)
    else Answer(200, Items(ToDtos(Listing(store, s))), store)
  }

  /** POST: validate, drop honeypot hits, then insert one document. */
  function Create(body: Body, store: Store, now: TimeValue, newId: ObjectId,
                  fault: Option<Thrown>, isEmail: string -> bool): (o: Outcome)
    ensures o.response.status == 201 <==> o.store != store
  {
    match SafeParse(body, isEmail, true)
    case None => Answer(400, ErrorReply("Invalid input"), store)
    case Some(sub) =>
      if HoneypotFilled(sub.hp) then Answer(200, Ack, store)
      else if fault.Some? then Failure(fault.value, store)
      else Answer(201, Ack, Append(store, NewDoc(sub, newId, now)))
  }

  /** The handler. A missing method counts as GET; methods other than GET
      and POST get 405 with `Allow: GET, POST`. The store changes only on
      a 201, and then by one document at its end. */
  function Handle(req: Request, store: Store, now: TimeValue, newId: ObjectId,
                  fault: Option<Thrown>, isEmail: string -> bool): (o: Outcome)
    ensures o.response.status in {200, 201, 400, 405, 500}
    ensures o.response.allow.Some? <==> o.response.status == 405
    ensures o.response.status != 201 ==> o.store == store
    ensures o.response.status == 201 ==>
      && |o.store| == |store| + 1 && o.store[..|store|] == store
      && o.store[|store|].id == newId && o.store[|store|].createdAt == now
  {
    var verb := req.verb.GetOr("GET");
    if verb == "GET" then List(req.slug, store, fault)
    else if verb == "POST" then Create(req.body, store, now, newId, fault, isEmail)
    else Outcome(Response(405, ErrorReply("Method Not Allowed"), Some("GET, POST")), store)
  }

  /** A request without a method is handled exactly like a GET. */
  lemma MissingMethodIsGet(req: Request, store: Store, now: TimeValue, newId: ObjectId,
                           fault: Option<Thrown>, isEmail: string -> bool)
    requires req.verb.None?
    ensures Handle(req, store, now, newId, fault, isEmail)
         == Handle(req.(verb := Some("GET")), store, now, newId, fault, isEmail)
  {
  }

  /** A GET whose slug is empty or missing gets 400 "Missing slug", before
      the database is touched. */
  lemma EmptySlugRejected(req: Request, store: Store, now: TimeValue, newId: ObjectId,
                          fault: Option<Thrown>, isEmail: string -> bool)
    requires req.verb.GetOr("GET") == "GET"
    requires req.slug.QAbsent? || req.slug == QOne("") || (req.slug.QMany? && (req.slug.xs == [] || req.slug.xs[0] == ""))
    ensures Handle(req, store, now, newId, fault, isEmail)
         == Outcome(Response(400, ErrorReply("Missing slug"), None), store)
  {
  }

  /** A GET with a slug lists that thread: at most 150 entries, all of the
      thread and drawn from the store, newest first, as their wire form,
      and no entry of the thread newer than the last one is left out. */
  lemma GetListsThread(req: Request, store: Store, now: TimeValue, newId: ObjectId, isEmail: string -> bool)
    requires req.verb.GetOr("GET") == "GET"
    requires GetFirst(req.slug) != ""
    ensures var o := Handle(req, store, now, newId, None, isEmail);
      var slug := GetFirst(req.slug);
      var docs := Listing(store, slug);
      && o == Outcome(Response(200, Items(ToDtos(docs)), None), store)
      && |docs| <= 150
      && NewestFirst(docs)
      && (forall i :: 0 <= i < |docs| ==> docs[i].slug == slug && docs[i] in store)
      && (forall d :: d in store && d.slug == slug && d !in docs ==>
            |docs| == 150 && d.createdAt <= docs[|docs| - 1].createdAt)
  {
    ListingDrawnFromStore(store, GetFirst(req.slug));
    GetOutcome(req, store, now, newId, isEmail);
  }

  /** A GET (or a request without a method) is the listing branch. */
  lemma HandleGet(req: Request, store: Store, now: TimeValue, newId: ObjectId,
                  fault: Option<Thrown>, isEmail: string -> bool)
    requires req.verb.GetOr("GET") == "GET"
    ensures Handle(req, store, now, newId, fault, isEmail) == List(req.slug, store, fault)
  {
  }

  /** A POST is the create branch. */
  lemma HandlePost(req: Request, store: Store, now: TimeValue, newId: ObjectId,
                   fault: Option<Thrown>, isEmail: string -> bool)
    requires req.verb == Some("POST")
    ensures Handle(req, store, now, newId, fault, isEmail) == Create(req.body, store, now, newId, fault, isEmail)
  {
  }

  /** What a valid, non-honeypot POST stores. */
  lemma PostStores(req: Request, store: Store, now: TimeValue, newId: ObjectId, isEmail: string -> bool)
    requires req.verb == Some("POST")
    requires Conforms(req.body, isEmail, true)
    requires !(req.body.hp.Text? && Trim(req.body.hp.s) != "")
    ensures Handle(req, store, now, newId, None, isEmail).store
         == Append(store, NewDoc(SafeParse(req.body, isEmail, true).value, newId, now))
  {
    HandlePost(req, store, now, newId, None, isEmail);
  }

  /** The whole outcome of a GET with a slug when the database answers. */
  lemma GetOutcome(req: Request, store: Store, now: TimeValue, newId: ObjectId, isEmail: string -> bool)
    requires req.verb.GetOr("GET") == "GET"
    requires GetFirst(req.slug) != ""
    ensures Handle(req, store, now, newId, None, isEmail)
         == Outcome(Response(200, Items(ToDtos(Listing(store, GetFirst(req.slug)))), None), store)
  {
    HandleGet(req, store, now, newId, None, isEmail);
  }

  /** What a GET with a slug answers. */
  lemma GetReplies(req: Request, store: Store, now: TimeValue, newId: ObjectId, isEmail: string -> bool)
    requires req.verb == Some("GET")
    requires GetFirst(req.slug) != ""
    ensures Handle(req, store, now, newId, None, isEmail).response.reply
         == Items(ToDtos(Listing(store, GetFirst(req.slug))))
  {
    HandleGet(req, store, now, newId, None, isEmail);
  }

  /** A valid, non-honeypot POST followed by a GET of its thread: the
      store gains the new document and the GET lists the grown store. */
  lemma PostThenGet(body: Body, q: QueryValue, store: Store, now: TimeValue, newId: ObjectId,
                    isEmail: string -> bool)
    requires Conforms(body, isEmail, true)
    requires !(body.hp.Text? && Trim(body.hp.s) != "")
    ensures var d := NewDoc(SafeParse(body, isEmail, true).value, newId, now);
      var after := Handle(Request(Some("POST"), q, body), store, now, newId, None, isEmail).store;
      && after == Append(store, d)
      && Handle(Request(Some("GET"), QOne(body.slug.s), body), after, now, newId, None, isEmail).response.reply
         == Items(ToDtos(Listing(after, d.slug)))
  {
    var d := NewDoc(SafeParse(body, isEmail, true).value, newId, now);
    PostStores(Request(Some("POST"), q, body), store, now, newId, isEmail);
    GetReplies(Request(Some("GET"), QOne(d.slug), body), Append(store, d), now, newId, isEmail);
  }

  /** The listed entries never carry an email, whatever is stored. */
  lemma ListingHidesEmail(slug: QueryValue, store: Store)
    requires GetFirst(slug) != ""
    ensures var reply := List(slug, store, None).response.reply;
      var docs := Listing(store, GetFirst(slug));
      && reply.Items? && |reply.items| == |docs|
      && forall i :: 0 <= i < |docs| ==>
           "email" !in DtoJson(reply.items[i]).fields && reply.items[i] == ToDto(docs[i])
  {
  }

  /** A POST whose body breaks the schema gets 400 "Invalid input" and
      writes nothing, whatever the database would do. */
  lemma InvalidPostRejected(req: Request, store: Store, now: TimeValue, newId: ObjectId,
                            fault: Option<Thrown>, isEmail: string -> bool)
    requires req.verb == Some("POST")
    requires !Conforms(req.body, isEmail, true)
    ensures Handle(req, store, now, newId, fault, isEmail)
         == Outcome(Response(400, ErrorReply("Invalid input"), None), store)
  {
  }

  /** A valid POST whose honeypot holds more than spaces is answered 200
      `{ok: true}` and writes nothing. */
  lemma HoneypotIgnored(req: Request, store: Store, now: TimeValue, newId: ObjectId,
                        fault: Option<Thrown>, isEmail: string -> bool)
    requires req.verb == Some("POST")
    requires Conforms(req.body, isEmail, true)
    requires req.body.hp.Text? && Trim(req.body.hp.s) != ""
    ensures Handle(req, store, now, newId, fault, isEmail)
         == Outcome(Response(200, Ack, None), store)
  {
  }

  /** Any other valid POST appends exactly one document and answers 201:
      the given slug, the trimmed message, the trimmed name or "익명", the
      email unless empty, the current time and the new id. */
  lemma ValidPostAppends(req: Request, store: Store, now: TimeValue, newId: ObjectId, isEmail: string -> bool)
    requires req.verb == Some("POST")
    requires Conforms(req.body, isEmail, true)
    requires !(req.body.hp.Text? && Trim(req.body.hp.s) != "")
    ensures var o := Handle(req, store, now, newId, None, isEmail);
      var b := req.body;
      && o.response == Response(201, Ack, None)
      && o.store == store + [FeedbackDoc(
           newId,
           b.slug.s,
           if b.name.Missing? then "익명" else Trim(b.name.s),
           Trim(b.message.s),
           if b.email.Missing? || b.email.s == "" then None else Some(b.email.s),
           now)]
  {
  }

  /** Any other method gets 405 with `Allow: GET, POST` and no write. */
  lemma OtherMethodRefused(req: Request, store: Store, now: TimeValue, newId: ObjectId,
                           fault: Option<Thrown>, isEmail: string -> bool)
    requires req.verb.Some? && req.verb.value != "GET" && req.verb.value != "POST"
    ensures Handle(req, store, now, newId, fault, isEmail)
         == Outcome(Response(405, ErrorReply("Method Not Allowed"), Some("GET, POST")), store)
  {
  }

  /** When the database throws, a request that reaches it gets 500 with the
      error's message (or "Internal Server Error" for a non-Error value),
      and nothing is written. */
  lemma FaultAnswers500(req: Request, store: Store, now: TimeValue, newId: ObjectId,
                        e: Thrown, isEmail: string -> bool)
    requires
      || (req.verb.GetOr("GET") == "GET" && GetFirst(req.slug) != "")
      || (req.verb == Some("POST") && Conforms(req.body, isEmail, true)
          && !(req.body.hp.Text? && Trim(req.body.hp.s) != ""))
    ensures Handle(req, store, now, newId, Some(e), isEmail)
         == Outcome(Response(500, ErrorReply(MessageOr(e, "Internal Server Error")), None), store)
  {
  }
}
