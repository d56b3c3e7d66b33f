/** The request and response shapes of `/api/feedback` shared by both
    servers: the `slug` query parameter; a status, a JSON body and, for
    405 only, an `Allow` header; and how that body looks as JSON once the
    browser has parsed it. */
module Wire {
  import opened Base
  import opened Json
  import opened FeedbackStore

  /** A query parameter: absent, one string, or the array of strings a
      repeated parameter (`?slug=a&slug=b`) becomes. */
  datatype QueryValue = QAbsent | QOne(s: string) | QMany(xs: seq<string>)

  /** The three body shapes the handlers send: `{error}`, `{ok: true}`,
      and a bare array of listed entries. */
  datatype Reply = ErrorReply(error: string) | Ack | Items(items: seq<FeedbackDto>)

  datatype Response = Response(status: int, reply: Reply, allow: Option<string>)

  /** A response together with the store after the request. */
  datatype Outcome = Outcome(response: Response, store: Store)

  /** `response.ok`: a 2xx status. */
  predicate IsOk(status: int)
  {
    200 <= status <= 299
  }

  /** One listed entry as a JSON object: `_id`, `slug`, `name`, `message`
      and `createdAt`, all strings, and nothing else. */
  function DtoJson(d: FeedbackDto): (j: Json)
    ensures j.JObj? && j.fields.Keys == {"_id", "slug", "name", "message", "createdAt"}
    ensures "email" !in j.fields
  {
    JObj(map[
      "_id" := JStr(d.id),
      "slug" := JStr(d.slug),
      "name" := JStr(d.name),
      "message" := JStr(d.message),
      "createdAt" := JStr(d.createdAt)])
  }

  /** A string-valued property of a JSON object, if there is one. */
  function StringAt(j: Json, key: string): Option<string>
  {
    if j.JObj? && key in j.fields && j.fields[key].JStr? then Some(j.fields[key].s) else None
  }

  /** Reads a listed entry back from its JSON form, as a client typed with
      `Feedback` expects it. */
  function ReadDto(j: Json): Option<FeedbackDto>
  {
    match (StringAt(j, "_id"), StringAt(j, "slug"), StringAt(j, "name"), StringAt(j, "message"), StringAt(j, "createdAt"))
    case (Some(id), Some(slug), Some(name), Some(message), Some(createdAt)) =>
      Some(FeedbackDto(id, slug, name, message, createdAt))
    case _ => None
  }

  /** Reading an entry back from its JSON form gives the entry. */
  lemma ReadDtoRoundTrip(d: FeedbackDto)
    ensures ReadDto(DtoJson(d)) == Some(d)
  {
  }

  /** The entries as the JSON array the servers send. */
  function ItemsJson(xs: seq<FeedbackDto>): (ys: seq<Json>)
    ensures |ys| == |xs|
    ensures forall i :: 0 <= i < |xs| ==> ReadDto(ys[i]) == Some(xs[i])
  {
    if xs == [] then []
    else
      ReadDtoRoundTrip(xs[0]);
      [DtoJson(xs[0])] + ItemsJson(xs[1..])
  }

  /** `JSON.stringify(body)` as the browser parses it back: a listing is a
      bare array, with no `data` property; an error carries `error` and no
      `message`. */
  function ReplyJson(r: Reply): (j: Json)
    ensures r.Items? ==> (j.JArr? && |j.items| == |r.items|
      && forall i :: 0 <= i < |r.items| ==> ReadDto(j.items[i]) == Some(r.items[i]))
    ensures r.ErrorReply? ==> Member(j, "error") == Ok(Some(JStr(r.error))) && Member(j, "message") == Ok(None)
    ensures r.Ack? ==> Member(j, "ok") == Ok(Some(JBool(true))) && Member(j, "message") == Ok(None)
    ensures Member(j, "data") == Ok(None)
  {
    match r
    case ErrorReply(m) => ErrorJson(m)
    case Ack => OkAck
    case Items(xs) => JArr(ItemsJson(xs))
  }
}
