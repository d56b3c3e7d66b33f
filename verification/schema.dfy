/** The zod schemas both servers validate a POST body against: `Schema`
    of the Vercel handler (with the honeypot field `hp`) and
    `CommentSchema` of the Express app (without it). Email syntax is the
    uninterpreted parameter `isEmail`. */
module FeedbackSchema {
  import opened Base
  import opened JsString
  import opened ObjectIds
  import opened IsoTime
  import opened FeedbackStore

  /** One property of a parsed JSON body: absent (`undefined`), a string,
      or some other JSON value, whose truthiness is recorded. */
  datatype Field = Missing | Text(s: string) | NonText(truthy: bool)

  /** A parsed JSON request body: an object with the properties the
      schemas read (any other property is ignored), or anything else
      (an array, a primitive, `null`, no body at all). */
  datatype Body =
    | NonObject
    | Object(slug: Field, name: Field, message: Field, email: Field, hp: Field)

  /** The outcome of one zod check: the (possibly transformed) value, or a
      failure. */
  datatype Check<+T> = Pass(value: T) | Fail

  /** What `safeParse(...).data` holds. `name`, `email` and `hp` stay
      undefined when absent; an empty `email` is kept as `""`. */
  datatype Submission = Submission(
    slug: string,
    name: Option<string>,
    message: string,
    email: Option<string>,
    hp: Option<string>)

  /** The bounds of the schema, in UTF-16 code units. */
  const SlugMax := 200
  const NameMax := 40
  const MessageMax := 1000

  /** The name stored when none is given. */
  const Anonymous := "익명"

  /** JavaScript truthiness of a property value. */
  predicate Truthy(f: Field)
  {
    match f
    case Missing => false
    case Text(s) => s != ""
    case NonText(t) => t
  }

  /** `z.string().min(1).max(200)`: not trimmed. */
  function CheckSlug(f: Field): (r: Check<string>)
    ensures r.Pass? <==> f.Text? && 1 <= Utf16Length(f.s) <= SlugMax
    ensures r.Pass? ==> r.value == f.s
  {
    match f
    case Text(s) => if 1 <= Utf16Length(s) <= SlugMax then Pass(s) else Fail
    case _ => Fail
  }

  /** `z.string().trim().min(1).max(n)`: trimmed first, then measured. */
  function CheckTrimmed(f: Field, max: nat): (r: Check<string>)
    ensures r.Pass? <==> f.Text? && 1 <= Utf16Length(Trim(f.s)) <= max
    ensures r.Pass? ==> r.value == Trim(f.s) && IsTrimmed(r.value) && r.value != []
  {
    match f
    case Text(s) =>
      var t := Trim(s);
      if 1 <= Utf16Length(t) <= max then Pass(t) else Fail
    case _ => Fail
  }

  /** `...default("익명").optional()`: the outer `optional` lets an absent
      name through as undefined, so the default is never reached here. */
  function CheckName(f: Field): (r: Check<Option<string>>)
    ensures f.Missing? ==> r == Pass(None)
    ensures !f.Missing? ==> (r.Pass? <==> CheckTrimmed(f, NameMax).Pass?)
    ensures r.Pass? && r.value.Some? ==> f.Text? && r.value.value == Trim(f.s)
  {
    match f
    case Missing => Pass(None)
    case _ =>
      match CheckTrimmed(f, NameMax)
      case Pass(t) => Pass(Some(t))
      case Fail => Fail
  }

  /** `z.string().email().optional().or(z.literal(""))`. */
  function CheckEmail(f: Field, isEmail: string -> bool): (r: Check<Option<string>>)
    ensures r.Pass? <==> f.Missing? || (f.Text? && (isEmail(f.s) || f.s == ""))
    ensures r.Pass? ==> r.value == (if f.Missing? then None else Some(f.s))
  {
    match f
    case Missing => Pass(None)
    case Text(s) => if isEmail(s) || s == "" then Pass(Some(s)) else Fail
    case NonText(_) => Fail
  }

  /** `z.string().optional()`. */
  function CheckHp(f: Field): (r: Check<Option<string>>)
    ensures r.Pass? <==> !f.NonText?
    ensures r.Pass? ==> r.value == (if f.Missing? then None else Some(f.s))
  {
    match f
    case Missing => Pass(None)
    case Text(s) => Pass(Some(s))
    case NonText(_) => Fail
  }

  /** The body satisfies every field rule of the schema; `withHp` selects
      the Vercel schema, which also constrains `hp`. */
  predicate Conforms(body: Body, isEmail: string -> bool, withHp: bool)
  {
    && body.Object?
    && body.slug.Text? && 1 <= Utf16Length(body.slug.s) <= SlugMax
    && (body.name.Missing? || (body.name.Text? && 1 <= Utf16Length(Trim(body.name.s)) <= NameMax))
    && body.message.Text? && 1 <= Utf16Length(Trim(body.message.s)) <= MessageMax
    && (body.email.Missing? || (body.email.Text? && (isEmail(body.email.s) || body.email.s == "")))
    && (withHp ==> !body.hp.NonText?)
  }

  /** `safeParse`: every field passes, and the data is assembled from the
      checked values. */
  function SafeParse(body: Body, isEmail: string -> bool, withHp: bool): (r: Option<Submission>)
    ensures r.Some? <==> Conforms(body, isEmail, withHp)
    ensures r.Some? ==>
      && r.value.slug == body.slug.s
      && r.value.message == Trim(body.message.s)
      && r.value.name == (if body.name.Missing? then None else Some(Trim(body.name.s)))
      && r.value.email == (if body.email.Missing? then None else Some(body.email.s))
      && r.value.hp == (if withHp && body.hp.Text? then Some(body.hp.s) else None)
  {
    match body
    case NonObject => None
    case Object(slug, name, message, email, hp) =>
      var hpCheck := if withHp then CheckHp(hp) else Pass(None);
      match (CheckSlug(slug), CheckName(name), CheckTrimmed(message, MessageMax), CheckEmail(email, isEmail), hpCheck)
      case (Pass(s), Pass(n), Pass(m), Pass(e), Pass(h)) => Some(Submission(s, n, m, e, h))
      case _ => None
  }

  /** The document a valid submission is stored as: the name defaults to
      "익명" (`name = "익명"` in the destructuring) and an empty email is
      stored as absent (`email || undefined`). */
  function NewDoc(sub: Submission, id: ObjectId, now: TimeValue): (d: FeedbackDoc)
    ensures d.id == id && d.createdAt == now
    ensures d.slug == sub.slug && d.message == sub.message
    ensures sub.name.None? ==> d.name == Anonymous
    ensures sub.name.Some? ==> d.name == sub.name.value
    ensures d.email.Some? <==> sub.email.Some? && sub.email.value != ""
    ensures d.email.Some? ==> d.email == sub.email
  {
    var email := if sub.email == Some("") then None else sub.email;
    FeedbackDoc(id, sub.slug, sub.name.GetOr(Anonymous), sub.message, email, now)
  }

  /** A document stored from a valid body satisfies the schema's bounds
      again: its name and message are trimmed, non-empty and within the
      limits, and its email is never empty. */
  lemma StoredDocWithinBounds(body: Body, isEmail: string -> bool, withHp: bool, id: ObjectId, now: TimeValue)
    requires Conforms(body, isEmail, withHp)
    ensures var d := NewDoc(SafeParse(body, isEmail, withHp).value, id, now);
      && 1 <= Utf16Length(d.slug) <= SlugMax
      && IsTrimmed(d.name) && 1 <= Utf16Length(d.name) <= NameMax
      && IsTrimmed(d.message) && 1 <= Utf16Length(d.message) <= MessageMax
      && d.email != Some("")
  {
    var sub := SafeParse(body, isEmail, withHp).value;
    if sub.name.None? {
      assert Anonymous == ['익', '명'];
      assert Utf16Length(Anonymous) == 2;
    } else {
      assert body.name.Text?;
    }
  }
}
