/**
 * The access-check handler: it gates a POST of `{ email }` through the method,
 * the email's presence and format and the configuration, then looks the
 * contact up on the marketing platform and, when it exists, assigns the
 * reader tag and enrols it in the course, both on a best-effort basis.
 *
 * The three platform calls are ports: the handler passes each call to a
 * function that stands for the platform's answer, and records the call in a
 * ghost trace, so that which calls are made, and in what order, is part of
 * what is proved.
 */
module CheckAccess {
  import opened Wrappers
  import opened Runtime
  import opened EmailFormat

  /** `req.body`; `email` is `None` when the body has no email field. */
  datatype RequestBody = RequestBody(email: Option<string>)

  /** The inbound request; `body` is `None` when `req.body` is undefined. */
  datatype Request = Request(httpMethod: string, body: Option<RequestBody>)

  /** An item of the platform's contact list. */
  datatype Contact = Contact(id: int)

  /** An outbound call to the platform, with the arguments it carries. */
  datatype Call =
    | FindContact(email: string, apiKey: string)
    | AddTag(contactId: int, tagId: string, apiKey: string)
    | Enroll(contactId: int, courseId: string, apiKey: string)

  /**
   * What the contact search yields: an HTTP status and the `items` of its JSON
   * body (empty when the field is absent), or a thrown error (network failure,
   * unreadable body).
   */
  datatype LookupOutcome = Replied(status: nat, items: seq<Contact>) | LookupThrew

  /** What a tag or enrolment POST yields: an HTTP status, or a thrown error. */
  datatype PostOutcome = Status(code: nat) | PostThrew

  /** The platform's answers to the three kinds of call. */
  datatype Platform = Platform(
    lookup: Call -> LookupOutcome,
    tag: Call -> PostOutcome,
    enroll: Call -> PostOutcome)

  /** The result of `findContactByEmail`: a contact, `null`, or a thrown error. */
  datatype Lookup = Found(contact: Contact) | NoContact | LookupFailed(rateLimited: bool)

  /**
   * The JSON the handler writes. `Failure` is `{ success: false, message }`;
   * `NeedsRegistration` also carries `requiresRegistration: true` and the
   * message RegisterFirst; `Granted` carries `success: true` and AccessGranted.
   */
  datatype Body =
    | Empty
    | Failure(message: string)
    | NeedsRegistration(registrationUrl: string)
    | Granted(contactId: int, tagAdded: bool, enrolled: bool)

  datatype Reply = Reply(status: nat, body: Body)

  const MethodNotAllowed := "Method not allowed"
  const EmailRequired := "Email is required"
  const InvalidEmail := "Invalid email format"
  const TooManyRequests := "Too many requests. Please wait a moment and try again."
  const GenericError := "An error occurred while processing your request."
  const RegisterFirst := "Please register first, then return here for book access."
  const AccessGranted := "Access granted to ARC Grid book"
  const DefaultRegistrationUrl := "https://commandresults.com/register"

  /** The `success` field of a reply body (an empty body has none). */
  predicate Success(b: Body)
  {
    b.Granted?
  }

  /** API key, tag id and course id are all set and non-empty. */
  predicate Configured(env: Env)
  {
    Present(env.apiKey) && Present(env.tagId) && Present(env.courseId)
  }

  /** `REGISTRATION_URL || 'https://commandresults.com/register'` */
  function RegistrationUrl(env: Env): (url: string)
    ensures url != ""
    ensures Present(env.registrationUrl) ==> url == env.registrationUrl.value
    ensures !Present(env.registrationUrl) ==> url == DefaultRegistrationUrl
  {
    if Present(env.registrationUrl) then env.registrationUrl.value else DefaultRegistrationUrl
  }

  /** The request passes every gate: POST, an email that is present and well formed, full configuration. */
  predicate ReachesLookup(req: Request, env: Env)
  {
    req.httpMethod == Post && req.body.Some? && Present(req.body.value.email)
    && MatchesEmailRegex(req.body.value.email.value) && Configured(env)
  }

  /** The contact search a request that passes every gate makes. */
  function LookupCall(req: Request, env: Env): Call
    requires ReachesLookup(req, env)
  {
    FindContact(req.body.value.email.value, env.apiKey.value)
  }

  /**
   * `findContactByEmail` after the fetch: the first item of a 2xx answer with
   * items, `null` for a 2xx answer without, and an error otherwise, flagged as
   * a rate limit exactly for status 429.
   */
  function FindContactByEmail(o: LookupOutcome): (r: Lookup)
    ensures r.Found? <==> o.Replied? && IsOk(o.status) && o.items != []
    ensures r.Found? ==> r.contact == o.items[0]
    ensures r.NoContact? <==> o.Replied? && IsOk(o.status) && o.items == []
    ensures r.LookupFailed? <==> o.LookupThrew? || !IsOk(o.status)
    ensures r.LookupFailed? && r.rateLimited <==> o.Replied? && o.status == 429
  {
    match o
    case LookupThrew => LookupFailed(false)
    case Replied(status, items) =>
      if !IsOk(status) then LookupFailed(status == 429)
      else if items != [] then Found(items[0])
      else NoContact
  }

  /** `addTagToContact` after the fetch: 204 (assigned) and 422 (already assigned) are success. */
  function AddTagToContact(o: PostOutcome): (added: bool)
    ensures added <==> o.Status? && (o.code == 204 || o.code == 422)
  {
    match o
    case Status(code) => code == 204 || code == 422
    case PostThrew => false
  }

  /** `enrollInCourse` after the fetch: 201 (enrolled) and 422 (already enrolled) are success. */
  function EnrollInCourse(o: PostOutcome): (enrolled: bool)
    ensures enrolled <==> o.Status? && (o.code == 201 || o.code == 422)
  {
    match o
    case Status(code) => code == 201 || code == 422
    case PostThrew => false
  }

  /**
   * The handler. The gates run in order and the first that fails answers
   * without calling out; a request that passes them all searches for the
   * contact, and only a found contact is tagged and then enrolled, whatever
   * the tag call gave.
   */
  method Handle(req: Request, env: Env, platform: Platform) returns (reply: Reply, ghost calls: seq<Call>)
    ensures req.httpMethod == Options ==> reply == Reply(200, Empty)
    ensures req.httpMethod != Options && req.httpMethod != Post ==> reply == Reply(405, Failure(MethodNotAllowed))
    ensures req.httpMethod == Post && req.body.None? ==> reply == Reply(500, Failure(GenericError))
    ensures req.httpMethod == Post && req.body.Some? && !Present(req.body.value.email)
      ==> reply == Reply(400, Failure(EmailRequired))
    ensures req.httpMethod == Post && req.body.Some? && Present(req.body.value.email)
      && !MatchesEmailRegex(req.body.value.email.value)
      ==> reply == Reply(400, Failure(InvalidEmail))
    ensures req.httpMethod == Post && req.body.Some? && Present(req.body.value.email)
      && MatchesEmailRegex(req.body.value.email.value) && !Configured(env)
      ==> reply == Reply(500, Failure(ConfigError))
    // no call is made unless every gate passes, and then the first is the search
    ensures calls != [] <==> ReachesLookup(req, env)
    ensures ReachesLookup(req, env) ==> calls[0] == FindContact(req.body.value.email.value, env.apiKey.value)
    ensures ReachesLookup(req, env) && FindContactByEmail(platform.lookup(LookupCall(req, env))).NoContact?
      ==> calls == [LookupCall(req, env)] && reply == Reply(200, NeedsRegistration(RegistrationUrl(env)))
    ensures ReachesLookup(req, env) && FindContactByEmail(platform.lookup(LookupCall(req, env))).LookupFailed?
      ==> calls == [LookupCall(req, env)]
          && reply == if FindContactByEmail(platform.lookup(LookupCall(req, env))).rateLimited
                      then Reply(429, Failure(TooManyRequests))
                      else Reply(500, Failure(GenericError))
    ensures ReachesLookup(req, env) && FindContactByEmail(platform.lookup(LookupCall(req, env))).Found?
      ==> var id := FindContactByEmail(platform.lookup(LookupCall(req, env))).contact.id;
          var tag, enroll := AddTag(id, env.tagId.value, env.apiKey.value), Enroll(id, env.courseId.value, env.apiKey.value);
          calls == [LookupCall(req, env), tag, enroll]
          && reply == Reply(200, Granted(id, AddTagToContact(platform.tag(tag)), EnrollInCourse(platform.enroll(enroll))))
    // summary: the statuses that can be answered, and success exactly when all three calls were made
    ensures reply.status in {200, 400, 405, 429, 500}
    ensures Success(reply.body) <==> |calls| == 3
  {
    calls := [];
    if req.httpMethod == Options {
      reply := Reply(200, Empty);
      return;
    }
    if req.httpMethod != Post {
      reply := Reply(405, Failure(MethodNotAllowed));
      return;
    }
    // destructuring an undefined body throws, and the catch answers 500
    if req.body.None? {
      reply := Reply(500, Failure(GenericError));
      return;
    }
    var email := req.body.value.email;
    if !Present(email) {
      reply := Reply(400, Failure(EmailRequired));
      return;
    }
    if !MatchesEmailRegex(email.value) {
      reply := Reply(400, Failure(InvalidEmail));
      return;
    }
    var registrationUrl := RegistrationUrl(env);
    if !Configured(env) {
      reply := Reply(500, Failure(ConfigError));
      return;
    }
    var apiKey, tagId, courseId := env.apiKey.value, env.tagId.value, env.courseId.value;

    var search := FindContact(email.value, apiKey);
    calls := calls + [search];
    var contact := FindContactByEmail(platform.lookup(search));
    match contact {
      case LookupFailed(rateLimited) =>
        // the catch: a rate-limit error becomes 429, anything else 500
        if rateLimited {
          reply := Reply(429, Failure(TooManyRequests));
        } else {
          reply := Reply(500, Failure(GenericError));
        }
      case NoContact =>
        reply := Reply(200, NeedsRegistration(registrationUrl));
      case Found(c) =>
        var tag := AddTag(c.id, tagId, apiKey);
        calls := calls + [tag];
        var tagAdded := AddTagToContact(platform.tag(tag));
        var enroll := Enroll(c.id, courseId, apiKey);
        calls := calls + [enroll];
        var enrolled := EnrollInCourse(platform.enroll(enroll));
        reply := Reply(200, Granted(c.id, tagAdded, enrolled));
    }
  }

  /**
   * Running the same request again after a first run has tagged and enrolled
   * the contact (the platform now answers 422 to both) gives the same reply.
   */
  method RerunIsIdempotent(req: Request, env: Env, lookup: Call -> LookupOutcome) returns (first: Reply, second: Reply)
    requires ReachesLookup(req, env)
    requires FindContactByEmail(lookup(LookupCall(req, env))).Found?
    ensures first == second
    ensures first.status == 200 && first.body.Granted? && first.body.tagAdded && first.body.enrolled
  {
    ghost var trace: seq<Call>;
    first, trace := Handle(req, env, Platform(lookup, _ => Status(204), _ => Status(201)));
    second, trace := Handle(req, env, Platform(lookup, _ => Status(422), _ => Status(422)));
  }

  /**
   * A failing tag call does not stop the enrolment nor the grant: with a
   * found contact and a tag call that fails (any status but 204 and 422, or a
   * thrown error), the reply is still a success, and its enrolment flag is the
   * one the enrolment call produced.
   */
  method TagFailureStillGrants(req: Request, env: Env, lookup: Call -> LookupOutcome,
                               tag: Call -> PostOutcome, enroll: Call -> PostOutcome)
    returns (reply: Reply)
    requires ReachesLookup(req, env)
    requires FindContactByEmail(lookup(LookupCall(req, env))).Found?
    requires var id := FindContactByEmail(lookup(LookupCall(req, env))).contact.id;
             !AddTagToContact(tag(AddTag(id, env.tagId.value, env.apiKey.value)))
    ensures reply.status == 200 && reply.body.Granted? && !reply.body.tagAdded
    ensures var id := FindContactByEmail(lookup(LookupCall(req, env))).contact.id;
            reply.body.contactId == id
            && reply.body.enrolled == EnrollInCourse(enroll(Enroll(id, env.courseId.value, env.apiKey.value)))
  {
    ghost var trace: seq<Call>;
    reply, trace := Handle(req, env, Platform(lookup, tag, enroll));
  }
}
