/**
 * The tag-verification handler: it reads the configured tag from the
 * platform and reports whether it exists. It is one chain of decisions with
 * early returns, so it is modelled as a function from the request method, the
 * environment and the platform's answer to the reply and the calls made.
 */
module VerifyTag {
  import opened Wrappers
  import opened Runtime
  import opened Decimal

  /** The `id` and `name` of the platform's tag record. */
  datatype TagRecord = TagRecord(id: int, name: string)

  /** The one outbound call: read tag `tagId`. */
  datatype Call = GetTag(tagId: string, apiKey: string)

  /** What the tag read yields: an HTTP status with the parsed body, or a thrown error and its message. */
  datatype TagFetch = Replied(status: nat, tag: TagRecord) | Threw(message: string)

  /**
   * The JSON the handler writes. `Failure` and `TagNotFound` have `success:
   * false` (the latter with the fixed suggestion); `Verified` has `success:
   * true` and `tag: { id, name, exists: true }`; `VerifyError` has the message
   * ErrorVerifying and the `error` field, omitted when `None`.
   */
  datatype Body =
    | Empty
    | Failure(message: string)
    | TagNotFound(message: string)
    | Verified(tag: TagRecord)
    | VerifyError(error: Option<string>)

  datatype Reply = Reply(status: nat, body: Body)

  /** A reply and the calls made to produce it. */
  datatype Exchange = Exchange(reply: Reply, calls: seq<Call>)

  const ErrorVerifying := "Error verifying tag"
  const Development := "development"
  const NotFoundPrefix := "Tag with ID "
  const NotFoundSuffix := " not found"
  const ApiErrorPrefix := "API Error: "

  /** `Tag with ID ${TAG_ID} not found`: the tag id can be read back from the message. */
  function NotFoundMessage(tagId: string): (m: string)
    ensures |m| == |NotFoundPrefix| + |tagId| + |NotFoundSuffix|
    ensures m[|NotFoundPrefix|..|m| - |NotFoundSuffix|] == tagId
  {
    NotFoundPrefix + tagId + NotFoundSuffix
  }

  /** The message of the error thrown for a non-OK status: `API Error: ${response.status}`. */
  function ApiErrorMessage(status: nat): (m: string)
    ensures |m| > |ApiErrorPrefix| && m[..|ApiErrorPrefix|] == ApiErrorPrefix
  {
    ApiErrorPrefix + ToDecimal(status)
  }

  /** The status can be read back from the error message. */
  lemma {:induction false} ApiErrorNamesStatus(status: nat)
    ensures var digits := ApiErrorMessage(status)[|ApiErrorPrefix|..];
            (forall i | 0 <= i < |digits| :: IsDigit(digits[i])) && ParseDecimal(digits) == status
  {
    assert ApiErrorMessage(status)[|ApiErrorPrefix|..] == ToDecimal(status);
    DecimalRoundTrip(status);
  }

  /** The `error` field of the 500 reply: the error's message only when NODE_ENV is `development`. */
  function ErrorDetail(env: Env, message: string): (d: Option<string>)
    ensures d.Some? <==> env.nodeEnv == Some(Development)
    ensures d.Some? ==> d.value == message
  {
    if env.nodeEnv == Some(Development) then Some(message) else None
  }

  /** The handler, with `fetchTag` standing for the platform's answer to a call. */
  function HandleVerify(httpMethod: string, env: Env, fetchTag: Call -> TagFetch): (x: Exchange)
    ensures httpMethod == Options ==> x == Exchange(Reply(200, Empty), [])
    ensures httpMethod != Options && !(Present(env.apiKey) && Present(env.tagId))
      ==> x == Exchange(Reply(500, Failure(ConfigError)), [])
    // every other method goes on to the platform: there is no 405
    ensures httpMethod != Options && Present(env.apiKey) && Present(env.tagId)
      ==> x.calls == [GetTag(env.tagId.value, env.apiKey.value)]
    ensures x.calls != [] ==>
      match fetchTag(x.calls[0])
      case Replied(status, tag) =>
        (status == 404 ==> x.reply == Reply(200, TagNotFound(NotFoundMessage(x.calls[0].tagId))))
        && (status != 404 && !IsOk(status) ==> x.reply == Reply(500, VerifyError(ErrorDetail(env, ApiErrorMessage(status)))))
        && (IsOk(status) ==> x.reply == Reply(200, Verified(tag)))
      case Threw(message) => x.reply == Reply(500, VerifyError(ErrorDetail(env, message)))
    ensures x.reply.status in {200, 500}
    ensures x.reply.body.Verified? ==> x.calls != [] && IsOk(fetchTag(x.calls[0]).status)
  {
    if httpMethod == Options then
      Exchange(Reply(200, Empty), [])
    else if !Present(env.apiKey) || !Present(env.tagId) then
      Exchange(Reply(500, Failure(ConfigError)), [])
    else
      var call := GetTag(env.tagId.value, env.apiKey.value);
      var reply :=
        match fetchTag(call)
        case Threw(message) => Reply(500, VerifyError(ErrorDetail(env, message)))
        case Replied(status, tag) =>
          if status == 404 then Reply(200, TagNotFound(NotFoundMessage(env.tagId.value)))
          else if !IsOk(status) then Reply(500, VerifyError(ErrorDetail(env, ApiErrorMessage(status))))
          else Reply(200, Verified(tag));
      Exchange(reply, [call])
  }
}
