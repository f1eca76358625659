/**
 * What the serverless runtime hands both handlers: the environment
 * (`process.env`), the truthiness test the handlers apply to its values, and
 * the `ok` flag of an upstream `fetch` response.
 */
module Runtime {
  import opened Wrappers

  /** The environment variables the handlers read; `None` is an unset variable. */
  datatype Env = Env(
    apiKey: Option<string>,           // SYSTEME_API_KEY
    tagId: Option<string>,            // ARC_GRID_TAG_ID
    courseId: Option<string>,         // ARC_GRID_COURSE_ID
    registrationUrl: Option<string>,  // REGISTRATION_URL
    nodeEnv: Option<string>)          // NODE_ENV

  /** JavaScript truthiness of an optional string: set, and not the empty string. */
  predicate Present(v: Option<string>)
  {
    v.Some? && v.value != ""
  }

  /** `response.ok` of a fetch response: a status in the 2xx range. */
  predicate IsOk(status: nat)
  {
    200 <= status <= 299
  }

  const Options := "OPTIONS"
  const Post := "POST"
  const ConfigError := "Server configuration error"
}
