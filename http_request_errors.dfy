/** The error taxonomy: `HttpRequestErrors.throwError` maps an error tag to the
    error it throws. Throwing is modelled by returning the thrown value; every
    tag, known or not, produces one. */
module HttpRequestErrors {
  import opened Common

  /** The status codes `throwError` can produce. */
  const ThrownCodes: set<int> := {BAD_REQUEST, UNAUTHORIZED, NOT_FOUND, INTERNAL_SERVER}

  /** The name `getErrorName` gives each of those codes (the helper itself is
      not part of this model; these four values are the ones its tests fix). */
  function GetErrorName(code: int): (name: string)
    requires code in ThrownCodes
    ensures name != ""
  {
    if code == BAD_REQUEST then "BadRequest"
    else if code == UNAUTHORIZED then "Unauthorized"
    else if code == NOT_FOUND then "NotFound"
    else "InternalServerError"
  }

  /** The tags `throwError` names in its switch. */
  const KnownTags: set<string> := {
    "blank-question-or-answer", "email-already-exist", "tag-already-exist",
    "user-inexistent", "2fa-no-active", "2fa-already-active", "2fa-incorrect",
    "rpg-not-found-id", "query-string-incorrect", "query-missing",
    "linked-mandatory-data-when-delete", "verification-email-send-fail",
    "invalid-user-status", "invalid-email-verify-code", "unauthorized"
  }

  const UnauthorizedTags: set<string> := {"2fa-incorrect", "linked-mandatory-data-when-delete", "unauthorized"}
  const NotFoundTags: set<string> := {"user-inexistent", "rpg-not-found-id"}

  const DEFAULT_MESSAGE := "Some error not specified ocurred"

  /** True when the tag is one the switch names (`None` is `null`). */
  predicate IsKnown(tag: Option<string>)
  {
    tag.Some? && tag.value in KnownTags
  }

  /** The `HttpRequestErrors` constructor: whatever message, code, details
      and name it is given are the fields of the error (no code or name is
      refused; the logging call is not modelled). */
  function Construct(message: string, code: int, details: Option<seq<ErrorDetail>>, name: string): (e: Failure)
    ensures e.message == message && e.code == code
    ensures e.details == details && e.name == name
  {
    Failure(message, code, name, details)
  }

  /** One entry of the `throwError` switch: the constructor applied to the
      entry's message and code, with the name `getErrorName` gives the code. */
  function Entry(message: string, code: int): Failure
    requires code in ThrownCodes
  {
    Construct(message, code, None, GetErrorName(code))
  }

  /** `throwError(tag)`; `None` is `null`, and `notFoundById` is the text of
      `ErrorMessage.NOT_FOUND_BY_ID`. */
  function ThrowError(tag: Option<string>, notFoundById: string): (e: Failure)
    ensures e.code in ThrownCodes
    ensures e.name == GetErrorName(e.code)
    ensures e.details == None
    ensures e.code == UNAUTHORIZED <==> tag.Some? && tag.value in UnauthorizedTags
    ensures e.code == NOT_FOUND <==> tag.Some? && tag.value in NotFoundTags
    ensures e.code == INTERNAL_SERVER <==> !IsKnown(tag)
    ensures e.code == BAD_REQUEST <==>
      IsKnown(tag) && tag.value !in UnauthorizedTags && tag.value !in NotFoundTags
    ensures !IsKnown(tag) ==> e.message == DEFAULT_MESSAGE
    ensures tag == Some("user-inexistent") ==> e.message == "User does not exist"
    ensures tag == Some("rpg-not-found-id") ==> e.message == notFoundById
  {
    match tag
    case None => Entry(DEFAULT_MESSAGE, INTERNAL_SERVER)
    case Some(t) =>
      if t == "blank-question-or-answer" then Entry("SecretQuestion has a blank question or answer", BAD_REQUEST)
      else if t == "email-already-exist" then Entry("Email already exists in database", BAD_REQUEST)
      else if t == "tag-already-exist" then Entry("User with this tag already exists in database", BAD_REQUEST)
      else if t == "user-inexistent" then Entry("User does not exist", NOT_FOUND)
      else if t == "2fa-no-active" then Entry("2FA not enabled for this user", BAD_REQUEST)
      else if t == "2fa-already-active" then Entry("2FA is already enabled for this user", BAD_REQUEST)
      else if t == "2fa-incorrect" then Entry("Two factor code does not match", UNAUTHORIZED)
      else if t == "rpg-not-found-id" then Entry(notFoundById, NOT_FOUND)
      else if t == "query-string-incorrect" then Entry("Query must be a string", BAD_REQUEST)
      else if t == "query-missing" then Entry("Query must not be empty", BAD_REQUEST)
      else if t == "linked-mandatory-data-when-delete" then Entry("There is a campaing or character linked to this user", UNAUTHORIZED)
      else if t == "verification-email-send-fail" then Entry("Some problem ocurred in email sending", BAD_REQUEST)
      else if t == "invalid-user-status" then Entry("User status is invalid to perform this operation", BAD_REQUEST)
      else if t == "invalid-email-verify-code" then Entry("Invalid email verify code", BAD_REQUEST)
      else if t == "unauthorized" then Entry("Unauthorized", UNAUTHORIZED)
      else Entry(DEFAULT_MESSAGE, INTERNAL_SERVER)
  }

  /** The short keys the unit tests still pass ('email', 'tag', 'user', '2fa',
      'query-string', 'verification-email') are not tags of the current switch:
      each of them, like `null`, yields the 500 default. */
  lemma StaleTestKeysFallToDefault(notFoundById: string)
    ensures forall k :: k in ["email", "tag", "user", "2fa", "query-string", "verification-email"] ==>
      ThrowError(Some(k), notFoundById) == Failure(DEFAULT_MESSAGE, 500, "InternalServerError", None)
    ensures ThrowError(None, notFoundById) == Failure(DEFAULT_MESSAGE, 500, "InternalServerError", None)
  {
  }

  /** The entries the unit tests check and that still match the switch. */
  lemma TestedEntries(notFoundById: string)
    ensures ThrowError(Some("2fa-incorrect"), notFoundById) ==
      Failure("Two factor code does not match", 401, "Unauthorized", None)
    ensures ThrowError(Some("rpg-not-found-id"), notFoundById) == Failure(notFoundById, 404, "NotFound", None)
    ensures ThrowError(Some("invalid-user-status"), notFoundById) ==
      Failure("User status is invalid to perform this operation", 400, "BadRequest", None)
  {
  }

  /** The two tags the email-code verification throws are, in this table, a
      404 and a 400. */
  lemma VerifyErrorCodes(notFoundById: string)
    ensures ThrowError(Some("user-inexistent"), notFoundById) ==
      Failure("User does not exist", 404, "NotFound", None)
    ensures ThrowError(Some("invalid-email-verify-code"), notFoundById) ==
      Failure("Invalid email verify code", 400, "BadRequest", None)
  {
  }
}
