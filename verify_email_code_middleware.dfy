/** `VerifyEmailCodeMiddleware.verify`: find the user by id or by email and
    compare the code in the query with the code of the verification in
    progress. The users repository is only read. */
module VerifyEmailCodeMiddleware {
  import opened Common

  datatype InProgress = InProgress(status: string, code: Option<string>)

  /** A stored user; `inProgress` is absent on users that never started a
      verification. */
  datatype UserInstance = UserInstance(userId: Id, email: string, inProgress: Option<InProgress>)

  /** JavaScript truthiness of an optional string: present and not empty. */
  predicate Truthy(s: Option<string>)
  {
    s.Some? && s.value != ""
  }

  /** `records[k]` is the first record the predicate accepts. */
  predicate IsFirstMatch(records: seq<UserInstance>, k: int, matches: UserInstance -> bool)
  {
    0 <= k < |records| && matches(records[k]) && forall j :: 0 <= j < k ==> !matches(records[j])
  }

  /** The first record the predicate accepts, or nothing. */
  function FindFirst(records: seq<UserInstance>, matches: UserInstance -> bool): (r: Option<UserInstance>)
    ensures r.None? <==> forall i :: 0 <= i < |records| ==> !matches(records[i])
    ensures r.Some? ==> exists k :: IsFirstMatch(records, k, matches) && records[k] == r.value
  {
    if records == [] then None
    else if matches(records[0]) then
      assert IsFirstMatch(records, 0, matches);
      Some(records[0])
    else
      var r := FindFirst(records[1..], matches);
      assert r.Some? ==> exists k :: IsFirstMatch(records, k, matches) && records[k] == r.value by {
        if r.Some? {
          var k :| IsFirstMatch(records[1..], k, matches) && records[1..][k] == r.value;
          forall j | 0 <= j < k + 1 ensures !matches(records[j]) {
            if j > 0 { assert records[j] == records[1..][j - 1]; }
          }
          assert IsFirstMatch(records, k + 1, matches);
        }
      }
      r
  }

  /** The users repository, in store order. */
  class UsersRepository {
    var records: seq<UserInstance>

    constructor (records: seq<UserInstance>)
      ensures this.records == records
    {
      this.records := records;
    }

    /** `findOne({ userId })`. */
    function FindByUserId(id: Id): Option<UserInstance>
      reads this
    {
      FindFirst(records, (u: UserInstance) => u.userId == id)
    }

    /** `findOne({ email })`. */
    function FindByEmail(email: string): Option<UserInstance>
      reads this
    {
      FindFirst(records, (u: UserInstance) => u.email == email)
    }
  }

  /** The user was looked up by the key `verify` uses and holds the code. */
  predicate HoldsCode(u: UserInstance, id: Option<string>, email: Option<string>, code: Option<string>)
  {
    u.inProgress.Some? && u.inProgress.value.code == code &&
    if Truthy(email) then u.email == email.value else Truthy(id) && u.userId == id.value
  }

  const NO_KEY_ERROR := Failure("Neither id or email was provided to validate the email code", BAD_REQUEST, "BadRequest", None)

  /** Reading `inProgress.code` of a user without `inProgress` throws a
      JavaScript `TypeError`, which the error middleware answers with 500. */
  const NO_PROGRESS_ERROR := Failure("Cannot read properties of undefined (reading 'code')", INTERNAL_SERVER, "TypeError", None)

  class VerifyEmailCodeMiddleware {
    const usersRepository: UsersRepository
    /** `HttpRequestErrors.throwError` of the infrastructure layer the
        middleware imports: the error thrown for each tag. */
    const throwError: string -> Failure

    constructor (usersRepository: UsersRepository, throwError: string -> Failure)
      ensures this.usersRepository == usersRepository && this.throwError == throwError
    {
      this.usersRepository := usersRepository;
      this.throwError := throwError;
    }

    /** `id` is the path parameter, `email` and `code` the query values. */
    method Verify(id: Option<string>, email: Option<string>, code: Option<string>) returns (r: Outcome)
      ensures !Truthy(id) && !Truthy(email) ==> r == Throw(NO_KEY_ERROR)
      ensures Truthy(id) || Truthy(email) ==>
        var found := if Truthy(email) then usersRepository.FindByEmail(email.value)
                     else usersRepository.FindByUserId(id.value);
        if found.None? then r == Throw(throwError("user-inexistent"))
        else if found.value.inProgress.None? then r == Throw(NO_PROGRESS_ERROR)
        else if code != found.value.inProgress.value.code then r == Throw(throwError("invalid-email-verify-code"))
        else r == Next
      ensures r == Next ==> exists k :: 0 <= k < |usersRepository.records| && HoldsCode(usersRepository.records[k], id, email, code)
    {
      var userInDb: Option<UserInstance> := None;
      if !Truthy(id) && !Truthy(email) {
        return Throw(NO_KEY_ERROR);
      }
      if Truthy(id) {
        userInDb := usersRepository.FindByUserId(id.value);
      }
      if Truthy(email) {
        userInDb := usersRepository.FindByEmail(email.value);
      }
      if userInDb.None? {
        return Throw(throwError("user-inexistent"));
      }
      if userInDb.value.inProgress.None? {
        return Throw(NO_PROGRESS_ERROR);
      }
      if code != userInDb.value.inProgress.value.code {
        return Throw(throwError("invalid-email-verify-code"));
      }
      return Next;
    }
  }
}
