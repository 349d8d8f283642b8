/** `UsersServices.register`: validation, the two uniqueness guards, the
    random tag, and the two linked records it creates. */
module UsersServices {
  import opened Common
  import opened Store
  import opened Validation
  import opened Decimals

  /** The user part of a registration payload. */
  datatype UserPayload = UserPayload(email: string, nickname: string, password: string, other: map<string, string>)

  /** The `details` part of a registration payload. */
  datatype DetailsPayload = DetailsPayload(fields: map<string, string>)

  datatype RegisterPayload = RegisterPayload(user: UserPayload, details: DetailsPayload)

  datatype User = User(id: Id, email: string, nickname: string, password: string, tag: string,
                       createdAt: string, updatedAt: string, other: map<string, string>)

  datatype UserDetail = UserDetail(id: Id, userId: Id, fields: map<string, string>)

  /** The stored user document with its `details` record. */
  datatype RegisterResponse = RegisterResponse(user: User, details: UserDetail)

  const EMAIL_EXISTS_ERROR := PlainError("Email already exists in database", BAD_REQUEST, "BadRequest")
  const USER_EXISTS_ERROR := PlainError("User already exists in database", BAD_REQUEST, "BadRequest")

  /** `_cryptographer`: no hashing happens; the password is stored as it
      came. */
  function Cryptographer(password: string): (hashed: string)
    ensures hashed == password
  {
    password
  }

  /** `Math.floor(random * 9999) + 1` for `random` drawn from [0, 1). */
  function TagNumber(random: real): (n: int)
    requires 0.0 <= random < 1.0
    ensures 1 <= n <= 9999
  {
    (random * 9999.0).Floor + 1
  }

  /** The tag of a new user: '#' and the decimal text of the tag number. */
  function Tag(random: real): (tag: string)
    requires 0.0 <= random < 1.0
    ensures |tag| >= 2 && tag[0] == '#'
    ensures forall i :: 1 <= i < |tag| ==> IsDigit(tag[i])
    ensures ParseDecimal(tag[1..]) == TagNumber(random)
  {
    ParseDecimalOfDecimal(TagNumber(random));
    assert ("#" + Decimal(TagNumber(random)))[1..] == Decimal(TagNumber(random));
    "#" + Decimal(TagNumber(random))
  }

  /** A generated tag is '#' followed by the decimal text of a number from 1
      to 9999: two to five characters, no leading zero. */
  lemma TagShape(random: real)
    requires 0.0 <= random < 1.0
    ensures var tag := Tag(random);
      2 <= |tag| <= 5 && tag[0] == '#' && tag[1] != '0' &&
      (forall i :: 1 <= i < |tag| ==> IsDigit(tag[i])) &&
      1 <= ParseDecimal(tag[1..]) <= 9999
  {
    var n := TagNumber(random);
    DecimalShape(n);
    ParseDecimalOfDecimal(n);
    assert Tag(random)[1..] == Decimal(n);
  }

  predicate EmailTaken(users: map<Id, User>, email: string)
  {
    exists id :: id in users && users[id].email == email
  }

  predicate TagTaken(users: map<Id, User>, tag: string, nickname: string)
  {
    exists id :: id in users && users[id].tag == tag && users[id].nickname == nickname
  }

  class UsersServices {
    const users: Collection<User>
    const details: Collection<UserDetail>
    const validateUser: Check<UserPayload>        // entry(userZod, ·)
    const validateDetails: Check<DetailsPayload>  // entry(userDetailZod, ·)

    constructor (users: Collection<User>, details: Collection<UserDetail>,
                 validateUser: Check<UserPayload>, validateDetails: Check<DetailsPayload>)
      ensures this.users == users && this.details == details
      ensures this.validateUser == validateUser && this.validateDetails == validateDetails
    {
      this.users := users;
      this.details := details;
      this.validateUser := validateUser;
      this.validateDetails := validateDetails;
    }

    /** `random` is the value of `Math.random()` and `now` the ISO text of
        the current date. */
    method Register(payload: RegisterPayload, random: real, now: string) returns (r: Result<RegisterResponse>)
      requires 0.0 <= random < 1.0
      modifies users, details
      ensures r.Err? ==> users.docs == old(users.docs) && details.docs == old(details.docs)
      ensures validateUser(payload.user).Some? ==> r == Err(validateUser(payload.user).value)
      ensures validateUser(payload.user).None? && validateDetails(payload.details).Some? ==>
        r == Err(validateDetails(payload.details).value)
      ensures validateUser(payload.user).None? && validateDetails(payload.details).None? ==>
        if EmailTaken(old(users.docs), payload.user.email) then r == Err(EMAIL_EXISTS_ERROR)
        else if TagTaken(old(users.docs), Tag(random), payload.user.nickname) then r == Err(USER_EXISTS_ERROR)
        else r.Ok?
      ensures r.Ok? ==>
        var u := r.value.user;
        var d := r.value.details;
        u.id !in old(users.docs) && users.docs == old(users.docs)[u.id := u] &&
        d.id !in old(details.docs) && details.docs == old(details.docs)[d.id := d] &&
        d.userId == u.id && d.fields == payload.details.fields &&
        u.email == payload.user.email && u.nickname == payload.user.nickname &&
        u.password == payload.user.password && u.other == payload.user.other &&
        u.tag == Tag(random) && u.createdAt == now && u.updatedAt == u.createdAt
    {
      var user := payload.user;
      var invalid := validateUser(user);
      if invalid.Some? {
        return Err(invalid.value);
      }
      invalid := validateDetails(payload.details);
      if invalid.Some? {
        return Err(invalid.value);
      }
      var sameEmail := users.FindAll((u: User) => u.email == user.email);
      if sameEmail != map[] {
        assert EmailTaken(users.docs, user.email) by {
          var id :| id in sameEmail;
        }
        return Err(EMAIL_EXISTS_ERROR);
      }
      var tag := Tag(random);
      var sameTag := users.FindAll((u: User) => u.tag == tag && u.nickname == user.nickname);
      if sameTag != map[] {
        assert TagTaken(users.docs, tag, user.nickname) by {
          var id :| id in sameTag;
        }
        return Err(USER_EXISTS_ERROR);
      }
      var createdAt := now;
      var updatedAt := createdAt;
      var passwordHashed := Cryptographer(user.password);
      var userId := users.Create(id => User(id, user.email, user.nickname, passwordHashed, tag, createdAt, updatedAt, user.other));
      var registered := users.docs[userId];
      var detailsId := details.Create(id => UserDetail(id, registered.id, payload.details.fields));
      return Ok(RegisterResponse(registered, details.docs[detailsId]));
    }
  }
}
