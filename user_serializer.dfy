/** `userSerializer` (the OAuth profile to user mapping) and the two
    serializers that build user and user-details records with `null`
    defaults. */
module UserSerializer {
  import opened Common

  /** The fields of a Google, Facebook or Discord profile the serializer
      reads; `jsonEmail` is `_json.email`. */
  datatype Profile = Profile(id: string, provider: Option<string>, username: string,
                             email: Option<string>, displayName: string, jsonEmail: Option<string>)

  /** `UserSerialized`; `email` is absent when the provider gave none. */
  datatype UserSerialized = UserSerialized(externalId: string, email: Option<string>, name: string)

  predicate IsDiscord(p: Profile) { p.provider == Some("discord") }
  predicate IsGoogleOrFacebook(p: Profile) { p.provider == Some("google") || p.provider == Some("facebook") }

  method SerializeUser(profile: Profile) returns (user: UserSerialized)
    ensures user.externalId == profile.id
    ensures IsDiscord(profile) ==> user.name == profile.username && user.email == profile.email
    ensures IsGoogleOrFacebook(profile) ==> user.name == profile.displayName && user.email == profile.jsonEmail
    ensures !IsDiscord(profile) && !IsGoogleOrFacebook(profile) ==> user.name == "" && user.email == Some("")
  {
    user := UserSerialized(profile.id, Some(""), "");
    if IsDiscord(profile) {
      user := user.(name := profile.username);
      user := user.(email := profile.email);
    } else if IsGoogleOrFacebook(profile) {
      user := user.(name := profile.displayName);
      user := user.(email := profile.jsonEmail);
    }
  }

  /** A JavaScript value as far as the serializers care. */
  datatype Value = Undefined | Null | Bool(b: bool) | Num(n: int) | Str(s: string) | Obj(fields: map<string, Value>)

  /** A plain object: its own keys and their values. */
  type JsObject = map<string, Value>

  /** Destructuring `{ key = null }`: a missing or undefined key reads as null. */
  function Read(o: JsObject, key: string): Value
  {
    if key in o && o[key] != Undefined then o[key] else Null
  }

  /** The object literal built from destructured keys. */
  function Pick(keys: set<string>, o: JsObject): (r: JsObject)
    ensures r.Keys == keys
    ensures forall k :: k in r ==> r[k] != Undefined
    ensures forall k :: k in r && k in o && o[k] != Undefined ==> r[k] == o[k]
    ensures forall k :: k in r && (k !in o || o[k] == Undefined) ==> r[k] == Null
  {
    map k | k in keys :: Read(o, k)
  }

  const USER_KEYS: set<string> := {"providerId", "email", "password", "nickname", "picture", "createdAt", "updatedAt"}

  const USER_DETAIL_KEYS: set<string> := {"userId", "firstName", "lastName", "pronoun", "secretQuestion",
                                          "birthday", "gameInfo", "biography", "role"}

  /** `postUserSerializer`: the seven user fields, `null` where absent. */
  function PostUserSerializer(o: JsObject): (r: JsObject)
    ensures r.Keys == USER_KEYS
    ensures forall k :: k in r ==> r[k] == Read(o, k)
  {
    Pick(USER_KEYS, o)
  }

  /** `postUserDetailsSerializer`: the nine detail fields, `null` where
      absent. */
  function PostUserDetailsSerializer(o: JsObject): (r: JsObject)
    ensures r.Keys == USER_DETAIL_KEYS
    ensures forall k :: k in r ==> r[k] == Read(o, k)
  {
    Pick(USER_DETAIL_KEYS, o)
  }

  /** Picking again changes nothing: every key is then defined. */
  lemma PickIdempotent(keys: set<string>, o: JsObject)
    ensures Pick(keys, Pick(keys, o)) == Pick(keys, o)
  {
    var once := Pick(keys, o);
    var twice := Pick(keys, once);
    assert forall k :: k in keys ==> twice[k] == once[k];
  }

  /** Both serializers output exactly their fields, never `undefined`, and
      are idempotent. */
  lemma PostSerializersShape(o: JsObject)
    ensures PostUserSerializer(o).Keys == USER_KEYS
    ensures PostUserDetailsSerializer(o).Keys == USER_DETAIL_KEYS
    ensures PostUserSerializer(PostUserSerializer(o)) == PostUserSerializer(o)
    ensures PostUserDetailsSerializer(PostUserDetailsSerializer(o)) == PostUserDetailsSerializer(o)
  {
    PickIdempotent(USER_KEYS, o);
    PickIdempotent(USER_DETAIL_KEYS, o);
  }
}
