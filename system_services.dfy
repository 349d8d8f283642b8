/** `SystemServices`: RPG systems, each with named arrays of entity ids
    (`content`), plus activation and deactivation. */
module SystemServices {
  import opened Common
  import opened Store
  import opened Validation

  /** Descriptive fields of a system other than `content` and `active`. */
  datatype Info = Info(fields: map<string, string>)

  datatype System = System(id: Id, active: bool, content: map<string, seq<Id>>, info: Info)

  /** An update payload: `content` and `active` only when the client sent them. */
  datatype SystemPayload = SystemPayload(active: Option<bool>, content: Option<map<string, seq<Id>>>, info: Info)

  /** The `updateContent` payload: `method` (here `operation`: 'add' or 'remove') and `newID`. */
  datatype UpdateContent = UpdateContent(operation: string, newId: Id)

  /** What JavaScript throws when `content[entityQuery]` is undefined. */
  const UNDEFINED_CONTENT_ERROR := PlainError("Cannot read properties of undefined", INTERNAL_SERVER, "TypeError")

  /** The store's `update(id, payload)` on a system. */
  function MergeSystem(s: System, p: SystemPayload): System
  {
    System(s.id,
           if p.active.Some? then p.active.value else s.active,
           if p.content.Some? then p.content.value else s.content,
           p.info)
  }

  /** The `_id` of a system. */
  function SystemId(s: System): Id
  {
    s.id
  }

  /** `ids.filter(id => id !== x)`. */
  function Without(ids: seq<Id>, x: Id): (r: seq<Id>)
    ensures |r| <= |ids|
    ensures x !in r
    ensures forall y :: y in r ==> y in ids
  {
    if ids == [] then []
    else if ids[0] == x then Without(ids[1..], x)
    else [ids[0]] + Without(ids[1..], x)
  }

  /** Removal deletes every occurrence of `x` and keeps all other ids with
      their multiplicities. */
  lemma {:induction false} WithoutMultiset(ids: seq<Id>, x: Id)
    ensures multiset(Without(ids, x)) == multiset(ids)[x := 0]
  {
    if ids != [] {
      WithoutMultiset(ids[1..], x);
      assert ids == [ids[0]] + ids[1..];
    }
  }

  /** Removal keeps the order of what it keeps: it works piecewise over a
      concatenation. */
  lemma {:induction false} WithoutConcat(a: seq<Id>, b: seq<Id>, x: Id)
    ensures Without(a + b, x) == Without(a, x) + Without(b, x)
  {
    if a == [] {
      assert a + b == b;
    } else {
      var c := a + b;
      assert c[0] == a[0] && c[1..] == a[1..] + b;
      WithoutConcat(a[1..], b, x);
      if a[0] == x {
        assert Without(c, x) == Without(a[1..] + b, x);
        assert Without(a, x) == Without(a[1..], x);
      } else {
        assert Without(c, x) == [a[0]] + Without(a[1..] + b, x);
        assert Without(a, x) == [a[0]] + Without(a[1..], x);
      }
    }
  }

  /** Removing an id that is not there changes nothing. */
  lemma {:induction false} WithoutAbsent(ids: seq<Id>, x: Id)
    requires x !in ids
    ensures Without(ids, x) == ids
  {
    if ids != [] {
      WithoutAbsent(ids[1..], x);
    }
  }

  /** Adding then removing an id leaves no trace of it. */
  lemma {:induction false} AddThenRemove(ids: seq<Id>, x: Id)
    ensures Without(ids + [x], x) == Without(ids, x)
    ensures x !in ids ==> Without(ids + [x], x) == ids
  {
    if ids != [] {
      AddThenRemove(ids[1..], x);
      assert (ids + [x])[1..] == ids[1..] + [x];
    }
    if x !in ids {
      WithoutAbsent(ids, x);
    }
  }

  /** The content after an 'add' or 'remove' of `newId` in array `query`. */
  function ContentAfter(content: map<string, seq<Id>>, query: string, payload: UpdateContent): (r: map<string, seq<Id>>)
    requires query in content
    ensures r.Keys == content.Keys
    ensures forall k :: k in content && k != query ==> r[k] == content[k]
    ensures payload.operation == "remove" ==> payload.newId !in r[query]
    ensures payload.operation != "add" && payload.operation != "remove" ==> r == content
  {
    if payload.operation == "add" then content[query := content[query] + [payload.newId]]
    else if payload.operation == "remove" then content[query := Without(content[query], payload.newId)]
    else content
  }

  /** 'add' puts the id at the end of the selected array, 'remove' filters
      it out; no other array changes and no array appears or disappears. */
  lemma ContentAfterEffect(content: map<string, seq<Id>>, query: string, payload: UpdateContent)
    requires query in content
    ensures ContentAfter(content, query, payload).Keys == content.Keys
    ensures forall k :: k in content && k != query ==> ContentAfter(content, query, payload)[k] == content[k]
    ensures payload.operation == "add" ==>
      ContentAfter(content, query, payload)[query] == content[query] + [payload.newId]
    ensures payload.operation == "remove" ==>
      payload.newId !in ContentAfter(content, query, payload)[query] &&
      multiset(ContentAfter(content, query, payload)[query]) == multiset(content[query])[payload.newId := 0]
  {
    if payload.operation == "remove" {
      WithoutMultiset(content[query], payload.newId);
      assert multiset(Without(content[query], payload.newId))[payload.newId] == 0;
    }
  }

  function UpdateContentMessage(id: Id, query: string, payload: UpdateContent): string
  {
    "New ID " + payload.newId + " was " + payload.operation + " to array of entities " + query + " - system ID: " + id
  }

  class SystemServices {
    const model: Collection<System>
    const validate: ValidateData
    const messages: ErrorMessages
    const validateSystem: Check<SystemPayload>         // entry(systemPayloadZodSchema, ·)
    const validateUpdateContent: Check<UpdateContent>  // entry(updateContentZodSchema, ·)

    ghost predicate Valid()
      reads this, model
    {
      WellKeyed(model.docs, SystemId)
    }

    constructor (model: Collection<System>, validate: ValidateData, messages: ErrorMessages,
                 validateSystem: Check<SystemPayload>, validateUpdateContent: Check<UpdateContent>)
      requires WellKeyed(model.docs, SystemId)
      ensures Valid()
      ensures this.model == model && this.validate == validate && this.messages == messages
      ensures this.validateSystem == validateSystem && this.validateUpdateContent == validateUpdateContent
    {
      this.model := model;
      this.validate := validate;
      this.messages := messages;
      this.validateSystem := validateSystem;
      this.validateUpdateContent := validateUpdateContent;
    }

    /** What `systemResponse` throws for an absent system. */
    function NotFoundError(): Failure
      reads this
    {
      validate.systemResponseError(messages.systemNotFound)
    }

    method FindAll() returns (r: map<Id, System>)
      ensures r == model.docs
    {
      r := model.FindAll(_ => true);
    }

    method FindOne(id: Id) returns (r: Result<System>)
      ensures r.Ok? <==> id in model.docs
      ensures r.Ok? ==> r.value == model.docs[id]
      ensures r.Err? ==> r.error == NotFoundError()
    {
      var response := model.FindOne(id);
      if response.None? {
        return Err(NotFoundError());
      }
      return Ok(response.value);
    }

    /** Schema check, then the FORBIDDEN guard on `content`, then the write. */
    method Update(id: Id, payload: SystemPayload) returns (r: Result<System>)
      requires Valid()
      modifies model
      ensures Valid()
      ensures validateSystem(payload).Some? ==>
        r == Err(validateSystem(payload).value) && model.docs == old(model.docs)
      ensures validateSystem(payload).None? && payload.content.Some? ==>
        r == Err(validate.systemActiveError(FORBIDDEN, messages.forbidden)) && model.docs == old(model.docs)
      ensures validateSystem(payload).None? && payload.content.None? && id !in old(model.docs) ==>
        r == Err(NotFoundError()) && model.docs == old(model.docs)
      ensures validateSystem(payload).None? && payload.content.None? && id in old(model.docs) ==>
        model.docs == old(model.docs)[id := MergeSystem(old(model.docs)[id], payload)] &&
        r == Ok(model.docs[id]) && r.value.content == old(model.docs)[id].content
    {
      var invalid := validateSystem(payload);
      if invalid.Some? {
        return Err(invalid.value);
      }
      var forbidden := validate.SystemActive(payload.content.Some?, FORBIDDEN, messages.forbidden);
      if forbidden.Some? {
        return Err(forbidden.value);
      }
      var response := model.Update(id, s => MergeSystem(s, payload));
      if response.None? {
        return Err(NotFoundError());
      }
      return Ok(response.value);
    }

    /** Adds `newId` at the end of, or removes it from, the array `query` of
        the system's content; the other arrays are untouched. */
    method UpdateContent(id: Id, query: string, payload: UpdateContent) returns (r: Result<string>)
      requires Valid()
      modifies model
      ensures Valid()
      ensures r.Err? ==> model.docs == old(model.docs)
      ensures validateUpdateContent(payload).Some? ==> r == Err(validateUpdateContent(payload).value)
      ensures validateUpdateContent(payload).None? && validate.systemEntityQuery(query, messages.unprocessableEntity).Some? ==>
        r == Err(validate.systemEntityQuery(query, messages.unprocessableEntity).value)
      ensures validateUpdateContent(payload).None? && validate.systemEntityQuery(query, messages.unprocessableEntity).None? ==>
        if id !in old(model.docs) then r == Err(NotFoundError())
        else if query !in old(model.docs)[id].content && payload.operation in {"add", "remove"} then
          r == Err(UNDEFINED_CONTENT_ERROR)
        else
          var before := old(model.docs)[id];
          var content := if query in before.content then ContentAfter(before.content, query, payload) else before.content;
          r == Ok(UpdateContentMessage(id, query, payload)) &&
          model.docs == old(model.docs)[id := before.(content := content)]
    {
      var invalid := validateUpdateContent(payload);
      if invalid.Some? {
        return Err(invalid.value);
      }
      var badQuery := validate.systemEntityQuery(query, messages.unprocessableEntity);
      if badQuery.Some? {
        return Err(badQuery.value);
      }
      var found := model.FindOne(id);
      if found.None? {
        return Err(NotFoundError());
      }
      var recoverSystem := found.value;
      if payload.operation == "add" {
        if query !in recoverSystem.content {
          return Err(UNDEFINED_CONTENT_ERROR);
        }
        recoverSystem := recoverSystem.(content := recoverSystem.content[query := recoverSystem.content[query] + [payload.newId]]);
      }
      if payload.operation == "remove" {
        if query !in recoverSystem.content {
          return Err(UNDEFINED_CONTENT_ERROR);
        }
        recoverSystem := recoverSystem.(content := recoverSystem.content[query := Without(recoverSystem.content[query], payload.newId)]);
      }
      var _ := model.Update(id, _ => recoverSystem);
      return Ok(UpdateContentMessage(recoverSystem.id, query, payload));
    }

    /** Enabling: refused when the system is already active. */
    method Activate(id: Id) returns (r: Result<string>)
      requires Valid()
      modifies model
      ensures Valid()
      ensures r.Ok? <==> id in old(model.docs) && !old(model.docs)[id].active
      ensures r.Err? ==> model.docs == old(model.docs)
      ensures id !in old(model.docs) ==> r == Err(NotFoundError())
      ensures id in old(model.docs) && old(model.docs)[id].active ==>
        r == Err(validate.systemActiveError(BAD_REQUEST, messages.responseActive(true)))
      ensures r.Ok? ==> r.value == "System " + id + " was activated"
      ensures r.Ok? ==> model.docs == old(model.docs)[id := old(model.docs)[id].(active := true)]
    {
      var found := model.FindOne(id);
      if found.None? {
        return Err(NotFoundError());
      }
      var response := found.value;
      var already := validate.SystemActive(response.active, BAD_REQUEST, messages.responseActive(response.active));
      if already.Some? {
        return Err(already.value);
      }
      response := response.(active := true);
      var _ := model.Update(id, _ => response);
      return Ok("System " + response.id + " was activated");
    }

    /** Disabling: refused when the system is already inactive. */
    method Deactivate(id: Id) returns (r: Result<string>)
      requires Valid()
      modifies model
      ensures Valid()
      ensures r.Ok? <==> id in old(model.docs) && old(model.docs)[id].active
      ensures r.Err? ==> model.docs == old(model.docs)
      ensures id !in old(model.docs) ==> r == Err(NotFoundError())
      ensures id in old(model.docs) && !old(model.docs)[id].active ==>
        r == Err(validate.systemActiveError(BAD_REQUEST, messages.responseActive(false)))
      ensures r.Ok? ==> r.value == "System " + id + " was deactivated"
      ensures r.Ok? ==> model.docs == old(model.docs)[id := old(model.docs)[id].(active := false)]
    {
      var found := model.FindOne(id);
      if found.None? {
        return Err(NotFoundError());
      }
      var response := found.value;
      var already := validate.SystemActive(!response.active, BAD_REQUEST, messages.responseActive(response.active));
      if already.Some? {
        return Err(already.value);
      }
      response := response.(active := false);
      var _ := model.Update(id, _ => response);
      return Ok("System " + response.id + " was deactivated");
    }
  }
}
