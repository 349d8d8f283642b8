/** `MonstersServices`: lookup, content update and availability toggle for
    monsters, built on the `ValidateData` helper. */
module MonstersServices {
  import opened Common
  import opened Envelopes
  import opened Store
  import opened Validation

  /** The body of a successful availability change. */
  datatype UpdateResponse = UpdateResponse(message: string, name: string)


  function ToggleMessage(id: Id, query: bool): string
  {
    "Monster " + id + " was " + (if query then "activated" else "deactivated")
  }

  class MonstersServices {
    const model: Collection<Envelope>
    const validate: ValidateData
    const messages: ErrorMessages
    const validateMonster: Check<EnvelopePayload>   // entry(languagesWrapper(monstersZodSchema), ·)

    ghost predicate Valid()
      reads this, model
    {
      WellKeyed(model.docs, EnvelopeId)
    }

    constructor (model: Collection<Envelope>, validate: ValidateData, messages: ErrorMessages,
                 validateMonster: Check<EnvelopePayload>)
      requires WellKeyed(model.docs, EnvelopeId)
      ensures Valid()
      ensures this.model == model && this.validate == validate && this.messages == messages
      ensures this.validateMonster == validateMonster
    {
      this.model := model;
      this.validate := validate;
      this.messages := messages;
      this.validateMonster := validateMonster;
    }

    function NotFoundError(): Failure
      reads this
    {
      validate.generateError(NOT_FOUND, messages.notFoundById)
    }

    /** Every monster, enabled or not. */
    method FindAll() returns (r: map<Id, Envelope>)
      ensures r == model.docs
    {
      r := model.FindAll(_ => true);
    }

    method FindOne(id: Id) returns (r: Result<Envelope>)
      ensures r.Ok? <==> id in model.docs
      ensures r.Ok? ==> r.value == model.docs[id]
      ensures r.Err? ==> r.error == NotFoundError()
    {
      var response := model.FindOne(id);
      if response.None? {
        return Err(NotFoundError());
      }
      return Ok(response.value);
    }

    /** As written, this queries `{active: true}`: it lists the ENABLED monsters. */
    method FindAllDisabled() returns (r: map<Id, Envelope>)
      ensures r.Keys <= model.docs.Keys
      ensures forall id :: id in r ==> r[id] == model.docs[id] && r[id].active
      ensures forall id :: id in model.docs && model.docs[id].active ==> id in r
    {
      r := model.FindAll(IsActive);
    }

    /** Schema check, then `existance(payload.active)`, then the store write. */
    method Update(id: Id, payload: EnvelopePayload) returns (r: Result<Envelope>)
      requires Valid()
      modifies model
      ensures Valid()
      ensures validateMonster(payload).Some? ==>
        r == Err(validateMonster(payload).value) && model.docs == old(model.docs)
      ensures validateMonster(payload).None? && Truthy(payload.active) ==>
        r == Err(validate.existanceError(messages.badRequest)) && model.docs == old(model.docs)
      ensures validateMonster(payload).None? && !Truthy(payload.active) && id !in old(model.docs) ==>
        r == Err(NotFoundError()) && model.docs == old(model.docs)
      ensures validateMonster(payload).None? && !Truthy(payload.active) && id in old(model.docs) ==>
        model.docs == old(model.docs)[id := Merge(old(model.docs)[id], payload)] && r == Ok(model.docs[id])
    {
      var invalid := validateMonster(payload);
      if invalid.Some? {
        return Err(invalid.value);
      }
      var present := validate.Existance(Truthy(payload.active), messages.badRequest);
      if present.Some? {
        return Err(present.value);
      }
      ghost var before := model.docs;
      var response := model.Update(id, e => Merge(e, payload));
      if response.None? {
        return Err(NotFoundError());
      }
      MergeKeepsWellKeyed(before, id, payload);
      return Ok(response.value);
    }

    /** The availability toggle; on success the message names the monster and
        the new state. */
    method UpdateAvailability(id: Id, query: bool) returns (r: Result<UpdateResponse>)
      requires Valid()
      modifies model
      ensures Valid()
      ensures r.Ok? <==> CanToggle(old(model.docs), id, query)
      ensures model.docs == Toggled(old(model.docs), id, query)
      ensures r.Ok? ==> r.value == UpdateResponse(ToggleMessage(id, query), "success")
      ensures id !in old(model.docs) ==> r == Err(NotFoundError())
      ensures id in old(model.docs) && old(model.docs)[id].active == query ==>
        r == Err(validate.existanceError(messages.badRequest))
    {
      var response := model.FindOne(id);
      if response.None? {
        return Err(NotFoundError());
      }
      var same := validate.Existance(response.value.active == query, messages.badRequest);
      if same.Some? {
        return Err(same.value);
      }
      ghost var before := model.docs;
      var changed := response.value.(active := query);
      var _ := model.Update(id, _ => changed);
      assert model.docs == Toggled(before, id, query);
      ToggleKeepsWellKeyed(before, id, query);
      return Ok(UpdateResponse(ToggleMessage(changed.id, query), "success"));
    }
  }
}
