/** `ClassesServices`: listing, lookup, content update and the availability
    toggle for D&D classes. */
module ClassesServices {
  import opened Common
  import opened Envelopes
  import opened Store
  import opened Validation

  const NOT_FOUND_ERROR := PlainError("NotFound a class with provided ID", NOT_FOUND, "NotFound")
  const CHANGE_AVAILABILITY_ERROR := PlainError("Not authorize to change availability", BAD_REQUEST, "BadRequest")

  /** The error of a toggle to the value the entity already has. */
  function AlreadyError(want: bool): Failure
  {
    PlainError(if want then "Entity already enabled" else "Entity already disabled", BAD_REQUEST, "BadRequest")
  }


  class ClassesServices {
    const model: Collection<Envelope>
    const validateClass: Check<EnvelopePayload>   // validate(languagesWrapper(classesZodSchema), ·)
    const validateAvailability: Check<bool>       // validate(updateAvailabilityZodSchema, ·)

    ghost predicate Valid()
      reads this, model
    {
      WellKeyed(model.docs, EnvelopeId)
    }

    constructor (model: Collection<Envelope>, validateClass: Check<EnvelopePayload>, validateAvailability: Check<bool>)
      requires WellKeyed(model.docs, EnvelopeId)
      ensures Valid()
      ensures this.model == model && this.validateClass == validateClass
      ensures this.validateAvailability == validateAvailability
    {
      this.model := model;
      this.validateClass := validateClass;
      this.validateAvailability := validateAvailability;
    }

    /** The enabled classes. */
    method FindAll() returns (r: map<Id, Envelope>)
      ensures r.Keys <= model.docs.Keys
      ensures forall id :: id in r ==> r[id] == model.docs[id] && r[id].active
      ensures forall id :: id in model.docs && model.docs[id].active ==> id in r
    {
      r := model.FindAll(IsActive);
    }

    /** The disabled classes. */
    method FindAllDisabled() returns (r: map<Id, Envelope>)
      ensures r.Keys <= model.docs.Keys
      ensures forall id :: id in r ==> r[id] == model.docs[id] && !r[id].active
      ensures forall id :: id in model.docs && !model.docs[id].active ==> id in r
    {
      r := model.FindAll(IsDisabled);
    }

    method FindOne(id: Id) returns (r: Result<Envelope>)
      ensures r.Ok? <==> id in model.docs
      ensures r.Ok? ==> r.value == model.docs[id]
      ensures r.Err? ==> r.error == NOT_FOUND_ERROR
    {
      var response := model.FindOne(id);
      if response.None? {
        return Err(NOT_FOUND_ERROR);
      }
      return Ok(response.value);
    }

    /** Schema check, then the availability guard (only a truthy `active` is
        refused), then the store write. */
    method Update(id: Id, payload: EnvelopePayload) returns (r: Result<Envelope>)
      requires Valid()
      modifies model
      ensures Valid()
      ensures validateClass(payload).Some? ==>
        r == Err(validateClass(payload).value) && model.docs == old(model.docs)
      ensures validateClass(payload).None? && Truthy(payload.active) ==>
        r == Err(CHANGE_AVAILABILITY_ERROR) && model.docs == old(model.docs)
      ensures validateClass(payload).None? && !Truthy(payload.active) && id !in old(model.docs) ==>
        r == Err(NOT_FOUND_ERROR) && model.docs == old(model.docs)
      ensures validateClass(payload).None? && !Truthy(payload.active) && id in old(model.docs) ==>
        model.docs == old(model.docs)[id := Merge(old(model.docs)[id], payload)] && r == Ok(model.docs[id])
    {
      var invalid := validateClass(payload);
      if invalid.Some? {
        return Err(invalid.value);
      }
      if Truthy(payload.active) {
        return Err(CHANGE_AVAILABILITY_ERROR);
      }
      ghost var before := model.docs;
      var updated := model.Update(id, e => Merge(e, payload));
      if updated.None? {
        return Err(NOT_FOUND_ERROR);
      }
      MergeKeepsWellKeyed(before, id, payload);
      return Ok(updated.value);
    }

    /** The availability toggle: schema check, existence, then the
        idempotence guard; only a real transition writes. */
    method UpdateAvailability(id: Id, want: bool) returns (r: Result<Envelope>)
      requires Valid()
      modifies model
      ensures Valid()
      ensures r.Ok? <==> validateAvailability(want).None? && CanToggle(old(model.docs), id, want)
      ensures model.docs == if r.Ok? then Toggled(old(model.docs), id, want) else old(model.docs)
      ensures r.Ok? ==> r.value == model.docs[id] && r.value.active == want
      ensures validateAvailability(want).Some? ==> r == Err(validateAvailability(want).value)
      ensures validateAvailability(want).None? && id !in old(model.docs) ==> r == Err(NOT_FOUND_ERROR)
      ensures validateAvailability(want).None? && id in old(model.docs) && old(model.docs)[id].active == want ==>
        r == Err(AlreadyError(want))
    {
      var invalid := validateAvailability(want);
      if invalid.Some? {
        return Err(invalid.value);
      }
      var response := model.FindOne(id);
      if response.None? {
        return Err(NOT_FOUND_ERROR);
      }
      if response.value.active == want {
        return Err(AlreadyError(want));
      }
      ghost var before := model.docs;
      var changed := response.value.(active := want);
      var updated := model.Update(id, _ => changed);
      assert model.docs == Toggled(before, id, want);
      ToggleKeepsWellKeyed(before, id, want);
      return Ok(updated.value);
    }
  }

  /** A client of the service: whatever the first request does, repeating
      the same toggle fails; after a successful one it fails as "already". */
  method ToggleTwice(s: ClassesServices, id: Id, want: bool) returns (first: Result<Envelope>, second: Result<Envelope>)
    requires s.Valid()
    modifies s.model
    ensures second.Err?
    ensures first.Ok? ==> second == Err(AlreadyError(want))
    ensures first.Ok? ==> s.model.docs == Toggled(old(s.model.docs), id, want)
  {
    first := s.UpdateAvailability(id, want);
    second := s.UpdateAvailability(id, want);
    if first.Ok? {
      ToggleTwiceRefused(old(s.model.docs), id, want);
    }
  }
}
