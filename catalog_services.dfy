/** `ArmorsServices`, `ItemsServices` and `MagicItemsServices`: the same code
    three times, differing only in the not-found text. One class models all
    three; each named constructor builds the service of one entity. */
module CatalogServices {
  import opened Common
  import opened Envelopes
  import opened Store
  import opened Validation

  class CatalogServices {
    const model: Collection<Envelope>
    const validateEntity: Check<EnvelopePayload>   // validate(languagesWrapper(<entity>ZodSchema), ·)
    const notFoundMessage: string

    ghost predicate Valid()
      reads this, model
    {
      WellKeyed(model.docs, EnvelopeId)
    }

    constructor Armors(model: Collection<Envelope>, validateEntity: Check<EnvelopePayload>)
      requires WellKeyed(model.docs, EnvelopeId)
      ensures Valid()
      ensures this.model == model && this.validateEntity == validateEntity
      ensures notFoundMessage == "NotFound an armor with provided ID"
    {
      this.model := model;
      this.validateEntity := validateEntity;
      notFoundMessage := "NotFound an armor with provided ID";
    }

    constructor Items(model: Collection<Envelope>, validateEntity: Check<EnvelopePayload>)
      requires WellKeyed(model.docs, EnvelopeId)
      ensures Valid()
      ensures this.model == model && this.validateEntity == validateEntity
      ensures notFoundMessage == "NotFound a Item with provided ID"
    {
      this.model := model;
      this.validateEntity := validateEntity;
      notFoundMessage := "NotFound a Item with provided ID";
    }

    constructor MagicItems(model: Collection<Envelope>, validateEntity: Check<EnvelopePayload>)
      requires WellKeyed(model.docs, EnvelopeId)
      ensures Valid()
      ensures this.model == model && this.validateEntity == validateEntity
      ensures notFoundMessage == "NotFound a magic item with provided ID"
    {
      this.model := model;
      this.validateEntity := validateEntity;
      notFoundMessage := "NotFound a magic item with provided ID";
    }

    function NotFoundError(): (e: Failure)
      reads this
      ensures e.code == NOT_FOUND && e.name == "NotFound"
    {
      PlainError(notFoundMessage, NOT_FOUND, "NotFound")
    }

    /** Every stored entity; there is no availability filter. */
    method FindAll() returns (r: map<Id, Envelope>)
      ensures r == model.docs
    {
      r := model.FindAll(_ => true);
    }

    method FindOne(id: Id) returns (r: Result<Envelope>)
      ensures r.Ok? <==> id in model.docs
      ensures r.Ok? ==> r.value == model.docs[id]
      ensures r.Err? ==> r.error == NotFoundError()
    {
      var response := model.FindOne(id);
      if response.None? {
        return Err(NotFoundError());
      }
      return Ok(response.value);
    }

    /** Schema check first, then the store write; no availability guard. */
    method Update(id: Id, payload: EnvelopePayload) returns (r: Result<Envelope>)
      requires Valid()
      modifies model
      ensures Valid()
      ensures validateEntity(payload).Some? ==>
        r == Err(validateEntity(payload).value) && model.docs == old(model.docs)
      ensures validateEntity(payload).None? && id !in old(model.docs) ==>
        r == Err(NotFoundError()) && model.docs == old(model.docs)
      ensures validateEntity(payload).None? && id in old(model.docs) ==>
        model.docs == old(model.docs)[id := Merge(old(model.docs)[id], payload)] && r == Ok(model.docs[id])
    {
      var invalid := validateEntity(payload);
      if invalid.Some? {
        return Err(invalid.value);
      }
      ghost var before := model.docs;
      var response := model.Update(id, e => Merge(e, payload));
      if response.None? {
        return Err(NotFoundError());
      }
      MergeKeepsWellKeyed(before, id, payload);
      return Ok(response.value);
    }

    /** Removes exactly the given entity; an absent id is NotFound and
        removes nothing. */
    method Delete(id: Id) returns (r: Result<()>)
      requires Valid()
      modifies model
      ensures Valid()
      ensures r.Ok? <==> id in old(model.docs)
      ensures r.Err? ==> r.error == NotFoundError() && model.docs == old(model.docs)
      ensures r.Ok? ==> model.docs == old(model.docs) - {id}
    {
      var response := model.FindOne(id);
      if response.None? {
        return Err(NotFoundError());
      }
      model.Delete(id);
      return Ok(());
    }
  }
}
