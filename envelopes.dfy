/** The bilingual envelope every catalog entity is stored in, and the two ways
    the services change a stored envelope: a content update and an
    availability toggle. */
module Envelopes {
  import opened Common
  import opened Store

  /** Language-specific entity fields; their shape is the schema's business. */
  datatype Content = Content(fields: map<string, string>)

  /** `Internacional<T>`: `_id`, `active`, and the `en` and `pt` payloads. */
  datatype Envelope = Envelope(id: Id, active: bool, en: Content, pt: Content)

  /** An update payload; `active` is present only when the client sent it. */
  datatype EnvelopePayload = EnvelopePayload(active: Option<bool>, en: Content, pt: Content)

  /** JavaScript truthiness of `payload.active`. */
  predicate Truthy(b: Option<bool>)
  {
    b == Some(true)
  }

  /** The store's `update(id, payload)` on an envelope: the payload's fields
      replace the stored ones; `_id` is never touched. */
  function Merge(e: Envelope, p: EnvelopePayload): Envelope
  {
    Envelope(e.id, if p.active.Some? then p.active.value else e.active, p.en, p.pt)
  }

  /** The `_id` of an envelope. */
  function EnvelopeId(e: Envelope): Id
  {
    e.id
  }

  /** `findAll({ active: true })` and `findAll({ active: false })` filters. */
  predicate IsActive(e: Envelope) { e.active }
  predicate IsDisabled(e: Envelope) { !e.active }

  /** A toggle to `want` is a real transition: the entity exists and its flag
      differs from `want`. */
  predicate CanToggle(docs: map<Id, Envelope>, id: Id, want: bool)
  {
    id in docs && docs[id].active != want
  }

  /** The store after a toggle request: the flag flipped when the toggle is a
      real transition, nothing changed otherwise. */
  function Toggled(docs: map<Id, Envelope>, id: Id, want: bool): (r: map<Id, Envelope>)
    ensures r.Keys == docs.Keys
    ensures CanToggle(docs, id, want) ==> r[id].active == want
    ensures forall k :: k in docs && k != id ==> r[k] == docs[k]
  {
    if CanToggle(docs, id, want) then docs[id := docs[id].(active := want)] else docs
  }

  /** A successful toggle changes the flag and nothing else of the envelope. */
  lemma ToggleChangesOnlyActive(docs: map<Id, Envelope>, id: Id, want: bool)
    requires CanToggle(docs, id, want)
    ensures var e := Toggled(docs, id, want)[id];
      e.active == want && e.id == docs[id].id && e.en == docs[id].en && e.pt == docs[id].pt
  {
  }

  /** Idempotence guard: repeating a successful toggle is refused. */
  lemma ToggleTwiceRefused(docs: map<Id, Envelope>, id: Id, want: bool)
    requires CanToggle(docs, id, want)
    ensures !CanToggle(Toggled(docs, id, want), id, want)
  {
  }

  /** Symmetry: after a successful toggle the opposite toggle succeeds and
      restores the original store. */
  lemma ToggleBackRestores(docs: map<Id, Envelope>, id: Id, want: bool)
    requires CanToggle(docs, id, want)
    ensures CanToggle(Toggled(docs, id, want), id, !want)
    ensures Toggled(Toggled(docs, id, want), id, !want) == docs
  {
    var once := Toggled(docs, id, want);
    assert once[id].(active := !want) == docs[id];
  }

  /** Toggles keep every envelope under its own id. */
  lemma ToggleKeepsWellKeyed(docs: map<Id, Envelope>, id: Id, want: bool)
    requires WellKeyed(docs, EnvelopeId)
    ensures WellKeyed(Toggled(docs, id, want), EnvelopeId)
  {
  }

  /** Content updates keep every envelope under its own id. */
  lemma MergeKeepsWellKeyed(docs: map<Id, Envelope>, id: Id, p: EnvelopePayload)
    requires WellKeyed(docs, EnvelopeId) && id in docs
    ensures WellKeyed(docs[id := Merge(docs[id], p)], EnvelopeId)
  {
  }

  /** Round trip of an update: the stored content becomes the payload's,
      `_id` stays, and `active` stays unless the payload carries one. */
  lemma MergeRoundTrip(e: Envelope, p: EnvelopePayload)
    ensures Merge(e, p).en == p.en && Merge(e, p).pt == p.pt && Merge(e, p).id == e.id
    ensures p.active.None? ==> Merge(e, p).active == e.active
    ensures Merge(Merge(e, p), p) == Merge(e, p)
  {
  }
}
