/** The document store the services talk to (MongoModel): an id-keyed
    collection. Its implementation is external; this class states the
    behaviour the services rely on. */
module Store {
  import opened Common

  /** Picks an id that no stored document uses: one longer than all of them.
      Stands for the store's own allocation of `_id` on `create`. */
  method FreshId(used: set<Id>) returns (id: Id)
    ensures id !in used
    ensures forall k :: k in used ==> |k| < |id|
  {
    id := "";
    var pending := used;
    while pending != {}
      invariant pending <= used
      invariant forall k :: k in used - pending ==> |k| < |id|
      decreases pending
    {
      var k :| k in pending;
      if |id| <= |k| {
        id := k + "0";
      }
      pending := pending - {k};
    }
  }

  /** Every stored document sits under its own `_id`; `idOf` reads a
      document's `_id`. */
  ghost predicate WellKeyed<D>(docs: map<Id, D>, idOf: D -> Id)
  {
    forall k :: k in docs ==> idOf(docs[k]) == k
  }

  class Collection<D> {
    var docs: map<Id, D>

    constructor (initial: map<Id, D>)
      ensures docs == initial
    {
      docs := initial;
    }

    /** `findOne(id)`: the stored document, or nothing for an absent id. */
    function FindOne(id: Id): (r: Option<D>)
      reads this
      ensures r.Some? <==> id in docs
      ensures r.Some? ==> r.value == docs[id]
    {
      if id in docs then Some(docs[id]) else None
    }

    /** `findAll(filter)`: the documents the filter keeps, with their ids. */
    function FindAll(keep: D -> bool): (r: map<Id, D>)
      reads this
      ensures forall id :: id in r <==> id in docs && keep(docs[id])
      ensures forall id :: id in r ==> r[id] == docs[id]
    {
      map id | id in docs && keep(docs[id]) :: docs[id]
    }

    /** `update(id, payload)`: applies the payload to the stored document and
        returns the new document, or returns nothing (null) for an absent id. */
    method Update(id: Id, apply: D -> D) returns (r: Option<D>)
      modifies this
      ensures id in old(docs) ==> docs == old(docs)[id := apply(old(docs)[id])] && r == Some(docs[id])
      ensures id !in old(docs) ==> docs == old(docs) && r == None
    {
      if id in docs {
        docs := docs[id := apply(docs[id])];
        r := Some(docs[id]);
      } else {
        r := None;
      }
    }

    /** `delete(id)`. */
    method Delete(id: Id)
      modifies this
      ensures docs == old(docs) - {id}
    {
      docs := docs - {id};
    }

    /** `create(doc)`: stores a new document under a fresh id; `build` gives
        the document once its id is known. */
    method Create(build: Id -> D) returns (id: Id)
      modifies this
      ensures id !in old(docs)
      ensures docs == old(docs)[id := build(id)]
    {
      id := FreshId(docs.Keys);
      docs := docs[id := build(id)];
    }
  }
}
