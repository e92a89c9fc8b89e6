/** The `/api/products` routes over an in-memory store: get, create, update,
    delete and search, each behind its gate chain. The authentication
    middleware is an input (`authorized`); a store call that throws is an input
    too (`storeFails`) and surfaces as the error handler's `Internal` outcome. */
module Routes {
  import opened Js
  import opened Validation
  import opened Catalog

  datatype Payload = Item(doc: Doc) | Items(docs: set<Doc>) | Message(text: string)

  /** What a route answers; how the error handler renders the failures is
      not modelled. */
  datatype Outcome =
    | Ok(status: nat, body: Payload)
    | NotFound(message: string)
    | Unauthorized
    | Invalid(message: string)
    | Internal

  const OkStatus: nat := 200
  const Created: nat := 201
  const ProductNotFound := "Product not found"
  const DeletedMessage := "Product deleted successfully"

  /** The `auth` then `validateProduct` chain of the write routes: the outcome
      it ends the request with, if any. */
  function WriteGates(authorized: bool, body: Body): (r: Option<Outcome>)
    ensures !authorized ==> r == Some(Unauthorized)
    ensures authorized ==> (r == None <==> ValidateProduct(body) == Accept)
    ensures authorized && r.Some? ==>
      r.value.Invalid? && Reply(ValidateProduct(body)) == Reject(BadRequest, r.value.message)
  {
    if !authorized then Some(Unauthorized)
    else
      match Reply(ValidateProduct(body))
      case Next => None
      case Reject(_, error) => Some(Invalid(error))
  }

  class ProductStore {
    var documents: map<Id, Body>

    /** Every stored product passed the validator: truthy name, description
        and category, and a price that is a number >= 0. */
    ghost predicate Valid()
      reads this
    {
      forall k :: k in documents ==> ValidateProduct(documents[k]) == Accept
    }

    constructor ()
      ensures Valid()
      ensures documents == map[]
    {
      documents := map[];
    }

    /** `GET /api/products/:id`. */
    function Get(id: Id, storeFails: bool): (o: Outcome)
      reads this
      ensures storeFails <==> o == Internal
      ensures !storeFails && id in documents ==> o == Ok(OkStatus, Item(Doc(id, documents[id])))
      ensures !storeFails ==> (o.NotFound? <==> id !in documents)
      ensures o.NotFound? ==> o.message == ProductNotFound
      ensures o.Ok? ==>
        (o.status == OkStatus && o.body.Item? &&
         o.body.doc.id == id && id in documents && documents[id] == o.body.doc.fields)
    {
      if storeFails then Internal
      else if id !in documents then NotFound(ProductNotFound)
      else Ok(OkStatus, Item(Doc(id, documents[id])))
    }

    /** `GET /api/products/search/:name`: every document whose name matches;
        an empty answer is still a success. */
    function Search(name: string, m: Matcher, storeFails: bool): (o: Outcome)
      reads this
      ensures !o.NotFound?
      ensures storeFails <==> o == Internal
      ensures !storeFails ==> o.Ok?
      ensures o.Ok? ==> o.status == OkStatus && o.body.Items?
      ensures o.Ok? ==> forall d :: d in o.body.docs <==>
        d.id in documents && documents[d.id] == d.fields && m(name, d.fields.name)
    {
      if storeFails then Internal
      else Ok(OkStatus, Items(set id | id in documents && m(name, documents[id].name) :: Doc(id, documents[id])))
    }

    /** `POST /api/products`: the gates, then a new document under an
        identifier the store picks. */
    method Create(authorized: bool, body: Body, storeFails: bool) returns (o: Outcome)
      requires Valid()
      modifies this
      ensures Valid()
      ensures WriteGates(authorized, body).Some? ==>
        o == WriteGates(authorized, body).value && documents == old(documents)
      ensures WriteGates(authorized, body).None? && storeFails ==>
        o == Internal && documents == old(documents)
      ensures WriteGates(authorized, body).None? && !storeFails ==> o.Ok?
      ensures o.Ok? ==>
        (o.status == Created && o.body.Item? && o.body.doc.fields == body &&
         o.body.doc.id !in old(documents) &&
         documents == old(documents)[o.body.doc.id := body])
    {
      var gate := WriteGates(authorized, body);
      if gate.Some? {
        return gate.value;
      }
      if storeFails {
        return Internal;
      }
      ghost var bound := Bound(documents.Keys);
      assert bound !in documents;
      var id :| id !in documents;
      documents := documents[id := body];
      o := Ok(Created, Item(Doc(id, body)));
    }

    /** `PUT /api/products/:id`: the gates, then the body's fields replace the
        document's and the updated document is returned. */
    method Update(authorized: bool, id: Id, body: Body, storeFails: bool) returns (o: Outcome)
      requires Valid()
      modifies this
      ensures Valid()
      ensures WriteGates(authorized, body).Some? ==>
        o == WriteGates(authorized, body).value && documents == old(documents)
      ensures WriteGates(authorized, body).None? && storeFails ==>
        o == Internal && documents == old(documents)
      ensures WriteGates(authorized, body).None? && !storeFails && id !in old(documents) ==>
        o == NotFound(ProductNotFound) && documents == old(documents)
      ensures WriteGates(authorized, body).None? && !storeFails && id in old(documents) ==>
        o == Ok(OkStatus, Item(Doc(id, body))) && documents == old(documents)[id := body]
    {
      var gate := WriteGates(authorized, body);
      if gate.Some? {
        return gate.value;
      }
      if storeFails {
        return Internal;
      }
      if id !in documents {
        return NotFound(ProductNotFound);
      }
      documents := documents[id := body];
      o := Ok(OkStatus, Item(Doc(id, body)));
    }

    /** `DELETE /api/products/:id`: only the `auth` gate, then removal. */
    method Delete(authorized: bool, id: Id, storeFails: bool) returns (o: Outcome)
      requires Valid()
      modifies this
      ensures Valid()
      ensures !authorized ==> o == Unauthorized && documents == old(documents)
      ensures authorized && storeFails ==> o == Internal && documents == old(documents)
      ensures authorized && !storeFails && id !in old(documents) ==>
        o == NotFound(ProductNotFound) && documents == old(documents)
      ensures authorized && !storeFails && id in old(documents) ==>
        o == Ok(OkStatus, Message(DeletedMessage)) && documents == old(documents) - {id}
    {
      if !authorized {
        return Unauthorized;
      }
      if storeFails {
        return Internal;
      }
      if id !in documents {
        return NotFound(ProductNotFound);
      }
      documents := documents - {id};
      o := Ok(OkStatus, Message(DeletedMessage));
    }
  }

  /** A request that is both unauthorized and invalid reports the auth failure,
      on either write route, and changes nothing. */
  method UnauthorizedBeforeInvalid(store: ProductStore, id: Id, body: Body, storeFails: bool)
    returns (created: Outcome, updated: Outcome)
    requires store.Valid() && ValidateProduct(body) != Accept
    modifies store
    ensures created == Unauthorized && updated == Unauthorized
    ensures store.documents == old(store.documents)
  {
    created := store.Create(false, body, storeFails);
    updated := store.Update(false, id, body, storeFails);
  }

  /** Deleting the same identifier twice: the second call finds nothing. */
  method DeleteTwice(store: ProductStore, id: Id) returns (first: Outcome, second: Outcome)
    requires store.Valid()
    modifies store
    ensures first.Ok? <==> id in old(store.documents)
    ensures second == NotFound(ProductNotFound)
    ensures store.documents == old(store.documents) - {id}
  {
    first := store.Delete(true, id, false);
    second := store.Delete(true, id, false);
  }

  /** A created product is read back with the submitted fields, and no other
      document changed. */
  method CreateThenGet(store: ProductStore, body: Body) returns (created: Outcome, fetched: Outcome)
    requires store.Valid() && ValidateProduct(body) == Accept
    modifies store
    ensures created.Ok? && created.status == Created && created.body.Item?
    ensures fetched == Ok(OkStatus, Item(Doc(created.body.doc.id, body)))
    ensures created.body.doc.id !in old(store.documents)
    ensures forall k :: k in old(store.documents) ==>
      k in store.documents && store.documents[k] == old(store.documents)[k]
  {
    created := store.Create(true, body, false);
    fetched := store.Get(created.body.doc.id, false);
  }
}
