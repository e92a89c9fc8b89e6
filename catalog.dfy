/** What the store holds: product documents keyed by an identifier. */
module Catalog {
  import opened Js
  import opened Validation

  /** The store's opaque document identifier. */
  type Id = nat

  /** A stored product: its identifier and the fields it was written with. */
  datatype Doc = Doc(id: Id, fields: Body)

  /** The store's `$regex` test of a pattern against a field value, with the
      'i' option. The regex engine is not modelled: it is a parameter. */
  type Matcher = (string, Value) -> bool

  /** An upper bound on the identifiers in use: a fresh identifier exists. */
  ghost function Bound(used: set<Id>): (r: Id)
    ensures forall k :: k in used ==> k < r
    decreases used
  {
    if used == {} then 0
    else
      var k :| k in used;
      var rest := Bound(used - {k});
      assert forall j :: j in used ==> j == k || j in used - {k};
      if rest <= k then k + 1 else rest
  }
}
