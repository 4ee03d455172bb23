/**
  * Schemaless Firestore documents: a document is a map from field name to value, and an absent
  * key is an `undefined` field. `ServerTime` stands for the `serverTimestamp()` sentinel, whose
  * value the store fills in.
  */
module Documents {

  datatype Value = Null | Bool(b: bool) | Num(n: real) | Str(s: string) | ServerTime

  type Doc = map<string, Value>

  /** `{ ...base, ...over }`: every field of `over`, and the fields of `base` it does not set. */
  function Spread(base: Doc, over: Doc): (r: Doc)
    ensures r.Keys == base.Keys + over.Keys
    ensures forall k :: k in over ==> r[k] == over[k]
    ensures forall k :: k in base && k !in over ==> r[k] == base[k]
  {
    base + over
  }

  /** Spreading an empty object changes nothing, and spreading twice is spreading the union. */
  lemma SpreadLaws(base: Doc, a: Doc, b: Doc)
    ensures Spread(base, map[]) == base
    ensures Spread(Spread(base, a), b) == Spread(base, Spread(a, b))
  {
  }
}
