/** The catalog entries the page shows: one record per model. */
module Models {

  /** One entry of a record's `attributes` object: its code (the key), display name and score. */
  datatype AttributeEntry = AttributeEntry(code: string, name: string, score: int)

  /**
    A catalog record. `attributes` lists the object's entries in the order
    `Object.entries` yields them, which decides which entries a card shows.
    For the page's two-letter keys that is the order they were written in.
   */
  datatype ModelRecord = ModelRecord(
    id: int,
    name: string,
    company: string,
    version: string,
    description: string,
    overall: int,
    ratings: nat,
    avatar: string,
    attributes: seq<AttributeEntry>,
    tags: seq<string>)

  predicate InScoreRange(score: int)
  {
    0 <= score <= 100
  }

  /** Scores lie in 0..100 and attribute codes are distinct, as the keys of an object are. */
  predicate ValidRecord(m: ModelRecord)
  {
    && InScoreRange(m.overall)
    && (forall k :: 0 <= k < |m.attributes| ==> InScoreRange(m.attributes[k].score))
    && (forall j, k :: 0 <= j < k < |m.attributes| ==> m.attributes[j].code != m.attributes[k].code)
  }

  /** Identifiers are unique across the catalog. */
  predicate ValidCatalog(catalog: seq<ModelRecord>)
  {
    && (forall k :: 0 <= k < |catalog| ==> ValidRecord(catalog[k]))
    && (forall j, k :: 0 <= j < k < |catalog| ==> catalog[j].id != catalog[k].id)
  }
}
