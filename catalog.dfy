/**
 * The pricing catalog: construction types keyed by "<category>.<subindex>" and the category
 * table. Its contents live in a constants module that is not part of this model; the
 * calculator and the forms receive it as a parameter.
 */
module Catalog {
  import opened Types
  import Seqs

  /** How a type's base price combines with the dimensional inputs. */
  datatype Strategy = Fixed | PerArea | RetainingWall

  datatype ConstructionType = ConstructionType(
    name: string,
    basePrice: real,
    strategy: Strategy,
    minArea: Option<real>,
    maxArea: Option<real>)

  /**
   * `types` answers lookups by key, `order` is the enumeration order of those keys,
   * `categoryNames` maps a category code to its label and `categoryOrder` is the curated
   * order of the category table.
   */
  datatype Catalog = Catalog(
    types: map<string, ConstructionType>,
    order: seq<string>,
    categoryNames: map<string, string>,
    categoryOrder: seq<string>)
  {
    /** Keys are unique and enumerated once each; every key's category is in the table. */
    ghost predicate Valid() {
      && (forall k :: k in order <==> k in types)
      && Seqs.Distinct(order)
      && (forall c :: c in categoryOrder <==> c in categoryNames)
      && Seqs.Distinct(categoryOrder)
      && (forall k :: k in types ==> CategoryOf(k) in categoryNames)
    }
  }

  /** `key.split('.')[0]`: the part of the key before its first dot, or the whole key. */
  function CategoryOf(key: string): (c: string)
    ensures |c| <= |key| && c == key[..|c|]
    ensures '.' !in c
    ensures c == key || key[|c|] == '.'
  {
    if key == [] || key[0] == '.' then [] else [key[0]] + CategoryOf(key[1..])
  }
}
