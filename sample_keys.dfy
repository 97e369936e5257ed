/**
 * The top-level keys of a BioSample document that the merge of two samples
 * treats field by field.  They live apart from the submitter so that facts
 * about these string constants are proved without the rest of the model in
 * view.
 */
module SampleKeys {
  /** The list-valued fields `_update_from_array` merges, in the order it visits them. */
  const ArrayKeys: seq<string> := ["externalReferences", "relationships", "contact", "organization"]

  /** The identifying fields, copied only into a sample that lacks them. */
  const ScalarKeys: seq<string> := ["taxId", "accession", "name", "release"]

  /** The characteristics, the list fields and the identifying fields are distinct keys of a sample. */
  predicate KeysApart(arrayKeys: seq<string>, scalarKeys: seq<string>)
  {
    "characteristics" !in arrayKeys && "characteristics" !in scalarKeys &&
    forall k :: k in scalarKeys ==> k !in arrayKeys
  }

  lemma KeyListsApart()
    ensures KeysApart(ArrayKeys, ScalarKeys)
  {
  }
}
