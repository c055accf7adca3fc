/** The secret parameters of a held operation: kept out of the session table, typed in on approval. */
module SecretParams {
  import opened Wrappers

  /** The caller's parameters that are taken for secret: those that the operation's catalog entry
      declares so, or none when the lookup fails. */
  function SecretParamNames(declared: set<string>, lookupFails: bool, params: map<string, string>): set<string> {
    if lookupFails then {} else declared * params.Keys
  }

  /** What is written to the table: the caller's parameters without the secret ones. */
  function StoredParams(params: map<string, string>, secretFields: set<string>): map<string, string> {
    map k | k in params && k !in secretFields :: params[k]
  }

  /** What runs after approval: the stored parameters and the values typed on the page, or nothing
      when one of those is missing or empty. */
  function MergedParams(stored: map<string, string>, secretFields: set<string>, supplied: map<string, string>)
    : Option<map<string, string>>
  {
    if exists f <- secretFields :: f !in supplied || supplied[f] == "" then None
    else Some(stored + map f | f in secretFields :: if f in supplied then supplied[f] else "")
  }

  /** The caller's parameters with a value from the page, never an empty one, for each secret field. */
  predicate IsAskedWith(
    ran: map<string, string>, asked: map<string, string>, secretFields: set<string>, supplied: map<string, string>)
  {
    && ran.Keys == asked.Keys
    && forall k :: k in asked ==>
         if k in secretFields then k in supplied && supplied[k] != "" && ran[k] == supplied[k] else ran[k] == asked[k]
  }

  /** Around the table: the merged parameters are those asked for, with the typed values. */
  lemma MergedAreThoseAsked(asked: map<string, string>, secretFields: set<string>, supplied: map<string, string>)
    requires secretFields <= asked.Keys
    ensures var merged := MergedParams(StoredParams(asked, secretFields), secretFields, supplied);
            && (merged.None? <==> exists f <- secretFields :: f !in supplied || supplied[f] == "")
            && (merged.Some? ==> IsAskedWith(merged.value, asked, secretFields, supplied))
  {
  }
}
