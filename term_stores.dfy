/** The contract of a prefetching term lookup, as its callers see it.

    The concrete stores behind the delegating lookup are not part of this
    model. A store is represented by what a caller can observe of it: the
    prefetch requests it has received, point lookups answered by an
    arbitrary function of those requests and of the query, and which
    prefetch requests make it throw. */
module TermStores {
  import opened Common
  import opened PhpArrays

  /** The arguments of one `prefetchTerms` call; None stands for null,
      i.e. "all term types" or "all languages". */
  datatype PrefetchRequest = PrefetchRequest(
    entityIds: seq<EntityId>,
    termTypes: Option<seq<string>>,
    languageCodes: Option<seq<string>>)

  /** The point lookups of the contract, each with its arguments. */
  datatype TermQuery =
    | PrefetchedTerm(entityId: EntityId, termType: string, languageCode: string)
    | PrefetchedAliases(entityId: EntityId, languageCode: string)
    | Label(entityId: EntityId, languageCode: string)
    | Labels(entityId: EntityId, languageCodes: seq<string>)
    | Description(entityId: EntityId, languageCode: string)
    | Descriptions(entityId: EntityId, languageCodes: seq<string>)

  class TermStore {
    var prefetchRequests: seq<PrefetchRequest>
    const answer: (seq<PrefetchRequest>, TermQuery) -> Value
    /** Whether the store's prefetchTerms throws for a request. */
    const prefetchFails: PrefetchRequest -> bool

    constructor (answer: (seq<PrefetchRequest>, TermQuery) -> Value, prefetchFails: PrefetchRequest -> bool)
      ensures prefetchRequests == [] && this.answer == answer && this.prefetchFails == prefetchFails
    {
      prefetchRequests := [];
      this.answer := answer;
      this.prefetchFails := prefetchFails;
    }

    /** Records the request, or fails and leaves the store as it was. */
    method PrefetchTerms(entityIds: seq<EntityId>, termTypes: Option<seq<string>>, languageCodes: Option<seq<string>>)
      returns (failed: bool)
      modifies this
      ensures failed == prefetchFails(PrefetchRequest(entityIds, termTypes, languageCodes))
      ensures !failed ==> prefetchRequests == old(prefetchRequests) + [PrefetchRequest(entityIds, termTypes, languageCodes)]
      ensures failed ==> unchanged(this)
    {
      var request := PrefetchRequest(entityIds, termTypes, languageCodes);
      failed := prefetchFails(request);
      if !failed {
        prefetchRequests := prefetchRequests + [request];
      }
    }

    /** The store's answer to a point lookup in its current state. */
    function Answer(query: TermQuery): Value
      reads this
    {
      answer(prefetchRequests, query)
    }
  }
}
