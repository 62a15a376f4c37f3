/** TermStoresDelegatingPrefetchingItemTermLookup: one prefetching term
    lookup for items, in front of two stores. An item's terms are read from
    the normalized store when the migration predicate `useNormalizedItemTerms`
    holds of its numeric id, and from the legacy wb_terms store otherwise.
    Only item ids are accepted. */
module DelegatingTermLookup {
  import opened Common
  import opened PhpArrays
  import opened TermStores

  /** The store an id's terms are read from. */
  datatype TargetStore = NormalizedStore | WbTermsStore

  /** The ids, in input order, for which the migration predicate answers
      `toNormalized`: no more of them than the input has, and each of them
      sent to that side. */
  function RoutedIds(useNormalized: nat -> bool, ids: seq<EntityId>, toNormalized: bool): (r: seq<EntityId>)
    ensures |r| <= |ids|
    ensures forall i | 0 <= i < |r| :: useNormalized(r[i].numericId) == toNormalized
  {
    if ids == [] then []
    else
      var last := ids[|ids| - 1];
      RoutedIds(useNormalized, ids[..|ids| - 1], toNormalized)
        + (if useNormalized(last.numericId) == toNormalized then [last] else [])
  }

  /** An id is routed to a side exactly when it is in the input and the
      predicate sends it there. */
  lemma {:induction false} RoutedIdsMembership(useNormalized: nat -> bool, ids: seq<EntityId>, toNormalized: bool, id: EntityId)
    ensures id in RoutedIds(useNormalized, ids, toNormalized)
        <==> id in ids && useNormalized(id.numericId) == toNormalized
  {
    if ids != [] {
      RoutedIdsMembership(useNormalized, ids[..|ids| - 1], toNormalized, id);
      assert ids == ids[..|ids| - 1] + [ids[|ids| - 1]];
    }
  }

  /** The two sides together hold every input id exactly as often as the
      input does. */
  lemma {:induction false} RoutedIdsPartition(useNormalized: nat -> bool, ids: seq<EntityId>)
    ensures multiset(RoutedIds(useNormalized, ids, true)) + multiset(RoutedIds(useNormalized, ids, false))
         == multiset(ids)
  {
    if ids != [] {
      var prev, last := ids[..|ids| - 1], ids[|ids| - 1];
      RoutedIdsPartition(useNormalized, prev);
      assert ids == prev + [last];
      assert multiset(ids) == multiset(prev) + multiset{last};
      var toNormalized, toWbTerms := RoutedIds(useNormalized, prev, true), RoutedIds(useNormalized, prev, false);
      if useNormalized(last.numericId) {
        assert RoutedIds(useNormalized, ids, true) == toNormalized + [last];
        assert multiset(toNormalized + [last]) == multiset(toNormalized) + multiset{last};
        assert RoutedIds(useNormalized, ids, false) == toWbTerms;
      } else {
        assert RoutedIds(useNormalized, ids, true) == toNormalized;
        assert RoutedIds(useNormalized, ids, false) == toWbTerms + [last];
        assert multiset(toWbTerms + [last]) == multiset(toWbTerms) + multiset{last};
      }
    }
  }

  /** Routing keeps input order: routing a concatenation is concatenating
      the routed parts. */
  lemma {:induction false} RoutedIdsConcat(useNormalized: nat -> bool, a: seq<EntityId>, b: seq<EntityId>, toNormalized: bool)
    ensures RoutedIds(useNormalized, a + b, toNormalized)
         == RoutedIds(useNormalized, a, toNormalized) + RoutedIds(useNormalized, b, toNormalized)
  {
    if b != [] {
      var b' := b[..|b| - 1];
      RoutedIdsConcat(useNormalized, a, b', toNormalized);
      assert (a + b)[..|a + b| - 1] == a + b';
      assert (a + b)[|a + b| - 1] == b[|b| - 1];
    } else {
      assert a + b == a;
    }
  }

  /** `array_values` of an array whose keys are positions below `n`: the
      values of the positions still present, in position order. */
  function ValuesBelow(m: map<nat, EntityId>, n: nat): seq<EntityId> {
    if n == 0 then []
    else ValuesBelow(m, n - 1) + (if n - 1 in m then [m[n - 1]] else [])
  }

  /** When exactly the ids not routed to the normalized store are left at
      their positions, their values in position order are the legacy side. */
  lemma {:induction false} ValuesBelowRouted(useNormalized: nat -> bool, ids: seq<EntityId>, m: map<nat, EntityId>, n: nat)
    requires n <= |ids|
    requires forall j: nat | j < n :: j in m <==> !useNormalized(ids[j].numericId)
    requires forall j: nat | j in m && j < n :: m[j] == ids[j]
    ensures ValuesBelow(m, n) == RoutedIds(useNormalized, ids[..n], false)
  {
    if n > 0 {
      ValuesBelowRouted(useNormalized, ids, m, n - 1);
      assert ids[..n][..n - 1] == ids[..n - 1];
    }
  }

  /** `Assert::parameterElementType( ItemId::class, $entityIds, ... )` */
  predicate AllItemIds(ids: seq<EntityId>) {
    forall i | 0 <= i < |ids| :: ids[i].IsItemId()
  }

  /** The prefetch request a side receives: one request with that side's
      ids and the caller's term types and language codes, or none when no
      id goes to that side. */
  function ForwardedRequests(
    useNormalized: nat -> bool, ids: seq<EntityId>, termTypes: Option<seq<string>>,
    languageCodes: Option<seq<string>>, toNormalized: bool): seq<PrefetchRequest>
  {
    RequestsFor(RoutedIds(useNormalized, ids, toNormalized), termTypes, languageCodes)
  }

  /** The requests a store receives for its share of the ids: none when the
      share is empty. */
  function RequestsFor(ids: seq<EntityId>, termTypes: Option<seq<string>>, languageCodes: Option<seq<string>>)
    : seq<PrefetchRequest>
  {
    if ids == [] then [] else [PrefetchRequest(ids, termTypes, languageCodes)]
  }

  /** Whether a store throws on the forwarded requests (none, or one). */
  predicate FailsOn(store: TermStore, requests: seq<PrefetchRequest>) {
    requests != [] && store.prefetchFails(requests[0])
  }

  class TermStoresDelegatingPrefetchingItemTermLookup {
    const useNormalizedItemTerms: nat -> bool
    const normalizedStore: TermStore
    const wbTermsStore: TermStore

    constructor (useNormalizedItemTerms: nat -> bool, normalizedStore: TermStore, wbTermsStore: TermStore)
      ensures this.useNormalizedItemTerms == useNormalizedItemTerms
      ensures this.normalizedStore == normalizedStore && this.wbTermsStore == wbTermsStore
    {
      this.useNormalizedItemTerms := useNormalizedItemTerms;
      this.normalizedStore := normalizedStore;
      this.wbTermsStore := wbTermsStore;
    }

    /** The store an id is read from and prefetched into. */
    function Target(entityId: EntityId): TargetStore {
      if useNormalizedItemTerms(entityId.numericId) then NormalizedStore else WbTermsStore
    }

    function StoreOf(target: TargetStore): TermStore {
      match target
      case NormalizedStore => normalizedStore
      case WbTermsStore => wbTermsStore
    }

    /** Splits the ids into those for the normalized store and those for the
        wb_terms store. The ids moved to the first list are unset from the
        input array, whose remaining values are then renumbered from 0. */
    method SplitIdsPerTargetTermsStore(entityIds: seq<EntityId>)
      returns (normalizedStoreIds: seq<EntityId>, wbTermsStoreIds: seq<EntityId>)
      ensures normalizedStoreIds == RoutedIds(useNormalizedItemTerms, entityIds, true)
      ensures wbTermsStoreIds == RoutedIds(useNormalizedItemTerms, entityIds, false)
      ensures multiset(normalizedStoreIds) + multiset(wbTermsStoreIds) == multiset(entityIds)
      ensures forall id | id in normalizedStoreIds :: id in entityIds && Target(id) == NormalizedStore
      ensures forall id | id in wbTermsStoreIds :: id in entityIds && Target(id) == WbTermsStore
    {
      // the PHP array $entityIds, keyed by list position
      var remaining: map<nat, EntityId> := map i: nat | i < |entityIds| :: entityIds[i];
      normalizedStoreIds := [];
      for i := 0 to |entityIds|
        invariant normalizedStoreIds == RoutedIds(useNormalizedItemTerms, entityIds[..i], true)
        invariant forall j: nat :: j in remaining <==>
          j < |entityIds| && (j >= i || !useNormalizedItemTerms(entityIds[j].numericId))
        invariant forall j: nat | j in remaining :: remaining[j] == entityIds[j]
      {
        assert entityIds[..i + 1][..i] == entityIds[..i];
        if useNormalizedItemTerms(entityIds[i].numericId) {
          normalizedStoreIds := normalizedStoreIds + [entityIds[i]];
          remaining := remaining - {i};
        }
      }
      wbTermsStoreIds := ValuesBelow(remaining, |entityIds|);
      assert entityIds[..|entityIds|] == entityIds;
      ValuesBelowRouted(useNormalizedItemTerms, entityIds, remaining, |entityIds|);
      RoutedIdsPartition(useNormalizedItemTerms, entityIds);
      forall id | id in normalizedStoreIds ensures id in entityIds && Target(id) == NormalizedStore {
        RoutedIdsMembership(useNormalizedItemTerms, entityIds, true, id);
      }
      forall id | id in wbTermsStoreIds ensures id in entityIds && Target(id) == WbTermsStore {
        RoutedIdsMembership(useNormalizedItemTerms, entityIds, false, id);
      }
    }

    /** Rejects any id that is not an item id before touching a store; then
        forwards each non-empty side to its store, with the term types and
        language codes unchanged. An exception from the normalized store
        propagates before the wb_terms store is called. */
    method PrefetchTerms(entityIds: seq<EntityId>, termTypes: Option<seq<string>>, languageCodes: Option<seq<string>>)
      returns (r: Result<()>)
      modifies normalizedStore, wbTermsStore
      ensures var toNormalized := ForwardedRequests(useNormalizedItemTerms, entityIds, termTypes, languageCodes, true);
        var toWbTerms := ForwardedRequests(useNormalizedItemTerms, entityIds, termTypes, languageCodes, false);
        && (r.InvalidArgument? <==> !AllItemIds(entityIds))
        && (r.Failure? <==>
              AllItemIds(entityIds) && (FailsOn(normalizedStore, toNormalized) || FailsOn(wbTermsStore, toWbTerms)))
        && (r.Ok? <==>
              AllItemIds(entityIds) && !FailsOn(normalizedStore, toNormalized) && !FailsOn(wbTermsStore, toWbTerms))
      ensures !AllItemIds(entityIds) ||
          FailsOn(normalizedStore, ForwardedRequests(useNormalizedItemTerms, entityIds, termTypes, languageCodes, true))
        ==> unchanged(normalizedStore, wbTermsStore)
      ensures var toNormalized := ForwardedRequests(useNormalizedItemTerms, entityIds, termTypes, languageCodes, true);
        var toWbTerms := ForwardedRequests(useNormalizedItemTerms, entityIds, termTypes, languageCodes, false);
        AllItemIds(entityIds) && !FailsOn(normalizedStore, toNormalized) && normalizedStore != wbTermsStore ==>
          && normalizedStore.prefetchRequests == old(normalizedStore.prefetchRequests) + toNormalized
          && wbTermsStore.prefetchRequests == old(wbTermsStore.prefetchRequests)
               + (if FailsOn(wbTermsStore, toWbTerms) then [] else toWbTerms)
      ensures var toNormalized := ForwardedRequests(useNormalizedItemTerms, entityIds, termTypes, languageCodes, true);
        var toWbTerms := ForwardedRequests(useNormalizedItemTerms, entityIds, termTypes, languageCodes, false);
        AllItemIds(entityIds) && !FailsOn(normalizedStore, toNormalized) && normalizedStore == wbTermsStore ==>
          normalizedStore.prefetchRequests == old(normalizedStore.prefetchRequests) + toNormalized
            + (if FailsOn(wbTermsStore, toWbTerms) then [] else toWbTerms)
    {
      if !AllItemIds(entityIds) {
        return InvalidArgument("$entityIds must contain only ItemId");
      }
      var normalizedStoreIds, wbTermsStoreIds := SplitIdsPerTargetTermsStore(entityIds);
      r := ForwardToStores(normalizedStoreIds, wbTermsStoreIds, termTypes, languageCodes);
    }

    /** Calls each store whose share is non-empty, the normalized store
        first; a store that throws ends the call. */
    method ForwardToStores(
      normalizedStoreIds: seq<EntityId>, wbTermsStoreIds: seq<EntityId>,
      termTypes: Option<seq<string>>, languageCodes: Option<seq<string>>)
      returns (r: Result<()>)
      modifies normalizedStore, wbTermsStore
      ensures var toNormalized := RequestsFor(normalizedStoreIds, termTypes, languageCodes);
        var toWbTerms := RequestsFor(wbTermsStoreIds, termTypes, languageCodes);
        && (r.Failure? <==> FailsOn(normalizedStore, toNormalized) || FailsOn(wbTermsStore, toWbTerms))
        && (r.Ok? <==> !FailsOn(normalizedStore, toNormalized) && !FailsOn(wbTermsStore, toWbTerms))
      ensures FailsOn(normalizedStore, RequestsFor(normalizedStoreIds, termTypes, languageCodes))
        ==> unchanged(normalizedStore, wbTermsStore)
      ensures var toNormalized := RequestsFor(normalizedStoreIds, termTypes, languageCodes);
        var toWbTerms := RequestsFor(wbTermsStoreIds, termTypes, languageCodes);
        !FailsOn(normalizedStore, toNormalized) && normalizedStore != wbTermsStore ==>
          && normalizedStore.prefetchRequests == old(normalizedStore.prefetchRequests) + toNormalized
          && wbTermsStore.prefetchRequests == old(wbTermsStore.prefetchRequests)
               + (if FailsOn(wbTermsStore, toWbTerms) then [] else toWbTerms)
      ensures var toNormalized := RequestsFor(normalizedStoreIds, termTypes, languageCodes);
        var toWbTerms := RequestsFor(wbTermsStoreIds, termTypes, languageCodes);
        !FailsOn(normalizedStore, toNormalized) && normalizedStore == wbTermsStore ==>
          normalizedStore.prefetchRequests == old(normalizedStore.prefetchRequests) + toNormalized
            + (if FailsOn(wbTermsStore, toWbTerms) then [] else toWbTerms)
    {
      if normalizedStoreIds != [] {
        var failed := normalizedStore.PrefetchTerms(normalizedStoreIds, termTypes, languageCodes);
        if failed {
          return Failure("prefetchTerms of the normalized store threw");
        }
      }
      if wbTermsStoreIds != [] {
        var failed := wbTermsStore.PrefetchTerms(wbTermsStoreIds, termTypes, languageCodes);
        if failed {
          return Failure("prefetchTerms of the wb_terms store threw");
        }
      }
      r := Ok(());
    }

    /** A prefetched term, read from the store the id is routed to. */
    function GetPrefetchedTerm(entityId: EntityId, termType: string, languageCode: string): (r: Result<Value>)
      reads normalizedStore, wbTermsStore
      ensures r.Ok? <==> entityId.IsItemId()
      ensures r.InvalidArgument? <==> !entityId.IsItemId()
      ensures r.Ok? ==> r.value == StoreOf(Target(entityId)).Answer(PrefetchedTerm(entityId, termType, languageCode))
    {
      if !entityId.IsItemId() then InvalidArgument("$entityId can only be ItemId")
      else if useNormalizedItemTerms(entityId.numericId) then
        Ok(normalizedStore.Answer(PrefetchedTerm(entityId, termType, languageCode)))
      else
        Ok(wbTermsStore.Answer(PrefetchedTerm(entityId, termType, languageCode)))
    }

    /** Forwards a label or description lookup to the wb_terms store, or to
        the normalized store when the id is routed there. */
    function InvokeAppropriateStoreMethod(query: TermQuery): (r: Result<Value>)
      requires query.Label? || query.Labels? || query.Description? || query.Descriptions?
      reads normalizedStore, wbTermsStore
      ensures r.Ok? <==> query.entityId.IsItemId()
      ensures r.InvalidArgument? <==> !query.entityId.IsItemId()
      ensures r.Ok? ==> r.value == StoreOf(Target(query.entityId)).Answer(query)
    {
      if !query.entityId.IsItemId() then InvalidArgument("$entityId can only be ItemId")
      else
        var targetLookup := if useNormalizedItemTerms(query.entityId.numericId) then normalizedStore else wbTermsStore;
        Ok(targetLookup.Answer(query))
    }

    function GetLabel(entityId: EntityId, languageCode: string): (r: Result<Value>)
      reads normalizedStore, wbTermsStore
      ensures r.Ok? <==> entityId.IsItemId()
      ensures r.InvalidArgument? <==> !entityId.IsItemId()
      ensures r.Ok? ==> r.value == StoreOf(Target(entityId)).Answer(Label(entityId, languageCode))
    {
      InvokeAppropriateStoreMethod(Label(entityId, languageCode))
    }

    function GetLabels(entityId: EntityId, languageCodes: seq<string>): (r: Result<Value>)
      reads normalizedStore, wbTermsStore
      ensures r.Ok? <==> entityId.IsItemId()
      ensures r.InvalidArgument? <==> !entityId.IsItemId()
      ensures r.Ok? ==> r.value == StoreOf(Target(entityId)).Answer(Labels(entityId, languageCodes))
    {
      InvokeAppropriateStoreMethod(Labels(entityId, languageCodes))
    }

    function GetDescription(entityId: EntityId, languageCode: string): (r: Result<Value>)
      reads normalizedStore, wbTermsStore
      ensures r.Ok? <==> entityId.IsItemId()
      ensures r.InvalidArgument? <==> !entityId.IsItemId()
      ensures r.Ok? ==> r.value == StoreOf(Target(entityId)).Answer(Description(entityId, languageCode))
    {
      InvokeAppropriateStoreMethod(Description(entityId, languageCode))
    }

    function GetDescriptions(entityId: EntityId, languageCodes: seq<string>): (r: Result<Value>)
      reads normalizedStore, wbTermsStore
      ensures r.Ok? <==> entityId.IsItemId()
      ensures r.InvalidArgument? <==> !entityId.IsItemId()
      ensures r.Ok? ==> r.value == StoreOf(Target(entityId)).Answer(Descriptions(entityId, languageCodes))
    {
      InvokeAppropriateStoreMethod(Descriptions(entityId, languageCodes))
    }

    /** Prefetched aliases, read from the store the id is routed to. */
    function GetPrefetchedAliases(entityId: EntityId, languageCode: string): (r: Result<Value>)
      reads normalizedStore, wbTermsStore
      ensures r.Ok? <==> entityId.IsItemId()
      ensures r.InvalidArgument? <==> !entityId.IsItemId()
      ensures r.Ok? ==> r.value == StoreOf(Target(entityId)).Answer(PrefetchedAliases(entityId, languageCode))
    {
      if !entityId.IsItemId() then InvalidArgument("$entityId can only be ItemId")
      else if useNormalizedItemTerms(entityId.numericId) then
        Ok(normalizedStore.Answer(PrefetchedAliases(entityId, languageCode)))
      else
        Ok(wbTermsStore.Answer(PrefetchedAliases(entityId, languageCode)))
    }

    /** Routing consistency: prefetching sends every input id to exactly one
        store, in exactly one request, and it is the store that every point
        lookup for that id reads. */
    lemma PrefetchGoesWhereLookupsRead(
      entityIds: seq<EntityId>, termTypes: Option<seq<string>>, languageCodes: Option<seq<string>>, id: EntityId)
      requires id in entityIds
      ensures var toNormalized := Target(id) == NormalizedStore;
        var sent := ForwardedRequests(useNormalizedItemTerms, entityIds, termTypes, languageCodes, toNormalized);
        var other := ForwardedRequests(useNormalizedItemTerms, entityIds, termTypes, languageCodes, !toNormalized);
        && |sent| == 1 && id in sent[0].entityIds
        && sent[0].termTypes == termTypes && sent[0].languageCodes == languageCodes
        && forall req | req in other :: id !in req.entityIds
    {
      var toNormalized := Target(id) == NormalizedStore;
      RoutedIdsMembership(useNormalizedItemTerms, entityIds, toNormalized, id);
      RoutedIdsMembership(useNormalizedItemTerms, entityIds, !toNormalized, id);
    }

    /** A side receives no request at all exactly when none of the ids is
        routed to it. */
    lemma NoRequestForEmptySide(
      entityIds: seq<EntityId>, termTypes: Option<seq<string>>, languageCodes: Option<seq<string>>, toNormalized: bool)
      ensures ForwardedRequests(useNormalizedItemTerms, entityIds, termTypes, languageCodes, toNormalized) == []
          <==> forall id | id in entityIds :: (Target(id) == NormalizedStore) != toNormalized
    {
      var routed := RoutedIds(useNormalizedItemTerms, entityIds, toNormalized);
      forall id ensures id in routed <==> id in entityIds && useNormalizedItemTerms(id.numericId) == toNormalized {
        RoutedIdsMembership(useNormalizedItemTerms, entityIds, toNormalized, id);
      }
      if routed != [] {
        assert routed[0] in routed;
      }
    }
  }
}
