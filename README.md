# Wikibase term lookups, other-projects sidebar and statement transclusion in Dafny

This project models four pieces of the Wikibase extension and proves properties about each of them.

- **TermStoresDelegatingPrefetchingItemTermLookup** is a prefetching term lookup for items that sits in front of two term stores.
  - It splits the ids of a prefetch between the normalized store and the legacy wb_terms store, using the migration predicate `useNormalizedItemTerms` on the numeric id.
  - It forwards each non-empty share to its store.
  - It answers every point lookup from the store the same predicate picks.
  - It rejects ids that are not item ids.
- **FakePrefetchingTermLookup** is a test double. Prefetching fills a nested buffer, id serialization => term type => language, with generated terms, or with a list of two generated aliases.
  - `getPrefetchedTerm` answers null for anything not prefetched.
  - `getPrefetchedAliases` answers an empty list for anything not prefetched.
  - `getLabels`/`getDescriptions` generate one term per language.
- **OtherProjectsSidebarGenerator** builds the "other projects" sidebar of a page from the site links of its item.
  - It keeps only links to sites that are listed for output and known to the site lookup.
  - It indexes them by site group and global site id, lets a hook replace the result when the replacement is well-formed, and flattens it sorted by group and then by global id.
- **StatementTransclusionInteractor** renders the main snaks of an entity for one property.
  - It decides whether the page's use of the entity is recorded and whether the result is empty.
  - It joins the non-empty formatted values and wraps them in a `<span>` unless the output is plain text.

## How the model is built

**Shared modules.**
- `Common` holds entity ids and `Result`/`Option`. An entity id is an item or property id with a numeric id; its serialization is `Q`/`P` followed by the decimal digits.
- `PhpArrays` models PHP's ordered arrays as association lists.
  - Reading a key finds its entry.
  - Writing an existing key replaces it in place, and writing a new key appends it.
  - `Find`, `Lookup` and `SetPath` give nested access (`array_key_exists` level by level, `?? null`, and a write that creates missing levels).
- `PhpSort` models `ksort` as a stable insertion sort over a fixed total order on keys.

**Objects whose state changes are classes.**
- The fake lookup's `$buffer` is a field that the prefetching methods update with nested loops. These are proved against the specification function `WithFakeTerms`.
- The two backing stores of the delegating lookup are `TermStore` objects. Each records the prefetch requests it receives and answers point lookups through a fixed function of those requests and the query. A fixed predicate says which prefetch requests make it throw.
- The usage accumulator records `addOtherUsage` calls.

**Collaborators are `const` function fields fixed at construction.** This covers:
- the migration predicate;
- the site link and site lookups, page URLs, `bcp47` and the badge information;
- the sidebar hook;
- the entity lookup, the property id resolver, the snaks finder, the snak formatter and `commaList`.

**Exceptions are outcomes.**
- `InvalidArgumentException` is `Result.InvalidArgument`.
- An exception thrown by a backing store's prefetch, which the delegating lookup lets through, is `Result.Failure`.
- `PropertyLabelNotResolvedException` is `RenderOutcome.PropertyLabelNotResolved`.
- An unresolved redirect from the entity lookup is `LookupOutcome.UnresolvedRedirect`.

**Null term types or languages.** The delegating lookup forwards null term types or language codes unchanged, while the fake lookup rejects them. The model keeps both behaviours, as the code does.

## Model

| member | source | states |
|---|---|---|
| Common.SerializationInjective | data-access/tests/phpunit/FakePrefetchingTermLookup.php:58 | different entity ids have different serializations, so the buffer's first-level key identifies the id |
| Common.DecimalDigitsInjective | data-access/tests/phpunit/FakePrefetchingTermLookup.php:75 | different counts print differently |
| PhpArrays.Get | data-access/tests/phpunit/FakePrefetchingTermLookup.php:127-130 | a key is found exactly when it is one of the array's keys, and what is found is the value of an entry with that key |
| PhpArrays.Set | data-access/tests/phpunit/FakePrefetchingTermLookup.php:107 | after `$a[$k] = $v` the key reads `$v` and every other key reads as before; a new key is appended at the end; writing the value already there changes nothing |
| PhpArrays.SetKeys | data-access/tests/phpunit/FakePrefetchingTermLookup.php:107 | a write adds its key to the keys and keeps every other entry; the only new entry is the written one |
| PhpArrays.SetInPlace | data-access/tests/phpunit/FakePrefetchingTermLookup.php:107 | writing an existing key keeps the length and every entry's key at its position |
| PhpArrays.SetDistinct | data-access/tests/phpunit/FakePrefetchingTermLookup.php:107 | a write never repeats a key |
| PhpArrays.Lookup | data-access/tests/phpunit/FakePrefetchingTermLookup.php:96 | `?? null` over a nested read yields the value when every level exists and null otherwise |
| PhpArrays.FindAfterSetPath | data-access/tests/phpunit/FakePrefetchingTermLookup.php:58 | a nested write changes what is found at its own path and at no other path of the same depth |
| PhpArrays.SetPathUnchanged | data-access/tests/phpunit/FakePrefetchingTermLookup.php:58 | writing the value already found at a path leaves the array identical, order included |
| PhpArrays.SetPathTwice | data-access/tests/phpunit/FakePrefetchingTermLookup.php:62-64 | two writes to the same path leave what the second alone leaves |
| PhpArrays.Values | lib/includes/Store/Sql/Terms/TermStoresDelegatingPrefetchingItemTermLookup.php:55 | `array_values` keeps the values in order, one per entry |
| PhpArrays.NextIndex | data-access/tests/phpunit/FakePrefetchingTermLookup.php:63 | the key `$a[] =` uses is one more than the largest non-negative integer key, or 0 when there is none: no integer key at or above it is taken, and when it is not 0 the key just below it is |
| PhpArrays.Append | data-access/tests/phpunit/FakePrefetchingTermLookup.php:63-64 | `$a[] = $v` appends one entry with the next free integer key |
| PhpArrays.LookupAfterSetPath | data-access/tests/phpunit/FakePrefetchingTermLookup.php:63-64 | what a nested write stores is read back at its path |
| PhpArrays.TwoAppends | data-access/tests/phpunit/FakePrefetchingTermLookup.php:62-64 | appending twice to an empty array builds the list with keys 0 and 1 |
| PhpArrays.ListOf | data-access/tests/phpunit/FakePrefetchingTermLookup.php:62-64 | a list built by appending has keys 0, 1, ... in order |
| PhpSort.KeyLeqTotalOrder | client/includes/Hooks/OtherProjectsSidebarGenerator.php:213 | the key order used by `ksort` is reflexive, total, antisymmetric and transitive |
| PhpSort.InsertByKey | client/includes/Hooks/OtherProjectsSidebarGenerator.php:213 | inserting into a sorted array keeps it sorted and adds exactly the one entry |
| PhpSort.KSort | client/includes/Hooks/OtherProjectsSidebarGenerator.php:213 | `ksort` yields an array sorted by key that is a permutation of its input |
| PhpSort.KSortKeys | client/includes/Hooks/OtherProjectsSidebarGenerator.php:213 | sorting keeps the set of keys |
| PhpSort.KSortDistinct | client/includes/Hooks/OtherProjectsSidebarGenerator.php:213 | sorting an array without repeated keys yields one without repeated keys |
| PhpSort.SortedDistinctStrict | client/includes/Hooks/OtherProjectsSidebarGenerator.php:213 | in a sorted array without repeated keys, keys strictly increase |
| PhpSort.FlatMapKSort | client/includes/Hooks/OtherProjectsSidebarGenerator.php:213-218 | concatenating per-entry results after sorting yields the same elements, as often, as before sorting |
| TermStores.TermStore.PrefetchTerms | lib/includes/Store/Sql/Terms/TermStoresDelegatingPrefetchingItemTermLookup.php:72-78 | a backing store records each prefetch request it receives, in order; a request it throws on leaves it exactly as it was |
| DelegatingTermLookup.RoutedIds | lib/includes/Store/Sql/Terms/TermStoresDelegatingPrefetchingItemTermLookup.php:45-56 | each side of the split is no longer than the input, and every id on a side is one the predicate sends there |
| DelegatingTermLookup.RoutedIdsMembership | lib/includes/Store/Sql/Terms/TermStoresDelegatingPrefetchingItemTermLookup.php:48-52 | an id is on a side exactly when it is in the input and the predicate sends it there |
| DelegatingTermLookup.RoutedIdsPartition | lib/includes/Store/Sql/Terms/TermStoresDelegatingPrefetchingItemTermLookup.php:45-56 | the two sides together hold every input id exactly as often as the input |
| DelegatingTermLookup.RoutedIdsConcat | lib/includes/Store/Sql/Terms/TermStoresDelegatingPrefetchingItemTermLookup.php:48-53 | splitting keeps input order: the split of a concatenation is the concatenation of the splits |
| DelegatingTermLookup.ValuesBelowRouted | lib/includes/Store/Sql/Terms/TermStoresDelegatingPrefetchingItemTermLookup.php:51-55 | after unsetting the ids sent to the normalized store, `array_values` of what is left is the legacy side, renumbered from 0 |
| DelegatingTermLookup.TermStoresDelegatingPrefetchingItemTermLookup.SplitIdsPerTargetTermsStore | lib/includes/Store/Sql/Terms/TermStoresDelegatingPrefetchingItemTermLookup.php:45-56 | the first list holds, in order, the ids the predicate sends to the normalized store and the second the rest; together they are a permutation of the input |
| DelegatingTermLookup.TermStoresDelegatingPrefetchingItemTermLookup.PrefetchTerms | lib/includes/Store/Sql/Terms/TermStoresDelegatingPrefetchingItemTermLookup.php:66-79 | fails with InvalidArgument iff some id is not an item id, and then touches no store; otherwise it fails iff a store throws on its request, and succeeds iff neither does; each store receives one request with its share and the unchanged term types and languages, or none when its share is empty (also when both stores are one object); when the normalized store throws, neither store changes and the wb_terms store is never called |
| DelegatingTermLookup.TermStoresDelegatingPrefetchingItemTermLookup.ForwardToStores | lib/includes/Store/Sql/Terms/TermStoresDelegatingPrefetchingItemTermLookup.php:72-78 | the normalized store is called first, and only with a non-empty share; its exception ends the call before the wb_terms store is reached; otherwise the wb_terms store is called with its non-empty share, and the outcome is a failure exactly when one of the two throws |
| DelegatingTermLookup.TermStoresDelegatingPrefetchingItemTermLookup.GetPrefetchedTerm | lib/includes/Store/Sql/Terms/TermStoresDelegatingPrefetchingItemTermLookup.php:91-101 | an InvalidArgument error exactly when the id is not an item id; otherwise it is the answer of the store the predicate picks |
| DelegatingTermLookup.TermStoresDelegatingPrefetchingItemTermLookup.InvokeAppropriateStoreMethod | lib/includes/Store/Sql/Terms/TermStoresDelegatingPrefetchingItemTermLookup.php:119-130 | an InvalidArgument error exactly when the id is not an item id; otherwise it forwards the call to the legacy store, or to the normalized store when the predicate holds |
| DelegatingTermLookup.TermStoresDelegatingPrefetchingItemTermLookup.GetLabel | lib/includes/Store/Sql/Terms/TermStoresDelegatingPrefetchingItemTermLookup.php:103-105 | the label from the store the predicate picks when the id is an item id, and an InvalidArgument error exactly when it is not |
| DelegatingTermLookup.TermStoresDelegatingPrefetchingItemTermLookup.GetLabels | lib/includes/Store/Sql/Terms/TermStoresDelegatingPrefetchingItemTermLookup.php:107-109 | the labels from the store the predicate picks when the id is an item id, and an InvalidArgument error exactly when it is not |
| DelegatingTermLookup.TermStoresDelegatingPrefetchingItemTermLookup.GetDescription | lib/includes/Store/Sql/Terms/TermStoresDelegatingPrefetchingItemTermLookup.php:111-113 | the description from the store the predicate picks when the id is an item id, and an InvalidArgument error exactly when it is not |
| DelegatingTermLookup.TermStoresDelegatingPrefetchingItemTermLookup.GetDescriptions | lib/includes/Store/Sql/Terms/TermStoresDelegatingPrefetchingItemTermLookup.php:115-117 | the descriptions from the store the predicate picks when the id is an item id, and an InvalidArgument error exactly when it is not |
| DelegatingTermLookup.TermStoresDelegatingPrefetchingItemTermLookup.GetPrefetchedAliases | lib/includes/Store/Sql/Terms/TermStoresDelegatingPrefetchingItemTermLookup.php:132-142 | an InvalidArgument error exactly when the id is not an item id; otherwise it is the answer of the store the predicate picks |
| DelegatingTermLookup.TermStoresDelegatingPrefetchingItemTermLookup.PrefetchGoesWhereLookupsRead | lib/includes/Store/Sql/Terms/TermStoresDelegatingPrefetchingItemTermLookup.php:45-79 | every prefetched id goes, in exactly one request with the caller's term types and languages, to the store its point lookups read, and in no request to the other store |
| DelegatingTermLookup.TermStoresDelegatingPrefetchingItemTermLookup.NoRequestForEmptySide | lib/includes/Store/Sql/Terms/TermStoresDelegatingPrefetchingItemTermLookup.php:72-78 | a store receives no request exactly when no id is routed to it |
| FakeTermLookup.GenerateFakeTermFormat | data-access/tests/phpunit/FakePrefetchingTermLookup.php:74-78 | a fake term is "serialization language type", followed by " " and the count in decimal when the count is not 0 |
| FakeTermLookup.GeneratedTermsDistinct | data-access/tests/phpunit/FakePrefetchingTermLookup.php:61-78 | different counts give different terms: the two aliases of a language differ from each other and from the label |
| FakeTermLookup.BufferedEntryFormat | data-access/tests/phpunit/FakePrefetchingTermLookup.php:57-78 | a buffered term is "serialization language type"; for aliases it is the list of that string followed by " 1" and by " 2", in that order |
| FakeTermLookup.FindAfterFill | data-access/tests/phpunit/FakePrefetchingTermLookup.php:43-65 | after prefetching, each slot [id][type][language] of the given ids, types and languages holds its generated entry, and every other slot holds what it held before |
| FakeTermLookup.SerializationsOfOnly | data-access/tests/phpunit/FakePrefetchingTermLookup.php:58 | a serialization among those of the prefetched ids belongs to one of those ids |
| FakeTermLookup.FillLeavesOtherIds | data-access/tests/phpunit/FakePrefetchingTermLookup.php:43-65 | prefetching leaves every slot of an entity it was not given as it was |
| FakeTermLookup.FillIdempotent | data-access/tests/phpunit/FakePrefetchingTermLookup.php:43-65 | prefetching the same ids, types and languages again leaves the buffer identical |
| FakeTermLookup.FoundTermsListed | data-access/tests/phpunit/FakePrefetchingTermLookup.php:80-92 | whatever a lookup finds at a slot is among the terms getPrefetchedTerms lists |
| FakeTermLookup.ListedTermsFound | data-access/tests/phpunit/FakePrefetchingTermLookup.php:80-92 | conversely, every term getPrefetchedTerms lists is what a lookup finds at some slot, when no array level repeats a key |
| FakeTermLookup.FakePrefetchingTermLookup.PrefetchTerms | data-access/tests/phpunit/FakePrefetchingTermLookup.php:29-41 | rejects null term types or languages and leaves the buffer alone; succeeds exactly when both lists are given, and then every prefetched slot reads back its generated entry and no other slot changes; the buffer stays valid |
| FakeTermLookup.FakePrefetchingTermLookup.BufferFakeTermsForEntities | data-access/tests/phpunit/FakePrefetchingTermLookup.php:43-55 | the triple loop writes each id's, type's and language's entry in that nesting order |
| FakeTermLookup.FakePrefetchingTermLookup.BufferFakeTermsForId | data-access/tests/phpunit/FakePrefetchingTermLookup.php:45-53 | the middle loop writes one id's entries term type by term type |
| FakeTermLookup.FakePrefetchingTermLookup.BufferFakeTermsForType | data-access/tests/phpunit/FakePrefetchingTermLookup.php:46-52 | the inner loop writes one id's and type's entries language by language, the aliases as a list |
| FakeTermLookup.FakePrefetchingTermLookup.BufferNonAliasTerm | data-access/tests/phpunit/FakePrefetchingTermLookup.php:57-59 | writes the generated term at the slot |
| FakeTermLookup.FakePrefetchingTermLookup.BufferAliasTerms | data-access/tests/phpunit/FakePrefetchingTermLookup.php:61-65 | resetting the slot and appending twice leaves exactly the two-element alias list at the slot |
| FakeTermLookup.FakePrefetchingTermLookup.GetPrefetchedTerms | data-access/tests/phpunit/FakePrefetchingTermLookup.php:80-92 | every value of the buffer, entity by entity, type by type, language by language; an alias list is one element |
| FakeTermLookup.FakePrefetchingTermLookup.CollectEntityTerms | data-access/tests/phpunit/FakePrefetchingTermLookup.php:84-88 | the inner two loops list one entity's values type by type, language by language |
| FakeTermLookup.FakePrefetchingTermLookup.GetPrefetchedTerm | data-access/tests/phpunit/FakePrefetchingTermLookup.php:94-97 | null exactly when the slot was not prefetched, and otherwise the generated entry for that slot |
| FakeTermLookup.FakePrefetchingTermLookup.GetLabel | data-access/tests/phpunit/FakePrefetchingTermLookup.php:99-101 | the label served directly is the one prefetching the "label" type buffers |
| FakeTermLookup.FakePrefetchingTermLookup.GetDescription | data-access/tests/phpunit/FakePrefetchingTermLookup.php:112-114 | the description served directly is the one prefetching the "description" type buffers |
| FakeTermLookup.FakePrefetchingTermLookup.GetLabels | data-access/tests/phpunit/FakePrefetchingTermLookup.php:103-110 | the keys are exactly the given languages, none repeated, each mapped to that language's label |
| FakeTermLookup.FakePrefetchingTermLookup.GetDescriptions | data-access/tests/phpunit/FakePrefetchingTermLookup.php:116-123 | the keys are exactly the given languages, none repeated, each mapped to that language's description |
| FakeTermLookup.FakePrefetchingTermLookup.FakeTermsByLanguage | data-access/tests/phpunit/FakePrefetchingTermLookup.php:106-108 | the per-language loop yields one generated term per given language and no other key |
| FakeTermLookup.FakePrefetchingTermLookup.GetPrefetchedAliases | data-access/tests/phpunit/FakePrefetchingTermLookup.php:125-136 | an empty list exactly when no aliases were prefetched for the id and language, and otherwise the two generated aliases |
| OtherProjectsSidebar.AllLinksValid | client/includes/Hooks/OtherProjectsSidebarGenerator.php:158-169 | the inner check holds iff every per-site key is a string and every link has string msg, class and href |
| OtherProjectsSidebar.IsValidSidebar | client/includes/Hooks/OtherProjectsSidebarGenerator.php:151-173 | holds iff every group key is a string, every group is an array and every link in it is well-formed |
| OtherProjectsSidebar.ApplyBadgeToLinkGet | client/includes/Hooks/OtherProjectsSidebarGenerator.php:250-253 | the badge display keeps every attribute the link has and takes the others from the badge information |
| OtherProjectsSidebar.ApplyBadgeToLinkKeys | client/includes/Hooks/OtherProjectsSidebarGenerator.php:250-253 | the link's attributes after the badge display are its own and the badge information's |
| OtherProjectsSidebar.FlattenedPermutation | client/includes/Hooks/OtherProjectsSidebarGenerator.php:210-221 | flattening only reorders: every link of every group appears, as often as in the sidebar |
| OtherProjectsSidebar.FlattenedLength | client/includes/Hooks/OtherProjectsSidebarGenerator.php:210-221 | the flattened sidebar has as many elements as all groups have links |
| OtherProjectsSidebar.PlacementsOrdered | client/includes/Hooks/OtherProjectsSidebarGenerator.php:213-218 | over groups sorted by distinct keys, the flattened links are ordered by group key and, within a group, by global site id |
| OtherProjectsSidebar.FlattenedOrder | client/includes/Hooks/OtherProjectsSidebarGenerator.php:210-221 | each flattened link sits at its (group, global id) placement, and placements ascend by group and then by global id |
| OtherProjectsSidebar.OtherProjectsSidebarGenerator.BuildProjectLinkSidebar | client/includes/Hooks/OtherProjectsSidebarGenerator.php:92-103 | empty when the page is not linked to an item; otherwise the item's flattened sidebar |
| OtherProjectsSidebar.OtherProjectsSidebarGenerator.BuildProjectLinkSidebarFromItemId | client/includes/Hooks/OtherProjectsSidebarGenerator.php:111-118 | the preliminary sidebar, passed through the hook, sorted and flattened; one element per link of that sidebar |
| OtherProjectsSidebar.OtherProjectsSidebarGenerator.RunHook | client/includes/Hooks/OtherProjectsSidebarGenerator.php:126-145 | the hook's result when it is an array that passes the validity check; the original sidebar otherwise; a valid sidebar stays valid |
| OtherProjectsSidebar.OtherProjectsSidebarGenerator.ShownSite | client/includes/Hooks/OtherProjectsSidebarGenerator.php:184-190 | a site link is shown exactly when its site id is listed for output and the site lookup knows the site, and then under that site |
| OtherProjectsSidebar.OtherProjectsSidebarGenerator.PreliminarySidebar | client/includes/Hooks/OtherProjectsSidebarGenerator.php:180-199 | the sidebar the loop builds passes the generator's own validity check and repeats no group |
| OtherProjectsSidebar.OtherProjectsSidebarGenerator.PreliminaryStep | client/includes/Hooks/OtherProjectsSidebarGenerator.php:190-195 | writing one more link at [group][global id] keeps a valid sidebar valid and its groups distinct |
| OtherProjectsSidebar.OtherProjectsSidebarGenerator.LastLinkAtAbsent | client/includes/Hooks/OtherProjectsSidebarGenerator.php:183-196 | there is a link at [group][global id] exactly when some site link is listed for output, has a known site, and that site has that group and global id |
| OtherProjectsSidebar.OtherProjectsSidebarGenerator.LastLinkAtIsLast | client/includes/Hooks/OtherProjectsSidebarGenerator.php:183-196 | the link at [group][global id] is built from the last site link shown there |
| OtherProjectsSidebar.OtherProjectsSidebarGenerator.PreliminaryLookup | client/includes/Hooks/OtherProjectsSidebarGenerator.php:180-199 | what the preliminary sidebar holds at [group][global id] is that last link, and nothing is held under an integer key |
| OtherProjectsSidebar.OtherProjectsSidebarGenerator.BuildSidebarLink | client/includes/Hooks/OtherProjectsSidebarGenerator.php:229-256 | a built link always carries string msg, class and href attributes, as the validity check requires of a link |
| OtherProjectsSidebar.OtherProjectsSidebarGenerator.SidebarLinkAttributes | client/includes/Hooks/OtherProjectsSidebarGenerator.php:229-256 | msg is "wikibase-otherprojects-" + group, class is "wb-otherproject-link wb-otherproject-" + group, href is the page URL; hreflang is the bcp47 code when the site has a language, and otherwise comes only from the badge information; no other attributes |
| OtherProjectsSidebar.OtherProjectsSidebarGenerator.BuildPreliminarySidebarFromSiteLinks | client/includes/Hooks/OtherProjectsSidebarGenerator.php:180-199 | the loop writes each shown link at [group][global id] in order; the result is valid and repeats no group |
| OtherProjectsSidebar.OtherProjectsSidebarGenerator.SortAndFlattenSidebar | client/includes/Hooks/OtherProjectsSidebarGenerator.php:210-221 | the groups sorted by key, each group's links sorted by key, concatenated; one element per link, a permutation of all links |
| StatementTransclusion.EntityOrNull | client/includes/DataAccess/StatementTransclusionInteractor.php:90-95 | the found entity itself, and nothing exactly when the lookup did not find one, so an unresolved redirect is treated like a missing entity |
| StatementTransclusion.UsageAccumulator.AddOtherUsage | client/includes/DataAccess/StatementTransclusionInteractor.php:103 | records the entity, after those recorded before |
| StatementTransclusion.StatementTransclusionInteractor.Render | client/includes/DataAccess/StatementTransclusionInteractor.php:85-121 | an entity that cannot hold statements gives "" and no usage; in every other case usage is recorded once, before the property is resolved; a missing entity gives ""; an unresolvable property label is passed on as the exception; otherwise the formatted snaks |
| StatementTransclusion.StatementTransclusionInteractor.NonEmptyFormattedValues | client/includes/DataAccess/StatementTransclusionInteractor.php:131-137 | no kept value is empty and there are no more values than snaks |
| StatementTransclusion.StatementTransclusionInteractor.FormattedSnaks | client/includes/DataAccess/StatementTransclusionInteractor.php:139-147 | empty exactly when the comma list is empty; the bare list for plain text; otherwise the list inside `<span>`...`</span>` |
| StatementTransclusion.StatementTransclusionInteractor.FormatSnaks | client/includes/DataAccess/StatementTransclusionInteractor.php:128-148 | the comma list of the non-empty values; "" when that list is empty; the bare list for plain text; otherwise the list inside `<span>`...`</span>` |
| StatementTransclusion.StatementTransclusionInteractor.NonEmptyFormattedValuesConcat | client/includes/DataAccess/StatementTransclusionInteractor.php:131-137 | values are kept snak by snak, in snak order: formatting a concatenation concatenates the results |
| StatementTransclusion.StatementTransclusionInteractor.NonEmptyFormattedValuesMembership | client/includes/DataAccess/StatementTransclusionInteractor.php:131-137 | a value is kept exactly when it is non-empty and some snak formats to it |
| StatementTransclusion.StatementTransclusionInteractor.NothingDropped | client/includes/DataAccess/StatementTransclusionInteractor.php:131-137 | when no snak formats to "", there is one value per snak, in snak order |

## Left out

- PHP's key coercion is not modelled. PHP turns numeric-string keys such as "12" into integer keys. Here every string key stays a string, so a language code or group name made of digits is treated as PHP would not treat it. This affects `isValidSidebar`'s `is_string` checks in particular.
- PhpSort.KSort: sorts by a fixed total order (integer keys first, then strings by code point) rather than PHP's own `ksort` comparison with SORT_REGULAR. PHP's comparison differs from it. PHP compares an integer key with a numeric-string key as numbers. It also compares two numeric-string keys as numbers, so "9.5" sorts before "10.5", while the model puts "10.5" first. An integer key and a non-numeric string key compare differently in each PHP version. PHP 7 reads the string as 0, so "abc" sorts before 5 and after -5. PHP 8 compares the integer as a string. The model puts the integer key first in both cases.
- OtherProjectsSidebar.OtherProjectsSidebarGenerator.BuildPreliminarySidebarFromSiteLinks: the allow-list test uses exact string membership, not `in_array`'s loose comparison.
- OtherProjectsSidebar.OtherProjectsSidebarGenerator.SidebarLinkAttributes: SidebarLinkBadgeDisplay is not part of this model. Its effect is modelled as adding the badge attributes the link does not have yet, so a badge that rewrites an existing attribute is not captured.
- OtherProjectsSidebar.FlattenedOrder: assumes the sidebar repeats no group key, which holds for every PHP array. The model's arrays could repeat keys, so the lemma takes this as a precondition. PreliminarySidebar proves it for the sidebar the generator builds.
- The sidebar hook receives the usage accumulator in the source and may record usage. The model's hook is a function of the item id, the sidebar and the site ids, with no side effects. `wfLogWarning` is not modelled.
- `Site::getPageUrl` is modelled as always returning a string; a `false` result is not modelled.
- `Title` is reduced to its prefixed text.
- The backing stores of the delegating lookup are not part of this model. A store's answers are an arbitrary function of the requests it has received and the query.
- TermStores.TermStore.PrefetchTerms: a store that throws is modelled as changing nothing. A real store might have filled part of its buffer before it threw.
- A backing store's point lookups never throw. Only its prefetch can fail, and that failure is passed on as `Result.Failure`.
- An entity id is an item id or a property id. Lexeme, form and sense ids, and ids with a repository prefix, are not part of this model. The delegating lookup rejects all of them alike, as it rejects any non-item id.
- `useNormalizedItemTerms` is an arbitrary predicate on numeric ids. DataAccessSettings is not part of this model.
- FakeTermLookup.FakePrefetchingTermLookup.PrefetchTerms: the defaults after the null check (`label`/`description` and `de`/`en`) are unreachable and are not modelled as a separate path.
- The fake lookup's `$buffer` starts out unset. The model starts it as an empty array. Before the first prefetch, `?? null` and `foreach` treat the unset field like an empty array, and so does `array_key_exists` on PHP 7, which warns and returns null.
- FakeTermLookup.FakePrefetchingTermLookup.GetPrefetchedAliases: on PHP 8, calling it on a fake that was never prefetched throws a TypeError, because `array_key_exists` refuses the null `$buffer` (FakePrefetchingTermLookup.php:127). The model returns an empty list there, as PHP 7 does.
- FakeTermLookup.FakePrefetchingTermLookup.PrefetchTerms: requires the buffer invariant `Valid()` (only generated entries, each at its own slot). This invariant holds from construction on.
- FakeTermLookup.FakePrefetchingTermLookup.GetPrefetchedTerms: the two inner loops are a separate method, CollectEntityTerms, rather than being nested in the same method body.
- FakeTermLookup.FakePrefetchingTermLookup.BufferFakeTermsForEntities: the middle and inner loops are separate methods, BufferFakeTermsForId and BufferFakeTermsForType, rather than being nested in the same method body.
- FakeTermLookup.FakePrefetchingTermLookup.GetLabels: the source duplicates the per-language loop in getLabels and getDescriptions. The model shares it in FakeTermsByLanguage.
- Language::commaList, SnakFormatter::formatSnak, PropertyIdResolver, SnaksFinder and EntityLookup are fixed functions whose internals are not part of this model. Only the two exceptions named in the source are modelled; any other exception they raise is not.
- Integer widths do not matter in the modelled code. Numeric ids and counts are unbounded naturals.
- repo/includes/Hooks/Formatters/DefaultEntityLinkFormatter.php is not part of this model, because its output comes almost entirely from the host's message and language services.
