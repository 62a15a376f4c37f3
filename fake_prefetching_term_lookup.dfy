/** FakePrefetchingTermLookup: a test double of a prefetching term lookup.
    Every label and description it serves is generated from the entity id,
    the language and the term type; prefetching writes those generated terms
    into a buffer keyed id => term type => language, where the aliases of a
    language are a list of two generated strings. */
module FakeTermLookup {
  import opened Common
  import opened PhpArrays

  const ALIAS := "alias"
  const LABEL := "label"
  const DESCRIPTION := "description"

  /** generateFakeTerm: "<serialization> <language> <term type>", followed
      by " <count>" when the count is not 0. */
  function GenerateFakeTerm(serialization: string, termType: string, languageCode: string, count: nat): string {
    var suffix := if count != 0 then " " + DecimalDigits(count) else "";
    serialization + " " + languageCode + " " + termType + suffix
  }

  /** A fake term starts with "<serialization> <language> <term type>" and
      ends there when the count is 0; otherwise " <count>" follows. */
  lemma GenerateFakeTermFormat(serialization: string, termType: string, languageCode: string, count: nat)
    ensures var stem := serialization + " " + languageCode + " " + termType;
      var term := GenerateFakeTerm(serialization, termType, languageCode, count);
      && |stem| <= |term| && term[..|stem|] == stem
      && (count == 0 ==> term == stem)
      && (count != 0 ==> term[|stem|..] == " " + DecimalDigits(count))
  {
    var stem := serialization + " " + languageCode + " " + termType;
    if count == 0 {
      assert stem + "" == stem;
    }
  }

  /** Different counts give different fake terms for the same entity,
      language and term type: the two aliases of a language differ from each
      other and from the label. */
  lemma GeneratedTermsDistinct(serialization: string, termType: string, languageCode: string, m: nat, n: nat)
    requires m != n
    ensures GenerateFakeTerm(serialization, termType, languageCode, m)
         != GenerateFakeTerm(serialization, termType, languageCode, n)
  {
    var stem := serialization + " " + languageCode + " " + termType;
    var tm, tn := GenerateFakeTerm(serialization, termType, languageCode, m),
                  GenerateFakeTerm(serialization, termType, languageCode, n);
    GenerateFakeTermFormat(serialization, termType, languageCode, m);
    GenerateFakeTermFormat(serialization, termType, languageCode, n);
    if m != 0 && n != 0 {
      if tm == tn {
        assert (" " + DecimalDigits(m))[1..] == DecimalDigits(m);
        assert (" " + DecimalDigits(n))[1..] == DecimalDigits(n);
        DecimalDigitsInjective(m, n);
      }
    } else {
      assert |tm| != |tn|;
    }
  }

  /** What prefetching buffers at one slot: the generated term, or for
      aliases the list of the two generated aliases. */
  function BufferedEntry(serialization: string, termType: string, languageCode: string): (v: Value)
    ensures v != Null && v != Arr([])
  {
    if termType != ALIAS then Str(GenerateFakeTerm(serialization, termType, languageCode, 0))
    else
      Arr(ListOf([
        Str(GenerateFakeTerm(serialization, termType, languageCode, 1)),
        Str(GenerateFakeTerm(serialization, termType, languageCode, 2))]))
  }

  /** A buffered term is "<serialization> <language> <type>"; the aliases of
      a language are that string followed by " 1" and by " 2", in a list. */
  lemma BufferedEntryFormat(serialization: string, termType: string, languageCode: string)
    ensures var stem := serialization + " " + languageCode + " " + termType;
      && (termType != ALIAS ==> BufferedEntry(serialization, termType, languageCode) == Str(stem))
      && (termType == ALIAS ==>
            BufferedEntry(serialization, termType, languageCode)
              == Arr([Entry(IntKey(0), Str(stem + " 1")), Entry(IntKey(1), Str(stem + " 2"))]))
  {
    var stem := serialization + " " + languageCode + " " + termType;
    if termType != ALIAS {
      assert GenerateFakeTerm(serialization, termType, languageCode, 0) == stem + "";
      assert stem + "" == stem;
    } else {
      assert DecimalDigits(1) == "1" && DecimalDigits(2) == "2";
      assert GenerateFakeTerm(serialization, termType, languageCode, 1) == stem + " 1";
      assert GenerateFakeTerm(serialization, termType, languageCode, 2) == stem + " 2";
    }
  }

  /** The buffer path `[$serialization][$termType][$languageCode]`. */
  function Slot(serialization: string, termType: string, languageCode: string): seq<Key> {
    [StrKey(serialization), StrKey(termType), StrKey(languageCode)]
  }

  function SerializationsOf(ids: seq<EntityId>): set<string> {
    if ids == [] then {} else SerializationsOf(ids[..|ids| - 1]) + {ids[|ids| - 1].Serialization()}
  }

  /** The buffer after prefetching term type `termType` of `id` in the
      given languages, in order. */
  function WithFakeTermsForType(b: seq<Entry>, serialization: string, termType: string, languageCodes: seq<string>): seq<Entry> {
    if languageCodes == [] then b
    else
      var lang := languageCodes[|languageCodes| - 1];
      SetPath(WithFakeTermsForType(b, serialization, termType, languageCodes[..|languageCodes| - 1]),
        Slot(serialization, termType, lang), BufferedEntry(serialization, termType, lang))
  }

  function WithFakeTermsForId(b: seq<Entry>, serialization: string, termTypes: seq<string>, languageCodes: seq<string>): seq<Entry> {
    if termTypes == [] then b
    else
      WithFakeTermsForType(WithFakeTermsForId(b, serialization, termTypes[..|termTypes| - 1], languageCodes),
        serialization, termTypes[|termTypes| - 1], languageCodes)
  }

  /** The buffer after bufferFakeTermsForEntities( $ids, $termTypes,
      $languageCodes ): ids outermost, languages innermost. */
  function WithFakeTerms(b: seq<Entry>, ids: seq<EntityId>, termTypes: seq<string>, languageCodes: seq<string>): seq<Entry> {
    if ids == [] then b
    else
      WithFakeTermsForId(WithFakeTerms(b, ids[..|ids| - 1], termTypes, languageCodes),
        ids[|ids| - 1].Serialization(), termTypes, languageCodes)
  }

  /** The slot `q` is one that prefetching the given ids, types and
      languages writes. */
  ghost predicate Prefetched(ids: seq<EntityId>, termTypes: seq<string>, languageCodes: seq<string>, q: seq<Key>) {
    && |q| == 3 && q[0].StrKey? && q[1].StrKey? && q[2].StrKey?
    && q[0].s in SerializationsOf(ids) && q[1].s in termTypes && q[2].s in languageCodes
  }

  lemma SlotEquality(q: seq<Key>, serialization: string, termType: string, languageCode: string)
    requires |q| == 3
    ensures q == Slot(serialization, termType, languageCode)
        <==> q[0] == StrKey(serialization) && q[1] == StrKey(termType) && q[2] == StrKey(languageCode)
  {
  }

  /** Writing one slot's entry changes what is found at that slot only. */
  lemma FindAfterSlotWrite(b: seq<Entry>, serialization: string, termType: string, languageCode: string, q: seq<Key>)
    requires |q| == 3
    ensures Find(Arr(SetPath(b, Slot(serialization, termType, languageCode), BufferedEntry(serialization, termType, languageCode))), q)
         == if q[0] == StrKey(serialization) && q[1] == StrKey(termType) && q[2] == StrKey(languageCode)
            then Some(BufferedEntry(q[0].s, q[1].s, q[2].s))
            else Find(Arr(b), q)
  {
    FindAfterSetPath(b, Slot(serialization, termType, languageCode), q, BufferedEntry(serialization, termType, languageCode));
    SlotEquality(q, serialization, termType, languageCode);
  }

  /** Two successive writes seen at one slot: the later one wins where it
      applies, the earlier one where only it applies. */
  lemma LaterWriteWins(after: Option<Value>, middle: Option<Value>, before: Option<Value>, written: Option<Value>,
                       atLast: bool, earlier: bool)
    requires after == (if atLast then written else middle)
    requires middle == (if earlier then written else before)
    ensures after == (if atLast || earlier then written else before)
  {
  }

  lemma {:induction false} FindAfterFillType(b: seq<Entry>, serialization: string, termType: string, languageCodes: seq<string>, q: seq<Key>)
    requires |q| == 3
    ensures Find(Arr(WithFakeTermsForType(b, serialization, termType, languageCodes)), q)
         == if q[0] == StrKey(serialization) && q[1] == StrKey(termType) && q[2].StrKey? && q[2].s in languageCodes
            then Some(BufferedEntry(q[0].s, q[1].s, q[2].s))
            else Find(Arr(b), q)
  {
    if languageCodes != [] {
      var n := |languageCodes|;
      var lang := languageCodes[n - 1];
      var prev := WithFakeTermsForType(b, serialization, termType, languageCodes[..n - 1]);
      assert WithFakeTermsForType(b, serialization, termType, languageCodes)
          == SetPath(prev, Slot(serialization, termType, lang), BufferedEntry(serialization, termType, lang));
      FindAfterFillType(b, serialization, termType, languageCodes[..n - 1], q);
      FindAfterSlotWrite(prev, serialization, termType, lang, q);
      var atLast := q[0] == StrKey(serialization) && q[1] == StrKey(termType) && q[2] == StrKey(lang);
      var earlier := q[0] == StrKey(serialization) && q[1] == StrKey(termType) && q[2].StrKey? && q[2].s in languageCodes[..n - 1];
      assert (q[2].StrKey? && q[2].s in languageCodes) <==> q[2] == StrKey(lang) || (q[2].StrKey? && q[2].s in languageCodes[..n - 1]) by {
        assert languageCodes == languageCodes[..n - 1] + [lang];
      }
      if q[0].StrKey? && q[1].StrKey? && q[2].StrKey? {
        LaterWriteWins(Find(Arr(WithFakeTermsForType(b, serialization, termType, languageCodes)), q), Find(Arr(prev), q),
          Find(Arr(b), q), Some(BufferedEntry(q[0].s, q[1].s, q[2].s)), atLast, earlier);
      }
    }
  }

  lemma {:induction false} FindAfterFillId(b: seq<Entry>, serialization: string, termTypes: seq<string>, languageCodes: seq<string>, q: seq<Key>)
    requires |q| == 3
    ensures Find(Arr(WithFakeTermsForId(b, serialization, termTypes, languageCodes)), q)
         == if q[0] == StrKey(serialization) && q[1].StrKey? && q[1].s in termTypes && q[2].StrKey? && q[2].s in languageCodes
            then Some(BufferedEntry(q[0].s, q[1].s, q[2].s))
            else Find(Arr(b), q)
  {
    if termTypes != [] {
      var n := |termTypes|;
      var t := termTypes[n - 1];
      var prev := WithFakeTermsForId(b, serialization, termTypes[..n - 1], languageCodes);
      assert WithFakeTermsForId(b, serialization, termTypes, languageCodes) == WithFakeTermsForType(prev, serialization, t, languageCodes);
      FindAfterFillId(b, serialization, termTypes[..n - 1], languageCodes, q);
      FindAfterFillType(prev, serialization, t, languageCodes, q);
      var inLang := q[2].StrKey? && q[2].s in languageCodes;
      var atLast := q[0] == StrKey(serialization) && q[1] == StrKey(t) && inLang;
      var earlier := q[0] == StrKey(serialization) && q[1].StrKey? && q[1].s in termTypes[..n - 1] && inLang;
      assert (q[1].StrKey? && q[1].s in termTypes) <==> q[1] == StrKey(t) || (q[1].StrKey? && q[1].s in termTypes[..n - 1]) by {
        assert termTypes == termTypes[..n - 1] + [t];
      }
      if q[0].StrKey? && q[1].StrKey? && q[2].StrKey? {
        LaterWriteWins(Find(Arr(WithFakeTermsForId(b, serialization, termTypes, languageCodes)), q), Find(Arr(prev), q),
          Find(Arr(b), q), Some(BufferedEntry(q[0].s, q[1].s, q[2].s)), atLast, earlier);
      }
    }
  }

  /** After prefetching, every prefetched slot holds its generated entry, and
      every other slot holds what it held before. */
  lemma {:induction false} FindAfterFill(b: seq<Entry>, ids: seq<EntityId>, termTypes: seq<string>, languageCodes: seq<string>, q: seq<Key>)
    requires |q| == 3
    ensures Find(Arr(WithFakeTerms(b, ids, termTypes, languageCodes)), q)
         == if Prefetched(ids, termTypes, languageCodes, q)
            then Some(BufferedEntry(q[0].s, q[1].s, q[2].s))
            else Find(Arr(b), q)
  {
    if ids != [] {
      var n := |ids|;
      var prev := WithFakeTerms(b, ids[..n - 1], termTypes, languageCodes);
      FindAfterFill(b, ids[..n - 1], termTypes, languageCodes, q);
      FindAfterFillId(prev, ids[n - 1].Serialization(), termTypes, languageCodes, q);
    }
  }

  lemma {:induction false} FillTypeUnchanged(b: seq<Entry>, serialization: string, termType: string, languageCodes: seq<string>)
    requires forall lang | lang in languageCodes ::
      Find(Arr(b), Slot(serialization, termType, lang)) == Some(BufferedEntry(serialization, termType, lang))
    ensures WithFakeTermsForType(b, serialization, termType, languageCodes) == b
  {
    if languageCodes != [] {
      var n := |languageCodes|;
      FillTypeUnchanged(b, serialization, termType, languageCodes[..n - 1]);
      var lang := languageCodes[n - 1];
      SetPathUnchanged(b, Slot(serialization, termType, lang), BufferedEntry(serialization, termType, lang));
    }
  }

  lemma {:induction false} FillIdUnchanged(b: seq<Entry>, serialization: string, termTypes: seq<string>, languageCodes: seq<string>)
    requires forall t, lang | t in termTypes && lang in languageCodes ::
      Find(Arr(b), Slot(serialization, t, lang)) == Some(BufferedEntry(serialization, t, lang))
    ensures WithFakeTermsForId(b, serialization, termTypes, languageCodes) == b
  {
    if termTypes != [] {
      var n := |termTypes|;
      FillIdUnchanged(b, serialization, termTypes[..n - 1], languageCodes);
      FillTypeUnchanged(b, serialization, termTypes[n - 1], languageCodes);
    }
  }

  lemma {:induction false} FillUnchanged(b: seq<Entry>, ids: seq<EntityId>, termTypes: seq<string>, languageCodes: seq<string>)
    requires forall id, t, lang | id in ids && t in termTypes && lang in languageCodes ::
      Find(Arr(b), Slot(id.Serialization(), t, lang)) == Some(BufferedEntry(id.Serialization(), t, lang))
    ensures WithFakeTerms(b, ids, termTypes, languageCodes) == b
  {
    if ids != [] {
      var n := |ids|;
      FillUnchanged(b, ids[..n - 1], termTypes, languageCodes);
      FillIdUnchanged(b, ids[n - 1].Serialization(), termTypes, languageCodes);
    }
  }

  lemma {:induction false} SerializationsOfHolds(ids: seq<EntityId>, id: EntityId)
    requires id in ids
    ensures id.Serialization() in SerializationsOf(ids)
  {
    var n := |ids|;
    if ids[n - 1] != id {
      assert id in ids[..n - 1];
      SerializationsOfHolds(ids[..n - 1], id);
    }
  }

  /** Only the given ids' serializations are in the set, since different
      ids have different serializations. */
  lemma {:induction false} SerializationsOfOnly(ids: seq<EntityId>, id: EntityId)
    requires id.Serialization() in SerializationsOf(ids)
    ensures id in ids
  {
    var n := |ids|;
    if id.Serialization() == ids[n - 1].Serialization() {
      SerializationInjective(id, ids[n - 1]);
    } else {
      SerializationsOfOnly(ids[..n - 1], id);
      assert ids[..n - 1] <= ids;
    }
  }

  /** Prefetching leaves every slot of an entity it was not asked for as it
      was: the buffer is keyed by serialization, and no other id shares it. */
  lemma FillLeavesOtherIds(b: seq<Entry>, ids: seq<EntityId>, termTypes: seq<string>, languageCodes: seq<string>,
                           id: EntityId, termType: string, languageCode: string)
    ensures id !in ids ==>
      Find(Arr(WithFakeTerms(b, ids, termTypes, languageCodes)), Slot(id.Serialization(), termType, languageCode))
        == Find(Arr(b), Slot(id.Serialization(), termType, languageCode))
  {
    FindAfterFill(b, ids, termTypes, languageCodes, Slot(id.Serialization(), termType, languageCode));
    if id.Serialization() in SerializationsOf(ids) {
      SerializationsOfOnly(ids, id);
    }
  }

  /** Prefetching the same ids, types and languages a second time changes
      nothing, not even the order of the buffer's entries. */
  lemma FillIdempotent(b: seq<Entry>, ids: seq<EntityId>, termTypes: seq<string>, languageCodes: seq<string>)
    ensures WithFakeTerms(WithFakeTerms(b, ids, termTypes, languageCodes), ids, termTypes, languageCodes)
         == WithFakeTerms(b, ids, termTypes, languageCodes)
  {
    var once := WithFakeTerms(b, ids, termTypes, languageCodes);
    forall id, t, lang | id in ids && t in termTypes && lang in languageCodes
      ensures Find(Arr(once), Slot(id.Serialization(), t, lang)) == Some(BufferedEntry(id.Serialization(), t, lang))
    {
      SerializationsOfHolds(ids, id);
      FindAfterFill(b, ids, termTypes, languageCodes, Slot(id.Serialization(), t, lang));
    }
    FillUnchanged(once, ids, termTypes, languageCodes);
  }

  /** Every value in the buffer, in iteration order: one element per
      (id, term type, language) slot; an alias list is one element. */
  function BufferedTerms(b: seq<Entry>): seq<Value> {
    if b == [] then [] else BufferedTerms(b[..|b| - 1]) + TermsOfEntity(EntriesOf(b[|b| - 1].value))
  }

  function TermsOfEntity(entityTerms: seq<Entry>): seq<Value> {
    if entityTerms == [] then []
    else TermsOfEntity(entityTerms[..|entityTerms| - 1]) + Values(EntriesOf(entityTerms[|entityTerms| - 1].value))
  }

  lemma ValuesSnoc(a: seq<Entry>, k: nat)
    requires k < |a|
    ensures Values(a[..k + 1]) == Values(a[..k]) + [a[k].value]
  {
  }

  lemma TermsOfEntitySnoc(entityTerms: seq<Entry>, j: nat)
    requires j < |entityTerms|
    ensures TermsOfEntity(entityTerms[..j + 1]) == TermsOfEntity(entityTerms[..j]) + Values(EntriesOf(entityTerms[j].value))
  {
    assert entityTerms[..j + 1][..j] == entityTerms[..j];
  }

  lemma BufferedTermsSnoc(b: seq<Entry>, i: nat)
    requires i < |b|
    ensures BufferedTerms(b[..i + 1]) == BufferedTerms(b[..i]) + TermsOfEntity(EntriesOf(b[i].value))
  {
    assert b[..i + 1][..i] == b[..i];
  }

  lemma {:induction false} TermsOfEntityHolds(entityTerms: seq<Entry>, e: Entry, x: Entry)
    requires e in entityTerms && x in EntriesOf(e.value)
    ensures x.value in TermsOfEntity(entityTerms)
  {
    var n := |entityTerms|;
    if entityTerms[n - 1] == e {
      var i :| 0 <= i < |EntriesOf(e.value)| && EntriesOf(e.value)[i] == x;
      assert Values(EntriesOf(e.value))[i] == x.value;
    } else {
      assert e in entityTerms[..n - 1];
      TermsOfEntityHolds(entityTerms[..n - 1], e, x);
    }
  }

  lemma {:induction false} BufferedTermsHolds(b: seq<Entry>, e: Entry, t: Entry, x: Entry)
    requires e in b && t in EntriesOf(e.value) && x in EntriesOf(t.value)
    ensures x.value in BufferedTerms(b)
  {
    var n := |b|;
    var prev := b[..n - 1];
    assert BufferedTerms(b) == BufferedTerms(prev) + TermsOfEntity(EntriesOf(b[n - 1].value));
    if b[n - 1] == e {
      TermsOfEntityHolds(EntriesOf(e.value), t, x);
    } else {
      assert b == prev + [b[n - 1]];
      assert e in prev;
      BufferedTermsHolds(prev, e, t, x);
    }
  }

  /** Every entry at every level has a key of its own, as in any array PHP
      builds. */
  ghost predicate NestedDistinctKeys(b: seq<Entry>) {
    DistinctKeys(b) &&
    forall e | e in b :: DistinctKeys(EntriesOf(e.value)) &&
      forall t | t in EntriesOf(e.value) :: DistinctKeys(EntriesOf(t.value))
  }

  lemma {:induction false} TermsOfEntitySource(entityTerms: seq<Entry>, v: Value) returns (t: Entry, x: Entry)
    requires v in TermsOfEntity(entityTerms)
    ensures t in entityTerms && x in EntriesOf(t.value) && x.value == v
  {
    var n := |entityTerms|;
    var prev := entityTerms[..n - 1];
    var last := Values(EntriesOf(entityTerms[n - 1].value));
    assert TermsOfEntity(entityTerms) == TermsOfEntity(prev) + last;
    if v in last {
      t := entityTerms[n - 1];
      var i :| 0 <= i < |last| && last[i] == v;
      x := EntriesOf(t.value)[i];
    } else {
      t, x := TermsOfEntitySource(prev, v);
      assert t in entityTerms;
    }
  }

  lemma {:induction false} BufferedTermsSource(b: seq<Entry>, v: Value) returns (e: Entry, t: Entry, x: Entry)
    requires v in BufferedTerms(b)
    ensures e in b && t in EntriesOf(e.value) && x in EntriesOf(t.value) && x.value == v
  {
    var n := |b|;
    var prev := b[..n - 1];
    assert BufferedTerms(b) == BufferedTerms(prev) + TermsOfEntity(EntriesOf(b[n - 1].value));
    if v in TermsOfEntity(EntriesOf(b[n - 1].value)) {
      e := b[n - 1];
      t, x := TermsOfEntitySource(EntriesOf(e.value), v);
    } else {
      e, t, x := BufferedTermsSource(prev, v);
      assert e in b;
    }
  }

  /** The three-key path down to an entry of an entry of an entry. */
  lemma FindThreeLevels(b: seq<Entry>, e: Entry, t: Entry, x: Entry)
    requires Get(b, e.key) == Some(e.value) && t in EntriesOf(e.value) && x in EntriesOf(t.value)
    requires Get(EntriesOf(e.value), t.key) == Some(t.value) && Get(EntriesOf(t.value), x.key) == Some(x.value)
    ensures Find(Arr(b), [e.key, t.key, x.key]) == Some(x.value)
  {
    assert e.value.Arr? && t.value.Arr?;
    assert Find(t.value, [x.key]) == Some(x.value);
    assert [t.key, x.key][1..] == [x.key];
    assert Find(e.value, [t.key, x.key]) == Some(x.value);
    assert [e.key, t.key, x.key][1..] == [t.key, x.key];
  }

  /** Every listed term is what a lookup finds at some slot, so the list
      holds the buffer's leaf entries and nothing else. */
  lemma ListedTermsFound(b: seq<Entry>, v: Value)
    requires NestedDistinctKeys(b) && v in BufferedTerms(b)
    ensures exists q: seq<Key> | |q| == 3 :: Find(Arr(b), q) == Some(v)
  {
    var e, t, x := BufferedTermsSource(b, v);
    GetDistinct(b, e);
    GetDistinct(EntriesOf(e.value), t);
    GetDistinct(EntriesOf(t.value), x);
    FindThreeLevels(b, e, t, x);
    var q := [e.key, t.key, x.key];
    assert |q| == 3 && Find(Arr(b), q) == Some(v);
  }

  /** Whatever a lookup finds at a slot is among the buffered terms. */
  lemma FoundTermsListed(b: seq<Entry>, q: seq<Key>)
    requires |q| == 3 && Find(Arr(b), q).Some?
    ensures Find(Arr(b), q).value in BufferedTerms(b)
  {
    var byType := Get(b, q[0]).value;
    assert Find(byType, q[1..]).Some?;
    var byLang := Get(byType.entries, q[1]).value;
    assert q[1..][1..] == [q[2]];
    assert Find(byLang, [q[2]]).Some?;
    var v := Get(byLang.entries, q[2]).value;
    BufferedTermsHolds(b, Entry(q[0], byType), Entry(q[1], byLang), Entry(q[2], v));
  }

  class FakePrefetchingTermLookup {
    /** `$buffer`: serialization => term type => language => term. The
        field starts out unset, which reads like an empty array. */
    var buffer: seq<Entry>

    /** The buffer only holds generated entries, each at its own slot. */
    ghost predicate Valid()
      reads this
    {
      forall q: seq<Key> | |q| == 3 && Find(Arr(buffer), q).Some? ::
        q[0].StrKey? && q[1].StrKey? && q[2].StrKey? && Find(Arr(buffer), q).value == BufferedEntry(q[0].s, q[1].s, q[2].s)
    }

    constructor ()
      ensures Valid() && buffer == []
    {
      buffer := [];
    }

    /** Buffers the generated terms of every id, term type and language.
        Null term types or language codes are rejected. */
    method PrefetchTerms(entityIds: seq<EntityId>, termTypes: Option<seq<string>>, languageCodes: Option<seq<string>>)
      returns (r: Result<()>)
      requires Valid()
      modifies this
      ensures Valid()
      ensures r.InvalidArgument? <==> termTypes.None? || languageCodes.None?
      ensures r.Ok? <==> termTypes.Some? && languageCodes.Some?
      ensures r.InvalidArgument? ==> buffer == old(buffer)
      ensures r.Ok? ==> buffer == WithFakeTerms(old(buffer), entityIds, termTypes.value, languageCodes.value)
      ensures r.Ok? ==> forall q: seq<Key> | |q| == 3 && !Prefetched(entityIds, termTypes.value, languageCodes.value, q) ::
        Find(Arr(buffer), q) == Find(Arr(old(buffer)), q)
      ensures r.Ok? ==> forall id, t, lang | id in entityIds && t in termTypes.value && lang in languageCodes.value ::
        GetPrefetchedTerm(id, t, lang) == BufferedEntry(id.Serialization(), t, lang)
    {
      if termTypes.None? || languageCodes.None? {
        return InvalidArgument("$termTypes and $languageCodes can not be null");
      }
      // The defaults of the source ('label' and 'description'; 'de' and
      // 'en') sit behind the null test above and are never used.
      var types := termTypes.value;
      var langs := languageCodes.value;
      ghost var before := buffer;
      BufferFakeTermsForEntities(entityIds, types, langs);
      forall q: seq<Key> | |q| == 3 ensures Find(Arr(buffer), q)
        == if Prefetched(entityIds, types, langs, q) then Some(BufferedEntry(q[0].s, q[1].s, q[2].s)) else Find(Arr(before), q)
      {
        FindAfterFill(before, entityIds, types, langs, q);
      }
      forall id, t, lang | id in entityIds && t in types && lang in langs
        ensures GetPrefetchedTerm(id, t, lang) == BufferedEntry(id.Serialization(), t, lang)
      {
        SerializationsOfHolds(entityIds, id);
        assert Prefetched(entityIds, types, langs, Slot(id.Serialization(), t, lang));
      }
      r := Ok(());
    }

    method BufferFakeTermsForEntities(entityIds: seq<EntityId>, termTypes: seq<string>, languageCodes: seq<string>)
      modifies this
      ensures buffer == WithFakeTerms(old(buffer), entityIds, termTypes, languageCodes)
    {
      ghost var b0 := buffer;
      for i := 0 to |entityIds|
        invariant buffer == WithFakeTerms(b0, entityIds[..i], termTypes, languageCodes)
      {
        assert entityIds[..i + 1][..i] == entityIds[..i];
        BufferFakeTermsForId(entityIds[i], termTypes, languageCodes);
      }
      assert entityIds[..|entityIds|] == entityIds;
    }

    /** The middle loop of bufferFakeTermsForEntities: one entity, term type
        by term type. */
    method BufferFakeTermsForId(id: EntityId, termTypes: seq<string>, languageCodes: seq<string>)
      modifies this
      ensures buffer == WithFakeTermsForId(old(buffer), id.Serialization(), termTypes, languageCodes)
    {
      ghost var b1 := buffer;
      for j := 0 to |termTypes|
        invariant buffer == WithFakeTermsForId(b1, id.Serialization(), termTypes[..j], languageCodes)
      {
        assert termTypes[..j + 1][..j] == termTypes[..j];
        BufferFakeTermsForType(id, termTypes[j], languageCodes);
      }
      assert termTypes[..|termTypes|] == termTypes;
    }

    /** The inner loop of bufferFakeTermsForEntities: one entity and term
        type, language by language. */
    method BufferFakeTermsForType(id: EntityId, termType: string, languageCodes: seq<string>)
      modifies this
      ensures buffer == WithFakeTermsForType(old(buffer), id.Serialization(), termType, languageCodes)
    {
      ghost var b2 := buffer;
      for k := 0 to |languageCodes|
        invariant buffer == WithFakeTermsForType(b2, id.Serialization(), termType, languageCodes[..k])
      {
        var lang := languageCodes[k];
        assert languageCodes[..k + 1][..k] == languageCodes[..k];
        if termType != ALIAS {
          BufferNonAliasTerm(id, termType, lang);
        } else {
          BufferAliasTerms(id, termType, lang);
        }
      }
      assert languageCodes[..|languageCodes|] == languageCodes;
    }

    method BufferNonAliasTerm(id: EntityId, termType: string, lang: string)
      requires termType != ALIAS
      modifies this
      ensures buffer == SetPath(old(buffer), Slot(id.Serialization(), termType, lang), BufferedEntry(id.Serialization(), termType, lang))
    {
      var term := GenerateFakeTerm(id.Serialization(), termType, lang, 0);
      buffer := SetPath(buffer, Slot(id.Serialization(), termType, lang), Str(term));
    }

    /** Resets the slot to an empty list, then appends the two aliases. */
    method BufferAliasTerms(id: EntityId, termType: string, lang: string)
      requires termType == ALIAS
      modifies this
      ensures buffer == SetPath(old(buffer), Slot(id.Serialization(), termType, lang), BufferedEntry(id.Serialization(), termType, lang))
    {
      var slot := Slot(id.Serialization(), termType, lang);
      var alias1 := Str(GenerateFakeTerm(id.Serialization(), termType, lang, 1));
      var alias2 := Str(GenerateFakeTerm(id.Serialization(), termType, lang, 2));
      ghost var b0 := buffer;
      buffer := SetPath(buffer, slot, Arr([]));
      LookupAfterSetPath(b0, slot, Arr([]));
      var first := Append(EntriesOf(Lookup(Arr(buffer), slot)), alias1);
      buffer := SetPath(buffer, slot, Arr(first));
      SetPathTwice(b0, slot, Arr([]), Arr(first));
      LookupAfterSetPath(b0, slot, Arr(first));
      var second := Append(EntriesOf(Lookup(Arr(buffer), slot)), alias2);
      buffer := SetPath(buffer, slot, Arr(second));
      SetPathTwice(b0, slot, Arr(first), Arr(second));
      TwoAppends(alias1, alias2);
    }

    /** Every buffered value, in the buffer's order; an alias list counts as
        one value. */
    method GetPrefetchedTerms() returns (terms: seq<Value>)
      ensures terms == BufferedTerms(buffer)
    {
      terms := [];
      for i := 0 to |buffer|
        invariant terms == BufferedTerms(buffer[..i])
      {
        var entityTerms := CollectEntityTerms(EntriesOf(buffer[i].value));
        terms := terms + entityTerms;
        BufferedTermsSnoc(buffer, i);
      }
      assert buffer[..|buffer|] == buffer;
    }

    /** The two inner loops of getPrefetchedTerms: the terms of one entity,
        term type by term type, language by language. */
    static method CollectEntityTerms(entityTerms: seq<Entry>) returns (terms: seq<Value>)
      ensures terms == TermsOfEntity(entityTerms)
    {
      terms := [];
      for j := 0 to |entityTerms|
        invariant terms == TermsOfEntity(entityTerms[..j])
      {
        var termsByLang := EntriesOf(entityTerms[j].value);
        ghost var beforeType := terms;
        for k := 0 to |termsByLang|
          invariant terms == beforeType + Values(termsByLang[..k])
        {
          ValuesSnoc(termsByLang, k);
          terms := terms + [termsByLang[k].value];
        }
        assert termsByLang[..|termsByLang|] == termsByLang;
        TermsOfEntitySnoc(entityTerms, j);
      }
      assert entityTerms[..|entityTerms|] == entityTerms;
    }

    /** The buffered entry at the slot, or null when nothing was prefetched
        there. */
    function GetPrefetchedTerm(entityId: EntityId, termType: string, languageCode: string): (r: Value)
      reads this
      ensures Valid() ==> (r == Null <==> Find(Arr(buffer), Slot(entityId.Serialization(), termType, languageCode)).None?)
      ensures Valid() && r != Null ==> r == BufferedEntry(entityId.Serialization(), termType, languageCode)
    {
      Lookup(Arr(buffer), Slot(entityId.Serialization(), termType, languageCode))
    }

    function GetLabel(entityId: EntityId, languageCode: string): (r: Value)
      ensures r == BufferedEntry(entityId.Serialization(), LABEL, languageCode)
    {
      Str(GenerateFakeTerm(entityId.Serialization(), LABEL, languageCode, 0))
    }

    function GetDescription(entityId: EntityId, languageCode: string): (r: Value)
      ensures r == BufferedEntry(entityId.Serialization(), DESCRIPTION, languageCode)
    {
      Str(GenerateFakeTerm(entityId.Serialization(), DESCRIPTION, languageCode, 0))
    }

    method GetLabels(entityId: EntityId, languageCodes: seq<string>) returns (labels: seq<Entry>)
      ensures DistinctKeys(labels)
      ensures forall k | k in KeySet(labels) :: k.StrKey? && k.s in languageCodes
      ensures forall lang | lang in languageCodes :: Get(labels, StrKey(lang)) == Some(GetLabel(entityId, lang))
    {
      labels := FakeTermsByLanguage(entityId, LABEL, languageCodes);
    }

    method GetDescriptions(entityId: EntityId, languageCodes: seq<string>) returns (descriptions: seq<Entry>)
      ensures DistinctKeys(descriptions)
      ensures forall k | k in KeySet(descriptions) :: k.StrKey? && k.s in languageCodes
      ensures forall lang | lang in languageCodes :: Get(descriptions, StrKey(lang)) == Some(GetDescription(entityId, lang))
    {
      descriptions := FakeTermsByLanguage(entityId, DESCRIPTION, languageCodes);
    }

    /** The loop shared by getLabels and getDescriptions: `$terms[$lang] =`
        the generated term, for each language in order. */
    method FakeTermsByLanguage(entityId: EntityId, termType: string, languageCodes: seq<string>) returns (terms: seq<Entry>)
      ensures DistinctKeys(terms)
      ensures forall k | k in KeySet(terms) :: k.StrKey? && k.s in languageCodes
      ensures forall lang | lang in languageCodes ::
        Get(terms, StrKey(lang)) == Some(Str(GenerateFakeTerm(entityId.Serialization(), termType, lang, 0)))
    {
      terms := [];
      for i := 0 to |languageCodes|
        invariant DistinctKeys(terms)
        invariant forall k | k in KeySet(terms) :: k.StrKey? && k.s in languageCodes[..i]
        invariant forall lang | lang in languageCodes[..i] ::
          Get(terms, StrKey(lang)) == Some(Str(GenerateFakeTerm(entityId.Serialization(), termType, lang, 0)))
      {
        var lang := languageCodes[i];
        SetDistinct(terms, StrKey(lang), Str(GenerateFakeTerm(entityId.Serialization(), termType, lang, 0)));
        SetShape(terms, StrKey(lang), Str(GenerateFakeTerm(entityId.Serialization(), termType, lang, 0)));
        terms := Set(terms, StrKey(lang), Str(GenerateFakeTerm(entityId.Serialization(), termType, lang, 0)));
        assert languageCodes[..i + 1] == languageCodes[..i] + [lang];
      }
      assert languageCodes[..|languageCodes|] == languageCodes;
    }

    /** The aliases buffered for the id and language, or an empty list when
        none were prefetched. */
    function GetPrefetchedAliases(entityId: EntityId, languageCode: string): (r: Value)
      reads this
      ensures Valid() ==> (r == Arr([]) <==> Find(Arr(buffer), Slot(entityId.Serialization(), ALIAS, languageCode)).None?)
      ensures Valid() && r != Arr([]) ==> r == BufferedEntry(entityId.Serialization(), ALIAS, languageCode)
    {
      match Find(Arr(buffer), Slot(entityId.Serialization(), ALIAS, languageCode))
      case Some(aliases) => aliases
      case None => Arr([])
    }
  }
}
