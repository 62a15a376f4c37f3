/** StatementTransclusionInteractor: renders the main snaks an entity has
    for one property, as wikitext, and records that the page uses the
    entity.

    The entity lookup, the property id resolver, the snaks finder, the snak
    formatter and the language's comma list are collaborators this model
    does not look into; they are fixed functions of their arguments. */
module StatementTransclusion {
  import opened Common

  /** The main snak of a statement: a value, "some value" or "no value"
      for a property. Formatting is left to the formatter. */
  datatype Snak =
    | PropertyValueSnak(propertyId: EntityId, value: string)
    | PropertySomeValueSnak(propertyId: EntityId)
    | PropertyNoValueSnak(propertyId: EntityId)

  /** An entity as far as rendering cares: whether it can hold statements
      (implements StatementListProvider). */
  datatype Entity = Entity(id: EntityId, isStatementListProvider: bool)

  /** What EntityLookup::getEntity does: return an entity, return null, or
      throw for a redirect it could not resolve. */
  datatype LookupOutcome = Found(entity: Entity) | NotFound | UnresolvedRedirect

  /** What PropertyIdResolver::resolvePropertyId does: return an id, or
      throw PropertyLabelNotResolvedException. */
  datatype Resolution = Resolved(propertyId: EntityId) | LabelNotResolved

  /** The wikitext, or the PropertyLabelNotResolvedException that render
      lets through. */
  datatype RenderOutcome = Rendered(wikitext: string) | PropertyLabelNotResolved(labelOrId: string, languageCode: string)

  const FORMAT_PLAIN := "text/plain"

  /** The entity render continues with; an unresolved redirect counts as no
      entity. */
  function EntityOrNull(outcome: LookupOutcome): (r: Option<Entity>)
    ensures r.Some? <==> outcome.Found?
    ensures outcome.Found? ==> r == Some(outcome.entity)
  {
    match outcome
    case Found(entity) => Some(entity)
    case NotFound => None
    case UnresolvedRedirect => None
  }

  class UsageAccumulator {
    /** The entities added with addOtherUsage, in order. */
    var otherUsages: seq<EntityId>

    constructor ()
      ensures otherUsages == []
    {
      otherUsages := [];
    }

    method AddOtherUsage(entityId: EntityId)
      modifies this
      ensures otherUsages == old(otherUsages) + [entityId]
    {
      otherUsages := otherUsages + [entityId];
    }
  }

  class StatementTransclusionInteractor {
    /** Language::getCode */
    const languageCode: string
    /** Language::commaList */
    const commaList: seq<string> -> string
    const resolvePropertyId: (string, string) -> Resolution
    const findSnaks: (Entity, EntityId, Option<seq<int>>) -> seq<Snak>
    /** SnakFormatter::formatSnak and SnakFormatter::getFormat */
    const formatSnak: Snak -> string
    const snakFormat: string
    const getEntity: EntityId -> LookupOutcome
    const usageAccumulator: UsageAccumulator

    constructor (languageCode: string, commaList: seq<string> -> string, resolvePropertyId: (string, string) -> Resolution,
      findSnaks: (Entity, EntityId, Option<seq<int>>) -> seq<Snak>, formatSnak: Snak -> string, snakFormat: string,
      getEntity: EntityId -> LookupOutcome, usageAccumulator: UsageAccumulator)
      ensures this.languageCode == languageCode && this.commaList == commaList
      ensures this.resolvePropertyId == resolvePropertyId && this.findSnaks == findSnaks
      ensures this.formatSnak == formatSnak && this.snakFormat == snakFormat
      ensures this.getEntity == getEntity && this.usageAccumulator == usageAccumulator
    {
      this.languageCode := languageCode;
      this.commaList := commaList;
      this.resolvePropertyId := resolvePropertyId;
      this.findSnaks := findSnaks;
      this.formatSnak := formatSnak;
      this.snakFormat := snakFormat;
      this.getEntity := getEntity;
      this.usageAccumulator := usageAccumulator;
    }

    /** Renders the main snaks of `entityId` for the property. Usage is
        recorded unless the entity exists and cannot hold statements, and it
        is recorded before the property is resolved. */
    method Render(entityId: EntityId, propertyLabelOrId: string, acceptableRanks: Option<seq<int>>) returns (r: RenderOutcome)
      modifies usageAccumulator
      ensures var entity := EntityOrNull(getEntity(entityId));
        entity.Some? && !entity.value.isStatementListProvider ==>
          r == Rendered("") && usageAccumulator.otherUsages == old(usageAccumulator.otherUsages)
      ensures var entity := EntityOrNull(getEntity(entityId));
        !(entity.Some? && !entity.value.isStatementListProvider) ==>
          usageAccumulator.otherUsages == old(usageAccumulator.otherUsages) + [entityId]
      ensures EntityOrNull(getEntity(entityId)).None? ==> r == Rendered("")
      ensures var entity := EntityOrNull(getEntity(entityId));
        entity.Some? && entity.value.isStatementListProvider ==>
          r == match resolvePropertyId(propertyLabelOrId, languageCode)
               case LabelNotResolved => PropertyLabelNotResolved(propertyLabelOrId, languageCode)
               case Resolved(propertyId) => Rendered(FormattedSnaks(findSnaks(entity.value, propertyId, acceptableRanks)))
    {
      var entity := EntityOrNull(getEntity(entityId));
      if entity.Some? && !entity.value.isStatementListProvider {
        return Rendered("");
      }
      usageAccumulator.AddOtherUsage(entityId);
      if entity.None? {
        return Rendered("");
      }
      var resolution := resolvePropertyId(propertyLabelOrId, languageCode);
      if resolution.LabelNotResolved? {
        return PropertyLabelNotResolved(propertyLabelOrId, languageCode);
      }
      var snaks := findSnaks(entity.value, resolution.propertyId, acceptableRanks);
      var wikitext := FormatSnaks(snaks);
      r := Rendered(wikitext);
    }

    /** The formatted values of the snaks, in order, without the empty
        ones. */
    function NonEmptyFormattedValues(snaks: seq<Snak>): (r: seq<string>)
      ensures forall v | v in r :: v != ""
      ensures |r| <= |snaks|
    {
      if snaks == [] then []
      else
        var prev := NonEmptyFormattedValues(snaks[..|snaks| - 1]);
        var formattedValue := formatSnak(snaks[|snaks| - 1]);
        if formattedValue != "" then prev + [formattedValue] else prev
    }

    /** The result of formatSnaks: the comma list of the non-empty formatted
        values, wrapped in a span unless it is empty or the format is plain
        text. */
    function FormattedSnaks(snaks: seq<Snak>): (r: string)
      ensures var list := commaList(NonEmptyFormattedValues(snaks));
        && (r == "" <==> list == "")
        && (snakFormat == FORMAT_PLAIN ==> r == list)
        && (snakFormat != FORMAT_PLAIN && list != "" ==> r == "<span>" + list + "</span>")
    {
      var list := commaList(NonEmptyFormattedValues(snaks));
      if list == "" || snakFormat == FORMAT_PLAIN then list else "<span>" + list + "</span>"
    }

    method FormatSnaks(snaks: seq<Snak>) returns (r: string)
      ensures r == FormattedSnaks(snaks)
      ensures commaList(NonEmptyFormattedValues(snaks)) == "" ==> r == ""
      ensures snakFormat == FORMAT_PLAIN ==> r == commaList(NonEmptyFormattedValues(snaks))
      ensures snakFormat != FORMAT_PLAIN && commaList(NonEmptyFormattedValues(snaks)) != "" ==>
        r == "<span>" + commaList(NonEmptyFormattedValues(snaks)) + "</span>"
    {
      var formattedValues := [];
      for i := 0 to |snaks|
        invariant formattedValues == NonEmptyFormattedValues(snaks[..i])
      {
        assert snaks[..i + 1][..i] == snaks[..i];
        var formattedValue := formatSnak(snaks[i]);
        if formattedValue != "" {
          formattedValues := formattedValues + [formattedValue];
        }
      }
      assert snaks[..|snaks|] == snaks;
      var list := commaList(formattedValues);
      if list == "" || snakFormat == FORMAT_PLAIN {
        return list;
      }
      r := "<span>" + list + "</span>";
    }

    /** Formatting a longer list of snaks extends the values of the shorter
        one: the filter works snak by snak. */
    lemma {:induction false} NonEmptyFormattedValuesConcat(a: seq<Snak>, b: seq<Snak>)
      ensures NonEmptyFormattedValues(a + b) == NonEmptyFormattedValues(a) + NonEmptyFormattedValues(b)
      decreases |b|
    {
      if b != [] {
        var n := |b|;
        assert (a + b)[..|a + b| - 1] == a + b[..n - 1];
        assert (a + b)[|a + b| - 1] == b[n - 1];
        NonEmptyFormattedValuesConcat(a, b[..n - 1]);
      } else {
        assert a + b == a;
      }
    }

    /** A value is kept exactly when some snak formats to it and it is not
        empty. */
    lemma {:induction false} NonEmptyFormattedValuesMembership(snaks: seq<Snak>, v: string)
      ensures v in NonEmptyFormattedValues(snaks) <==> v != "" && exists i | 0 <= i < |snaks| :: formatSnak(snaks[i]) == v
    {
      if snaks != [] {
        var n := |snaks|;
        NonEmptyFormattedValuesMembership(snaks[..n - 1], v);
        assert forall i | 0 <= i < n - 1 :: snaks[..n - 1][i] == snaks[i];
        if v != "" && formatSnak(snaks[n - 1]) != v && exists i | 0 <= i < n :: formatSnak(snaks[i]) == v {
          var i :| 0 <= i < n && formatSnak(snaks[i]) == v;
          assert formatSnak(snaks[..n - 1][i]) == v;
        }
      }
    }

    /** When no snak formats to the empty string, nothing is dropped: one
        value per snak, in snak order. */
    lemma {:induction false} NothingDropped(snaks: seq<Snak>)
      requires forall i | 0 <= i < |snaks| :: formatSnak(snaks[i]) != ""
      ensures |NonEmptyFormattedValues(snaks)| == |snaks|
      ensures forall i | 0 <= i < |snaks| :: NonEmptyFormattedValues(snaks)[i] == formatSnak(snaks[i])
    {
      if snaks != [] {
        var n := |snaks|;
        assert forall i | 0 <= i < n - 1 :: snaks[..n - 1][i] == snaks[i];
        NothingDropped(snaks[..n - 1]);
      }
    }
  }
}
