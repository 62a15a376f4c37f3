/** Values shared by every component: optional values, the invalid-argument
    failure that several lookups raise, and entity identifiers. */
module Common {

  datatype Option<+T> = None | Some(value: T) {
    function GetOr(default: T): T {
      match this
      case Some(v) => v
      case None => default
    }
  }

  /** The outcome of an operation that can throw an InvalidArgumentException,
      or let through an exception thrown by a collaborator (Failure). */
  datatype Result<+T> = Ok(value: T) | InvalidArgument(message: string) | Failure(message: string)

  /** The kind of an entity; only items and properties occur in this model. */
  datatype EntityKind = Item | Property

  /** An entity identifier: a kind and a numeric component. */
  datatype EntityId = EntityId(kind: EntityKind, numericId: nat) {

    /** `$entityId instanceof ItemId` */
    predicate IsItemId() {
      kind == Item
    }

    /** The serialization, e.g. "Q42" for an item and "P31" for a property. */
    function Serialization(): (s: string)
      ensures |s| >= 2
      ensures s[0] == (if kind == Item then 'Q' else 'P')
      ensures s[1..] == DecimalDigits(numericId)
    {
      [if kind == Item then 'Q' else 'P'] + DecimalDigits(numericId)
    }
  }

  function DigitChar(d: nat): (c: char)
    requires d < 10
    ensures '0' <= c <= '9'
  {
    ('0' as int + d) as char
  }

  /** The decimal representation of a natural number, as PHP's string
      conversion of an int produces it. */
  function DecimalDigits(n: nat): (s: string)
    ensures |s| >= 1
    ensures forall i | 0 <= i < |s| :: '0' <= s[i] <= '9'
    ensures n >= 10 ==> s[0] != '0'
    decreases n
  {
    if n < 10 then [DigitChar(n)] else DecimalDigits(n / 10) + [DigitChar(n % 10)]
  }

  /** Different numbers have different decimal representations. */
  lemma {:induction false} DecimalDigitsInjective(m: nat, n: nat)
    requires DecimalDigits(m) == DecimalDigits(n)
    ensures m == n
    decreases m
  {
    if m < 10 && n < 10 {
    } else if m >= 10 && n >= 10 {
      var sm, sn := DecimalDigits(m), DecimalDigits(n);
      assert sm[..|sm| - 1] == DecimalDigits(m / 10);
      assert sn[..|sn| - 1] == DecimalDigits(n / 10);
      assert sm[|sm| - 1] == DigitChar(m % 10);
      assert sn[|sn| - 1] == DigitChar(n % 10);
      DecimalDigitsInjective(m / 10, n / 10);
    }
  }

  /** Two entity ids with the same serialization are the same id. */
  lemma SerializationInjective(a: EntityId, b: EntityId)
    requires a.Serialization() == b.Serialization()
    ensures a == b
  {
    assert a.kind == b.kind by {
      assert a.Serialization()[0] == b.Serialization()[0];
    }
    DecimalDigitsInjective(a.numericId, b.numericId);
  }
}
