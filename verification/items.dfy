/**
 * The item record, the schema that validates it, and the process-wide list
 * that holds the created items. Both handlers declare the same schema
 * (a version-4 UUID and a message of 10 to 255 characters); `ValidItem` is
 * that schema, used by the create path and re-applied by the list path.
 */
module Items {

  /** An item as its two fields are submitted and stored. */
  datatype Item = Item(uuid: string, message: string)

  const MinMessageLength: nat := 10
  const MaxMessageLength: nat := 255

  /** Length of the canonical hyphenated UUID text, e.g. aca49925-9ac5-4109-8125-5ff9caa37552. */
  const UuidLength: nat := 36
  /** Index of the version nibble and of the variant nibble in that text. */
  const VersionIndex: nat := 14
  const VariantIndex: nat := 19

  predicate IsHexDigit(c: char) {
    '0' <= c <= '9' || 'a' <= c <= 'f' || 'A' <= c <= 'F'
  }

  /** The positions of the four hyphens in the 8-4-4-4-12 layout. */
  predicate IsHyphenPosition(i: int) {
    i == 8 || i == 13 || i == 18 || i == 23
  }

  /**
   * A version-4 UUID in canonical text form (section 4.4 of RFC 4122):
   * hexadecimal digits in groups of 8-4-4-4-12, the version digit 4, and the
   * RFC 4122 variant (binary 10xx, one of 8, 9, a, b). Hexadecimal digits
   * are accepted in either case.
   */
  predicate IsUuid4(s: string) {
    |s| == UuidLength &&
    (forall i :: 0 <= i < |s| ==> if IsHyphenPosition(i) then s[i] == '-' else IsHexDigit(s[i])) &&
    s[VersionIndex] == '4' &&
    s[VariantIndex] in "89abAB"
  }

  predicate ValidMessage(m: string) {
    MinMessageLength <= |m| <= MaxMessageLength
  }

  /** The schema: the body is accepted exactly when this holds. */
  predicate ValidItem(x: Item) {
    IsUuid4(x.uuid) && ValidMessage(x.message)
  }

  /** The message bounds are inclusive at both ends: 10 and 255 characters pass, 9 and 256 do not. */
  lemma MessageBounds()
    ensures !ValidMessage(seq(MinMessageLength - 1, _ => 'x'))
    ensures ValidMessage(seq(MinMessageLength, _ => 'x'))
    ensures ValidMessage(seq(MaxMessageLength, _ => 'x'))
    ensures !ValidMessage(seq(MaxMessageLength + 1, _ => 'x'))
  {
  }

  /**
   * Only version 4 with the RFC 4122 variant is accepted: changing the
   * version digit to 1, or the variant digit to c, of an accepted UUID
   * makes it rejected.
   */
  lemma OnlyVersion4()
    ensures IsUuid4("aca49925-9ac5-4109-8125-5ff9caa37552")
    ensures !IsUuid4("aca49925-9ac5-1109-8125-5ff9caa37552")
    ensures !IsUuid4("aca49925-9ac5-4109-c125-5ff9caa37552")
    ensures !IsUuid4("not-a-uuid")
  {
  }

  /** The shared, append-only list of items; nothing ever removes from it. */
  class ItemList {
    var items: seq<Item>

    /** Every stored item satisfies the schema. */
    predicate AllValid()
      reads this
    {
      forall i :: 0 <= i < |items| ==> ValidItem(items[i])
    }

    /** The list as it is when the process starts. */
    constructor ()
      ensures items == []
      ensures AllValid()
    {
      items := [];
    }

    /** `list.append`: one element at the end, the others untouched. */
    method Append(item: Item)
      modifies this
      ensures items == old(items) + [item]
    {
      items := items + [item];
    }
  }
}
