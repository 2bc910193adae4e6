/** Value types shared by every entity of the pet-adoption model. */
module Common {

  /** A nullable value: C#'s `null` / `Nullable<T>` without a value is `None`. */
  datatype Option<+T> = None | Some(value: T) {

    /** The wrapped value, or `default` when there is none (C#'s `??`). */
    function GetOr(default: T): T {
      match this
      case Some(v) => v
      case None => default
    }
  }

  /** A store-generated globally unique identifier (`Guid`), compared only for equality. */
  type Uuid = nat

  /** A `DateTime`, as its tick count. */
  type DateTime = nat

  /** `DateTime.MinValue`: the value a non-nullable `DateTime` DTO field takes when the client omits it. */
  const MinValue: DateTime := 0

  /** A latitude or longitude. The stored `decimal` and the transported `double` are both this
      opaque value: their arithmetic and the conversions between them are not modelled. */
  type Coordinate = int

  /** C#'s 32-bit `int`. */
  newtype Int32 = x: int | -0x8000_0000 <= x < 0x8000_0000

  /** `int.MaxValue`, the upper bound of every `[Range(_, int.MaxValue)]` attribute. */
  const Int32Max: int := 0x7FFF_FFFF

  /** The three `[Range]` attributes shared by shelters and foster homes: a capacity of at
      least 1 and a current capacity and occupancy of at least 0, each at most `int.MaxValue`
      (which `Int32` already guarantees). */
  predicate CountersInRange(capacity: Int32, currentCapacity: Int32, currentOccupancy: Int32) {
    1 <= capacity as int <= Int32Max && 0 <= currentCapacity as int <= Int32Max &&
    0 <= currentOccupancy as int <= Int32Max
  }

  /** `string.IsNullOrEmpty`. */
  predicate IsNullOrEmpty(s: Option<string>) {
    s.None? || s.value == ""
  }

  /** The white-space characters `string.IsNullOrWhiteSpace` recognises in the ASCII range. */
  predicate IsWhiteSpace(c: char) {
    c == ' ' || c == '\t' || c == '\n' || c == '\r' || c == '\U{000B}' || c == '\U{000C}'
  }

  /** `[Required]` on a string: not null, not empty and not only white space. */
  predicate Required(s: string) {
    exists i :: 0 <= i < |s| && !IsWhiteSpace(s[i])
  }

  /** `[MaxLength(n)]` / `[StringLength(n)]` on a nullable string: null passes. */
  predicate MaxLengthOpt(s: Option<string>, n: nat) {
    s.None? || |s.value| <= n
  }

  /** A `[RegularExpression("^(a|b|...)$")]` whose alternatives are `values`: null and the
      empty string pass (the attribute does not test them), anything else must be one of them. */
  predicate MatchesOneOfOpt(s: Option<string>, values: set<string>) {
    IsNullOrEmpty(s) || s.value in values
  }

  /** The partial-update rule for a field that the entity always holds:
      overwrite only when the DTO supplies a value. */
  function Patch<T>(current: T, supplied: Option<T>): (r: T)
    ensures supplied.Some? ==> r == supplied.value
    ensures supplied.None? ==> r == current
  {
    supplied.GetOr(current)
  }

  /** The partial-update rule for a nullable entity field: a supplied value replaces the stored one,
      and an absent one leaves it, so the field can never be cleared back to null. */
  function PatchNullable<T>(current: Option<T>, supplied: Option<T>): (r: Option<T>)
    ensures r.None? <==> current.None? && supplied.None?
    ensures supplied.Some? ==> r == supplied
    ensures supplied.None? ==> r == current
  {
    if supplied.Some? then supplied else current
  }

  /** Two partial updates applied one after the other act as one patch in which the later
      patch's supplied fields win. */
  lemma PatchThen<T>(current: T, first: Option<T>, second: Option<T>)
    ensures Patch(Patch(current, first), second) == Patch(current, PatchNullable(first, second))
  {
  }
}
