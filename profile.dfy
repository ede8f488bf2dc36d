/** The values the reconciler works on: identifiers, property values and profile snapshots. */
module Profiles {
  import opened JavaInt
  import opened JavaText

  /** A user identifier; two are equal when their strings are. */
  datatype UserId = UserId(value: string)

  /** A property name; any string. */
  type PropertyName = string

  /** A point in time, as the clock reports it; the model never inspects it. */
  type Instant = int

  /**
   * A property value: a string, a Java `int` (what the increment rule
   * stores) or a list of strings (what the list-append rule stores).
   */
  datatype PropertyValue = Str(s: string) | Number(n: Int32) | StrList(items: seq<string>)

  type PropertyMap = map<PropertyName, PropertyValue>

  /** The errors the reconciler reports, one per exception class it throws. */
  datatype ServiceError = EntityNotFound | InvalidUserId | InvalidUpdateCommand | InvalidProperty

  /** An immutable profile snapshot. */
  datatype UserProfile = UserProfile(userId: UserId, lastUpdated: Instant, properties: PropertyMap)

  /**
   * The text of `getValue().toString()`: a string is itself, an `int` is its
   * decimal numeral, and a list is rendered as `java.util.List` does, its
   * elements between `[` and `]` separated by `", "`.
   */
  function Render(v: PropertyValue): string {
    match v
    case Str(s) => s
    case Number(n) => IntToString(n)
    case StrList(items) => "[" + Join(items, ", ") + "]"
  }
}
