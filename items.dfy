/**
 * The records the web part reads from Microsoft Graph: drive items,
 * list-item field values, and paged responses.
 */
module Items {
  import opened Wrappers
  import Text

  /** A JSON value of a list-item field, with JavaScript truthiness. */
  datatype FieldValue = Null | Str(s: string) | Num(n: int) | Bool(b: bool)

  predicate Truthy(v: FieldValue) {
    match v
    case Null => false
    case Str(s) => s != ""
    case Num(n) => n != 0
    case Bool(b) => b
  }

  /** How a field value prints inside a template string. */
  function Show(v: FieldValue): string {
    match v
    case Null => "null"
    case Str(s) => s
    case Num(n) => Text.IntToString(n)
    case Bool(b) => if b then "true" else "false"
  }

  /** The fields of a list item; a key that is absent reads as `undefined`. */
  type Fields = map<string, FieldValue>

  /** `fields.key` is truthy. */
  predicate FieldIsSet(fields: Fields, key: string) {
    key in fields && Truthy(fields[key])
  }

  /**
   * A drive item as the listings use it: `folder` is the presence of the folder
   * facet, `lastModified` the parsed `lastModifiedDateTime` in milliseconds
   * (None when the property is missing or empty).
   */
  datatype Item = Item(
    id: string,
    name: Option<string>,
    isFolder: bool,
    lastModified: Option<int>,
    webUrl: string)

  /** The timestamp the listings compare; a missing one counts as the epoch. */
  function Stamp(i: Item): int {
    i.lastModified.GetOr(0)
  }

  /** `(item.name || "")`, the key of the name sorts. */
  function SortName(i: Item): string {
    i.name.GetOr("")
  }

  /** One response of a paged Graph request: `value` and `@odata.nextLink`. */
  datatype Page<T> = Page(value: Option<seq<T>>, nextLink: Option<string>)

  /** `result['@odata.nextLink']` is truthy. */
  predicate HasNext<T>(p: Page<T>) {
    p.nextLink.Some? && Text.Truthy(p.nextLink.value)
  }

  /** `result.value || []`. */
  function ValueOrEmpty<T>(p: Page<T>): seq<T> {
    p.value.GetOr([])
  }

  /**
   * The remote API as an oracle: the page a GET of each URL returns.
   * A URL without an entry is a request that fails.
   */
  type Oracle<T> = map<string, Page<T>>
}
