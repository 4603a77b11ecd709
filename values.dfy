/** The loosely typed JavaScript values that the record store holds.
    A record is a JavaScript object: a map from field name to value, so the
    object spread `{...a, ...b}` is the right-biased map union `a + b`. */
module Values {
  import opened Wrappers
  import Text

  datatype Value =
    | Undefined
    | Null
    | Bool(b: bool)
    | Num(n: int)
    | Str(s: string)
      /** A date written by `toISOString()`, kept as the instant (epoch milliseconds) it denotes. */
    | Stamp(ms: int)
    | List(items: seq<Value>)
    | Obj(fields: map<string, Value>)
      /** A `Blob` holding the JSON text of an exported document. */
    | Blob(doc: Document)

  type Record = map<string, Value>

  /** The export document: the `clients` array and the backup metadata array.
      A field that is missing or is not an array is `None`. */
  datatype Document = Document(clients: Option<seq<Record>>, backupsMetadata: Option<seq<Record>>)

  /** `r.f`: the field's value, `undefined` when the object has no such field. */
  function Field(r: Record, f: string): Value {
    if f in r then r[f] else Undefined
  }

  /** `r.id`, the key the store matches with `===`. */
  function IdOf(r: Record): Value {
    Field(r, "id")
  }

  /** JavaScript truthiness (there is no NaN in this model). */
  predicate Truthy(v: Value) {
    match v
    case Undefined => false
    case Null => false
    case Bool(b) => b
    case Num(n) => n != 0
    case Str(s) => s != ""
    case _ => true
  }

  /** `a || b` */
  function Or(a: Value, b: Value): Value {
    if Truthy(a) then a else b
  }

  /** The text a template literal `${v}` writes for `v`. Dates, arrays and
      blobs are written as placeholders (their rendering is not modelled). */
  function Show(v: Value): string {
    match v
    case Undefined => "undefined"
    case Null => "null"
    case Bool(b) => if b then "true" else "false"
    case Num(n) => Text.IntToString(n)
    case Str(s) => s
    case Stamp(ms) => "[date]"
    case List(_) => "[array]"
    case Obj(_) => "[object Object]"
    case Blob(_) => "[object Blob]"
  }

  /** The set of ids of the records in `s`. */
  function IdsOf(s: seq<Record>): set<Value> {
    set r | r in s :: IdOf(r)
  }
}
