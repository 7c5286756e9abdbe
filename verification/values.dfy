/**
 * JSON values as balrogscript receives them (task payload, manifest entries,
 * configuration), the Python exceptions the core can raise, and a
 * failure-compatible Result type used with `:-`.
 */
module JsonValues {

  /** A loaded JSON value. Numbers are modelled as integers. */
  datatype Json =
    | JNull
    | JBool(b: bool)
    | JInt(i: int)
    | JStr(s: string)
    | JArr(items: seq<Json>)
    | JObj(fields: map<string, Json>)

  /** A JSON object, i.e. a Python dict with string keys. */
  type Dict = map<string, Json>

  /**
   * Python truthiness of a loaded JSON value, as used by `or` and `if`: the
   * falsy values are exactly `None`, `False`, `0`, `""`, `[]` and `{}`.
   */
  predicate Truthy(j: Json)
    ensures !Truthy(j) <==>
      j == JNull || j == JBool(false) || j == JInt(0) || j == JStr("") || j == JArr([]) || j == JObj(map[])
  {
    match j
    case JNull => false
    case JBool(b) => b
    case JInt(i) => i != 0
    case JStr(s) => s != ""
    case JArr(a) => a != []
    case JObj(m) => m != map[]
  }

  /** The exceptions raised by the core. */
  datatype Error =
    | KeyError(key: string)           // `d[key]` on a dict without `key`
    | WrongType(key: string)          // the value of `key` does not support the operation (TypeError, AttributeError)
    | BadPartialVersion(token: string) // ValueError: a partial-version token that does not split into two parts
    | UnknownStyle                    // RuntimeError: a manifest entry with neither style marker
    | RegistryError                   // a registry call that still failed after its retries

  datatype Result<+T> = Ok(value: T) | Err(error: Error) {
    predicate IsFailure() { Err? }

    function PropagateFailure<U>(): Result<U>
      requires Err?
    {
      Err(error)
    }

    function Extract(): T
      requires Ok?
    {
      value
    }
  }

  /** `d[key]`. */
  function Lookup(d: Dict, key: string): (r: Result<Json>)
    ensures r.Ok? <==> key in d
    ensures r.Ok? ==> r.value == d[key]
    ensures r.Err? ==> r.error == KeyError(key)
  {
    if key in d then Ok(d[key]) else Err(KeyError(key))
  }

  /** `d.get(key, default)`. */
  function GetOr(d: Dict, key: string, default: Json): (r: Json)
    ensures key in d ==> r == d[key]
    ensures key !in d ==> r == default
  {
    if key in d then d[key] else default
  }

  /** `d.get('blob_suffix', '')`: the suffix of the blob names, for a payload or a manifest entry. */
  function BlobSuffix(d: Dict): (r: Json)
    ensures "blob_suffix" in d ==> r == d["blob_suffix"]
    ensures "blob_suffix" !in d ==> r == JStr("")
  {
    GetOr(d, "blob_suffix", JStr(""))
  }
}
