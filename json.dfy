/**
 * Parsed JSON payloads, as `encoding/json` hands them to the bridge when it
 * decodes into `any`: objects become `map[string]any`, arrays `[]any`, and
 * the scalars string, float64, bool and nil.
 */
module Json {
  import opened Text

  /**
   * A decoded JSON value. A number carries the text that `fmt.Sprintf("%v")`
   * prints for its float64; the bridge never does arithmetic on numbers.
   */
  datatype Json =
    | Null
    | Bool(b: bool)
    | Number(text: string)
    | Str(s: string)
    | Array(items: seq<Json>)
    | Object(fields: map<string, Json>)
  {
    predicate IsScalar()
    {
      !Array? && !Object?
    }
  }

  /** The outcome of `json.Unmarshal` on a message value: a value, or a syntax error. */
  datatype Decoded = Parsed(value: Json) | Malformed

  /**
   * `fmt.Sprintf("%v", v)` for a decoded value: strings print bare, nil as
   * `<nil>`, maps as `map[k:v ...]` with sorted keys, slices as `[a b ...]`.
   */
  function Render(v: Json): (r: string)
    ensures v.Str? ==> r == v.s
    decreases v, 1, 0
  {
    match v
    case Null => "<nil>"
    case Bool(b) => if b then "true" else "false"
    case Number(text) => text
    case Str(s) => s
    case Array(items) => "[" + RenderItems(items, 0) + "]"
    case Object(fields) => "map[" + RenderFields(fields, SortedKeys(fields.Keys)) + "]"
  }

  /** The elements `items[i..]`, rendered and separated by single spaces. */
  function RenderItems(items: seq<Json>, i: nat): string
    requires i <= |items|
    decreases Array(items), 0, |items| - i
  {
    if i == |items| then ""
    else if i == |items| - 1 then Render(items[i])
    else Render(items[i]) + " " + RenderItems(items, i + 1)
  }

  /** The entries `k:v` for the keys `ks`, in that order, separated by single spaces. */
  function RenderFields(fields: map<string, Json>, ks: seq<string>): string
    requires forall k :: k in ks ==> k in fields
    decreases Object(fields), 0, |ks|
  {
    if ks == [] then ""
    else
      var entry := ks[0] + ":" + Render(fields[ks[0]]);
      if |ks| == 1 then entry else entry + " " + RenderFields(fields, ks[1..])
  }
}
