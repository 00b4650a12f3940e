/** The JavaScript value shapes the modelled code branches on. */
module JsValues {
  import opened Wrappers

  /** An optional list argument: `undefined` (a default parameter applies),
      `null`, or an array of strings. Both `undefined` and `null` are falsy. */
  datatype ListArg = Undefined | Null | List(items: seq<string>)

  /** `list || []`. */
  function ItemsOr(arg: ListArg, fallback: seq<string>): seq<string> {
    if arg.List? then arg.items else fallback
  }

  /** The value of `Number(x)`: a finite number, or NaN / an infinity. `Number(undefined)`
      is NaN and `Number(null)` is 0. */
  datatype Num = Finite(r: real) | NonFinite

  /** Truthiness of an optional string field: absent and "" are falsy. */
  predicate Truthy(s: Option<string>) {
    s.Some? && s.value != ""
  }

  /** `a || b` on optional string fields. */
  function Or(a: Option<string>, b: Option<string>): (r: Option<string>)
    ensures Truthy(r) <==> Truthy(a) || Truthy(b)
  {
    if Truthy(a) then a else b
  }

  /** `a || dflt` with a string default. */
  function OrDefault(a: Option<string>, dflt: string): (r: string)
    ensures Truthy(a) ==> r == a.value
    ensures !Truthy(a) ==> r == dflt
  {
    if Truthy(a) then a.value else dflt
  }

  /** `n || 0` on an optional integer column; 0 is falsy. */
  predicate TruthyInt(n: Option<int>) {
    n.Some? && n.value != 0
  }
}
