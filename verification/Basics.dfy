/** Types that several modules share. */
module Basics {

  datatype Option<+T> = None | Some(value: T)

  /** A decoded JSON value. */
  datatype Json =
    | JNull
    | JBool(b: bool)
    | JNumber(n: real)
    | JString(s: string)
    | JList(items: seq<Json>)
    | JObject(fields: map<string, Json>)

  predicate Distinct<T(==)>(s: seq<T>) {
    forall i, j | 0 <= i < j < |s| :: s[i] != s[j]
  }

  /** `part` is what is left of `s` when some elements are taken out. */
  ghost predicate InOrder<T>(s: seq<T>, part: seq<T>) {
    if part == [] then true
    else if s == [] then false
    else (s[0] == part[0] && InOrder(s[1..], part[1..])) || InOrder(s[1..], part)
  }
}
