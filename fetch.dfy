/**
 * The outcome of one `fetch` of a JSON list from the backend. The request itself
 * is outside the model: a page's load handler receives its outcome as a value.
 */
module Fetch {

  datatype Response<T> =
    | Failed(message: string)   // the request threw, or `response.ok` was false
    | NotAnArray                // the body parsed, but `Array.isArray(result)` is false
    | AnArray(items: seq<T>)    // the body is a JSON array

  /** `Array.isArray(result) ? result : []`, and `[]` after a failure. */
  function ItemsOr<T>(r: Response<T>): (s: seq<T>)
    ensures r.AnArray? ==> s == r.items
    ensures !r.AnArray? ==> s == []
  {
    if r.AnArray? then r.items else []
  }
}
