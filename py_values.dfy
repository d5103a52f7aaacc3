/** Values that cross the boundary of the server module: what `json.load`
    produces, the exceptions that leave the modelled functions, and the
    wrappers used to return either a value or an exception. */
module PyValues {

  /** A decoded JSON document as Python's json module represents it.
      JNull is Python's `None`, which is also the "not loaded" mark of the
      two module-level caches. */
  datatype Json =
    | JNull
    | JBool(b: bool)
    | JNumber(n: int)
    | JString(s: string)
    | JArray(items: seq<Json>)
    | JObject(fields: map<string, Json>)

  /** The exceptions that can leave a modelled function. */
  datatype Error =
    | Raised(exception: string)  // a read failure the loaders do not catch
    | IndexError                 // random.choice on an empty sequence
    | TypeError                  // random.choice on a value without len()
    | KeyError                   // random.choice indexing a dict by position

  /** A call that either returns a value or raises. */
  datatype Result<+T> = Ok(value: T) | Err(error: Error)

  datatype Option<+T> = None | Some(value: T)

  /** The Python list of str built from `ss`. */
  function StringList(ss: seq<string>): (j: Json)
    ensures j.JArray? && |j.items| == |ss|
    ensures forall i :: 0 <= i < |ss| ==> j.items[i] == JString(ss[i])
  {
    JArray(seq(|ss|, i requires 0 <= i < |ss| => JString(ss[i])))
  }

  /** A non-empty list whose elements are all non-empty strings. */
  predicate IsNonEmptyStringList(j: Json)
  {
    j.JArray? && |j.items| > 0 &&
    forall i :: 0 <= i < |j.items| ==> j.items[i].JString? && |j.items[i].s| > 0
  }
}
