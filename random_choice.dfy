/** `random.choice` as CPython 3.12 (and 3.11 from 3.11.2) defines it: `len(seq)` (TypeError when the
    value has none), IndexError when that length is 0, otherwise
    `seq[randbelow(len(seq))]`. The random index is a nondeterministic
    choice; its distribution is not modelled. */
module RandomChoice {
  import opened PyValues

  /** `len(v)`, or None when the value has no length. */
  function Len(v: Json): Option<nat>
  {
    match v
    case JString(s) => Some(|s|)
    case JArray(items) => Some(|items|)
    case JObject(fields) => Some(|fields|)
    case _ => None
  }

  /** `x` is what indexing `v` at some position yields: an element of a list,
      or a one-character string of a string. */
  predicate IsElement(x: Json, v: Json)
  {
    (v.JArray? && x in v.items) ||
    (v.JString? && x.JString? && |x.s| == 1 && x.s[0] in v.s)
  }

  method Choice(v: Json) returns (r: Result<Json>)
    ensures r == Err(TypeError) <==> Len(v).None?
    ensures r == Err(IndexError) <==> Len(v) == Some(0)
    ensures v.JObject? && |v.fields| > 0 ==> r == Err(KeyError)
    ensures (v.JArray? || v.JString?) && Len(v) != Some(0) ==> r.Ok?
    ensures r.Ok? ==> IsElement(r.value, v)
  {
    var n := Len(v);
    if n.None? {
      return Err(TypeError);
    }
    if n.value == 0 {
      return Err(IndexError);
    }
    var k :| 0 <= k < n.value;
    match v
    case JArray(items) =>
      r := Ok(items[k]);
    case JString(s) =>
      r := Ok(JString([s[k]]));
    case JObject(_) =>
      // JSON object keys are strings, so an integer index is never a key
      r := Err(KeyError);
    case _ =>
      assert false;
  }
}
