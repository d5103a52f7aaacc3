/** `load_reasons` and `load_quotes`: read a JSON file, or fall back to a
    fixed list when the file is missing or is not valid JSON. */
module Loader {
  import opened PyValues

  /** What opening the file and running `json.load` on it gives. The path
      computation and the file read itself are not modelled; the caller
      supplies their outcome. */
  datatype ReadOutcome =
    | Parsed(value: Json)            // the document decoded to `value`
    | NotFound                       // FileNotFoundError
    | DecodeError                    // json.JSONDecodeError
    | OtherError(exception: string)  // any other exception, e.g. PermissionError

  /** The hard-coded rejection reasons. */
  function ReasonsFallback(): (r: seq<string>)
    ensures |r| == 5
    ensures forall i :: 0 <= i < |r| ==> |r[i]| > 0
  {
    [ "I appreciate the thought, but I'll have to pass.",
      "That's not something I can commit to right now.",
      "I'm going to respectfully decline.",
      "My schedule doesn't allow for that.",
      "Not today, thanks for asking though!" ]
  }

  /** The hard-coded motivational quotes. */
  function QuotesFallback(): (r: seq<string>)
    ensures |r| == 3
    ensures forall i :: 0 <= i < |r| ==> |r[i]| > 0
  {
    [ "The only way to do great work is to love what you do. - Steve Jobs",
      "Believe you can and you're halfway there. - Theodore Roosevelt",
      "You are never too old to set another goal or to dream a new dream. - C.S. Lewis" ]
  }

  /** The try/except shared by both loaders: a decoded document is returned
      as it is, the two caught exceptions give the fallback list, and every
      other exception propagates. */
  function LoadOrFallback(read: ReadOutcome, fallback: seq<string>): (r: Result<Json>)
    ensures r.Err? <==> read.OtherError?
    ensures read.OtherError? ==> r.error == Raised(read.exception)
    ensures read.Parsed? ==> r == Ok(read.value)
    ensures read.NotFound? || read.DecodeError? ==> r == Ok(StringList(fallback))
  {
    match read
    case Parsed(v) => Ok(v)
    case NotFound => Ok(StringList(fallback))
    case DecodeError => Ok(StringList(fallback))
    case OtherError(e) => Err(Raised(e))
  }

  function LoadReasons(read: ReadOutcome): (r: Result<Json>)
    ensures r.Err? <==> read.OtherError?
    ensures read.OtherError? ==> r.error == Raised(read.exception)
    ensures read.Parsed? ==> r == Ok(read.value)
    ensures read.NotFound? || read.DecodeError? ==>
              r == Ok(StringList(ReasonsFallback())) && IsNonEmptyStringList(r.value)
  {
    LoadOrFallback(read, ReasonsFallback())
  }

  function LoadQuotes(read: ReadOutcome): (r: Result<Json>)
    ensures r.Err? <==> read.OtherError?
    ensures read.OtherError? ==> r.error == Raised(read.exception)
    ensures read.Parsed? ==> r == Ok(read.value)
    ensures read.NotFound? || read.DecodeError? ==>
              r == Ok(StringList(QuotesFallback())) && IsNonEmptyStringList(r.value)
  {
    LoadOrFallback(read, QuotesFallback())
  }
}
