/**
 * Loading the report document (app/app.py, load_xbrl_data). Opening the
 * file and decoding JSON are I/O: their outcome is an input here. What is
 * modelled is the shape check on the decoded value and the mapping of each
 * failure to the HTTP error the server answers with.
 */
module Loader {
  import opened Wrappers

  /** A decoded JSON value. */
  datatype Json =
    | JNull
    | JBool(b: bool)
    | JNumber(n: real)
    | JString(s: string)
    | JArray(items: seq<Json>)
    | JObject(fields: map<string, Json>)

  /** What opening and decoding the data file produced. */
  datatype ReadOutcome =
    | FileMissing
    | DecodeError(message: string)
    | Decoded(data: Json)

  datatype HttpError = HttpError(status: int, detail: string)

  /** A JSON object with a top-level "xbrl_content" member. */
  predicate HasExpectedShape(data: Json) {
    data.JObject? && "xbrl_content" in data.fields
  }

  function LoadXbrlData(read: ReadOutcome): (r: Result<Json, HttpError>)
    ensures r.Success? <==> read.Decoded? && HasExpectedShape(read.data)
    ensures r.Success? ==> r.value == read.data
    ensures read.FileMissing? <==> r.Failure? && r.error.status == 404
    ensures r.Failure? ==> r.error.status in {404, 500}
    ensures read.Decoded? && !HasExpectedShape(read.data)
            ==> r == Failure(HttpError(500, "Unexpected JSON structure"))
  {
    match read
    case FileMissing => Failure(HttpError(404, "XBRL data file not found"))
    case DecodeError(message) => Failure(HttpError(500, "Error decoding JSON: " + message))
    case Decoded(data) =>
      if HasExpectedShape(data) then Success(data)
      else Failure(HttpError(500, "Unexpected JSON structure"))
  }
}
