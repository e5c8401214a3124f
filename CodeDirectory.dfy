/**
 The code directory: the JSON object mapping country codes to country
 names, in the order its keys are enumerated, and the loader that fetches it.
 */
module CodeDirectory {

  /** A JSON value standing as a name: a string, or anything else (number, boolean, null, array, object). */
  datatype JsonValue = JString(text: string) | JNonString

  /** One key of the directory object with its value. */
  datatype Entry = Entry(code: string, name: JsonValue)

  /** The directory, in key-enumeration order. */
  type Directory = seq<Entry>

  /** The keys of a JSON object are distinct. */
  predicate DistinctCodes(d: Directory)
  {
    forall i, j :: 0 <= i < j < |d| ==> d[i].code != d[j].code
  }

  /** What parsing the body of the response gives: an object, or a parse failure. */
  datatype Body = JsonObject(entries: Directory) | Unparseable

  /** The outcome of the GET request for the code list. */
  datatype Response = NetworkFailure | HttpResponse(ok: bool, body: Body)

  /** The messages the page writes to the console. */
  datatype Diagnostic =
    | FetchCodesError     // "Error fetching country codes: "
    | GenerateFlagsError  // "Error generating flags: "

  /** What the loader hands back, and what it logged on the way. */
  datatype Loaded = Loaded(codes: Directory, log: seq<Diagnostic>)

  /** The request reached the host, the status was a success and the body parsed. */
  predicate Succeeds(r: Response)
  {
    r.HttpResponse? && r.ok && r.body.JsonObject?
  }

  /**
   `fetchCountryCodes`: a non-success status throws before the body is read;
   every failure is caught, logged once and turned into the empty object.
   */
  function FetchCountryCodes(r: Response): (l: Loaded)
    ensures Succeeds(r) ==> l.codes == r.body.entries && l.log == []
    ensures !Succeeds(r) ==> l.codes == [] && l.log == [FetchCodesError]
  {
    match r
    case NetworkFailure => Loaded([], [FetchCodesError])
    case HttpResponse(ok, body) =>
      if !ok then Loaded([], [FetchCodesError])
      else match body
        case Unparseable => Loaded([], [FetchCodesError])
        case JsonObject(entries) => Loaded(entries, [])
  }
}
