/**
  Values shared by the handlers of the Go service: the request fields the
  handlers look at, the response they produce, and the status codes they use.
 */
module Http {

  const StatusOK: int := 200
  const StatusInternalServerError: int := 500
  const StatusServiceUnavailable: int := 503

  /** The two request fields the service reads: `r.URL.Path` and `r.Method` (called `verb` here). */
  datatype Request = Request(path: string, verb: string)

  /** A Go `[]string`. A declared but never appended slice is `nil`, which
      JSON-encodes as `null`; any slice that was appended to is non-nil. */
  datatype StringSlice = Nil | Slice(elems: seq<string>) {

    /** The elements of the slice; a nil slice has none. */
    function Elements(): seq<string> {
      if Nil? then [] else elems
    }

    /** Go's `append(s, x)`: the result is never nil. */
    function Append(x: string): StringSlice {
      Slice(Elements() + [x])
    }
  }

  /** What a handler writes as the response body, before encoding. */
  datatype Body =
    | Text(text: string)                       // plain text
    | StatusJson(status: map<string, string>)  // a JSON object of strings
    | NamesJson(names: StringSlice)            // a JSON array, or `null` for a nil slice
    | Exposition                               // the metrics page

  datatype Response = Response(code: int, body: Body)
}
