/** The error values of the client and the service-error check of errors.go. */
module Errors {
  import opened Wrappers

  /** Every error the modelled operations can return. */
  datatype Error =
    | EmptyToken                     // errors.New("Empty token")
    | NotInitialized                 // checkNil's error
    | Service(detail: string)        // fmt.Errorf("Error: %s", detail)
    | DecodePayloadFailed            // errors.New("Fail to decode payload")
    | CorruptInput                   // base64.CorruptInputError
    | ShortWrite                     // io.ErrShortWrite
    | UnexpectedEOF                  // io.ErrUnexpectedEOF
    | BodyDecode(cause: string)      // an encoding/json failure, passed through as is
    | Transport(cause: string)       // a failure building or sending an HTTP request
    | ReadFailed(cause: string)      // a failure of a reader other than io.EOF

  const NotFoundDetail := "invalid or wrong path. Most likely the requested resource does not exist."

  const NotInitializedMessage :=
    "Vault needs to be initialized first. Please call Init(token, opts) at least once before using other methods"

  /** The text `err.Error()` returns for the errors whose text the client fixes. */
  function Message(e: Error): (m: string)
    ensures e.Service? ==> m == "Error: " + e.detail
  {
    match e
    case EmptyToken => "Empty token"
    case NotInitialized => NotInitializedMessage
    case Service(d) => "Error: " + d
    case DecodePayloadFailed => "Fail to decode payload"
    case CorruptInput => "illegal base64 data"
    case ShortWrite => "short write"
    case UnexpectedEOF => "unexpected EOF"
    case BodyDecode(c) => c
    case Transport(c) => c
    case ReadFailed(c) => c
  }

  /** `strings.Join(elems, sep)`: nothing for no elements; otherwise the text starts with
      the first element and ends with the last, and holds every separator between. */
  function Join(elems: seq<string>, sep: string): (r: string)
    ensures elems == [] ==> r == ""
    ensures |elems| == 1 ==> r == elems[0]
    ensures elems != [] ==> |elems[0]| <= |r| && r[..|elems[0]|] == elems[0]
    ensures elems != [] ==> |elems[|elems| - 1]| <= |r| && r[|r| - |elems[|elems| - 1]|..] == elems[|elems| - 1]
    ensures elems != [] ==> |r| >= (|elems| - 1) * |sep|
  {
    if elems == [] then ""
    else if |elems| == 1 then elems[0]
    else
      var rest := Join(elems[1..], sep);
      assert elems[1..][|elems[1..]| - 1] == elems[|elems| - 1];
      var r := elems[0] + sep + rest;
      assert r[..|elems[0]|] == elems[0];
      assert r[|r| - |rest|..] == rest;
      r
  }

  /** With a non-empty separator the joined text is empty exactly when there is nothing to
      join or the only element is itself empty. */
  lemma {:induction false} JoinEmptyIff(elems: seq<string>, sep: string)
    requires sep != ""
    ensures Join(elems, sep) == "" <==> (elems == [] || elems == [""])
  {
    if |elems| > 1 {
      assert Join(elems, sep) == elems[0] + sep + Join(elems[1..], sep);
    }
  }

  /** `checkErrorResponse` on a response with status `status` whose body, read as
      `{"errors": [...]}`, gives `decoded` (the body is only read from 400 on). */
  function CheckErrorResponse(status: int, decoded: Result<seq<string>, Error>): (r: Option<Error>)
    ensures status < 400 <==> r == None
    ensures status >= 400 && decoded.Err? ==> r == Some(decoded.error)
    ensures status >= 400 && decoded.Ok? ==> r.Some? && r.value.Service?
    ensures status >= 400 && decoded.Ok? && decoded.value != [] && decoded.value != [""] ==>
              Message(r.value) == "Error: " + Join(decoded.value, ", ")
    ensures status >= 400 && decoded.Ok? && (decoded.value == [] || decoded.value == [""]) ==>
              Message(r.value) == "Error: " + NotFoundDetail
  {
    if status >= 400 then
      match decoded
      case Err(e) => Some(e)
      case Ok(errs) =>
        var joined := Join(errs, ", ");
        JoinEmptyIff(errs, ", ");
        Some(Service(if joined == "" then NotFoundDetail else joined))
    else
      None
  }

  /** Below 400 the body is never consulted: any two decodings give the same answer. */
  lemma SuccessIgnoresBody(status: int, d1: Result<seq<string>, Error>, d2: Result<seq<string>, Error>)
    requires status < 400
    ensures CheckErrorResponse(status, d1) == CheckErrorResponse(status, d2) == None
  {
  }
}
