/** The HTTP boundary: the request the client builds and the response the transport returns.
    Sending (`http.Client.Do`) is a parameter of the operations that use it. */
module Http {
  import opened Wrappers
  import opened Bytes
  import opened Errors
  import opened Io

  /** A request body: raw bytes, or one of the two JSON request structs of the transit
      engine given by its only set field (their JSON encoding is not part of this model). */
  datatype Body =
    | NoBody
    | Raw(bytes: seq<Byte>)
    | EncryptJson(plaintext: seq<Byte>)
    | DecryptJson(ciphertext: seq<Byte>)

  datatype Request = Request(verb: string, url: string, header: map<string, string>, body: Body)

  const MethodPost := "POST"
  const MethodGet := "GET"

  /** A string field of a JSON response body as `encoding/json` leaves it: the value it
      stored and the decode failure it reported, if any. */
  datatype Field = Field(value: seq<Byte>, failure: Option<Error>)

  /** A response: its status, its body as a reader, and what decoding that body as an
      `{"errors": [...]}` object and as the operation's `data` field gives. */
  datatype Response = Response(status: int, body: Reader, errors: Result<seq<string>, Error>, data: Field)

  /** Building the request with `http.NewRequestWithContext` and sending it with the
      configured client: a response or the error either step gives. */
  type Transport = Request -> Result<Response, Error>

  /** The byte texts the streamed transit operations write and look for in bodies. */
  const OpenBrace: Byte := 123    // {
  const CloseBrace: Byte := 125   // }
  /** `"ciphertext":"` */
  const CiphertextMarker: seq<Byte> := [34, 99, 105, 112, 104, 101, 114, 116, 101, 120, 116, 34, 58, 34]
  /** `"plaintext":"` */
  const PlaintextMarker: seq<Byte> := [34, 112, 108, 97, 105, 110, 116, 101, 120, 116, 34, 58, 34]
}
