/** transit_encrypt.go: encrypting through the transit engine, whole or streamed. */
module TransitEncryption {
  import opened Wrappers
  import opened Bytes
  import opened Errors
  import opened Io
  import opened Http
  import opened Base64
  import opened Stream
  import opened Forest

  /** `{"plaintext":"` and `"}`, around the encoded payload of a streamed request. */
  const EnvelopeOpen: seq<Byte> := [OpenBrace] + PlaintextMarker
  const EnvelopeClose: seq<Byte> := [Quote, CloseBrace]

  /** `encryptResponseStream`, the hard-wired twin of `newStreamInBetween("\"ciphertext\":\"", '"')`
      whose buffer is only allocated by the first `Write`. */
  class EncryptResponseStream {
    var startData: bool
    var initiate: seq<Byte>
    var temp: seq<Byte>
    var hasBuffer: bool   // temp != nil
    /** The marker the type hard-wires. */
    const marker: seq<Byte>

    function State(): ScanState
      reads this
    {
      ScanState(startData, initiate, temp)
    }

    ghost predicate Valid()
      reads this
    {
      Reachable(State(), marker) && (!hasBuffer ==> temp == [])
    }

    /** The zero value `encryptResponseStream{}`. */
    constructor ()
      ensures Valid() && State() == Fresh && !hasBuffer && marker == CiphertextMarker
    {
      startData, initiate, temp, hasBuffer := false, [], [], false;
      marker := CiphertextMarker;
    }

    /** `Read`: only possible once `Write` has allocated the buffer (a nil buffer panics). */
    method Read(size: nat) returns (data: seq<Byte>, eof: bool)
      requires hasBuffer
      modifies this`temp
      ensures eof <==> old(temp) == [] && size > 0
      ensures |data| == if size < |old(temp)| then size else |old(temp)|
      ensures old(temp) == data + temp
    {
      if temp == [] {
        data, eof := [], size > 0;
      } else {
        var k := if size < |temp| then size else |temp|;
        data, temp, eof := temp[..k], temp[k..], false;
      }
    }

    /** One byte of `Write`'s loop that does not end the value. */
    method Absorb(b: Byte)
      modifies this`startData, this`initiate, this`temp
      ensures State() == Step(old(State()), marker, b)
    {
      if startData {
        temp := temp + [b];
      } else {
        initiate := initiate + [b];
        if Contains(initiate, marker) {
          startData := true;
        }
      }
    }

    /** `Write(p)`: byte for byte what the generic extractor does with the same marker
        and the quote as end byte. */
    method Write(p: seq<Byte>) returns (n: nat)
      requires Valid()
      modifies this`startData, this`initiate, this`temp, this`hasBuffer
      ensures Valid() && hasBuffer
      ensures var f := Feed(old(State()), marker, Quote, p);
        State() == f.state && n == (if f.stopped then 0 else |p|)
    {
      if !hasBuffer {
        temp, hasBuffer := [], true;
      }
      ghost var goal := Feed(State(), marker, Quote, p);
      n := 0;
      var i := 0;
      while i < |p|
        invariant 0 <= i <= |p| && n == i
        invariant Valid() && hasBuffer
        invariant goal == Feed(State(), marker, Quote, p[i..])
      {
        var b := p[i];
        assert p[i..][0] == b && p[i..][1..] == p[i + 1..];
        FeedByte(State(), marker, Quote, p[i..]);
        if startData && b == Quote {
          return 0;
        }
        Absorb(b);
        n := n + 1;
        i := i + 1;
      }
    }
  }

  /** `fmt.Sprintf("/%s/encrypt/%s", TransitEngine, key)`, shared by both operations. */
  function EncryptPath(v: Vault, key: string): string
  {
    "/" + v.Config.TransitEngine + "/encrypt/" + key
  }

  /** The request `TransitEncrypt` sends: its plaintext field is the standard base64 text
      of the payload, which decodes back to the payload. */
  function EncryptRequest(v: Vault, key: string, payload: seq<Byte>): (r: Request)
    ensures r.verb == MethodPost && r.url == v.BaseURL + ("/" + v.Config.TransitEngine + "/encrypt/" + key)
    ensures r.body.EncryptJson? && r.body.plaintext == Encode(payload)
    ensures StdDecode(r.body.plaintext) == Some(payload)
  {
    StdRoundTrip(payload);
    RequestGen(v, MethodPost, EncryptPath(v, key), EncryptJson(Encode(payload)))
  }

  /** `TransitEncrypt`: the ciphertext field of a successful response; otherwise the
      transport's error, the service error, or the response decoding error. */
  function TransitEncrypt(v: Vault, key: string, payload: seq<Byte>, send: Transport): (r: Result<seq<Byte>, Error>)
    ensures send(EncryptRequest(v, key, payload)).Err? ==> r == Err(send(EncryptRequest(v, key, payload)).error)
    ensures r.Ok? <==> (var res := send(EncryptRequest(v, key, payload));
                        res.Ok? && res.value.status < 400 && res.value.data.failure.None?)
    ensures r.Ok? ==> r.value == send(EncryptRequest(v, key, payload)).value.data.value
    ensures (var res := send(EncryptRequest(v, key, payload));
             res.Ok? && res.value.status >= 400 ==> r == Err(CheckErrorResponse(res.value.status, res.value.errors).value))
  {
    match send(EncryptRequest(v, key, payload))
    case Err(e) => Err(e)
    case Ok(res) =>
      match CheckErrorResponse(res.status, res.errors)
      case Some(e) => Err(e)
      case None =>
        if res.data.failure.Some? then Err(res.data.failure.value) else Ok(res.data.value)
  }

  /** The streamed request body: the envelope around the encoded payload. */
  function Envelope(payload: seq<Byte>): seq<Byte>
  {
    EnvelopeOpen + Encode(payload) + EnvelopeClose
  }

  /** The request `TransitEncryptStream` sends once the whole payload has been encoded. */
  function EncryptStreamRequest(v: Vault, key: string, payload: seq<Byte>): (r: Request)
    ensures r.verb == MethodPost && r.url == v.BaseURL + ("/" + v.Config.TransitEngine + "/encrypt/" + key)
    ensures r.body == Raw(Envelope(payload))
    ensures r.header == EncryptRequest(v, key, payload).header
  {
    RequestGen(v, MethodPost, EncryptPath(v, key), Raw(Envelope(payload)))
  }

  /** What `TransitEncryptStream` promises: a payload read failure or a transport failure
      is returned before anything is extracted; the response body is copied into a fresh
      extractor for the ciphertext field, and only a copy failure other than the short
      write at the closing quote is an error. The response status is not looked at. */
  ghost predicate EncryptStreamResult(v: Vault, key: string, payload: Reader, send: Transport,
                                      cipher: StreamInBetween?, err: Option<Error>)
    reads cipher
  {
    if payload.failure.Some? then cipher == null && err == payload.failure
    else
      var sent := send(EncryptStreamRequest(v, key, Contents(payload)));
      if sent.Err? then cipher == null && err == Some(sent.error)
      else
        var body := sent.value.body;
        var f := Feed(Fresh, CiphertextMarker, Quote, Contents(body));
        if !f.stopped && body.failure.Some? && body.failure != Some(ShortWrite) then cipher == null && err == body.failure
        else cipher != null && cipher.Valid() && err == None && cipher.State() == f.state &&
             cipher.startPoint == CiphertextMarker && cipher.endPoint == Quote
  }

  /** `TransitEncryptStream`. */
  method TransitEncryptStream(v: Vault, key: string, payload: Reader, send: Transport)
    returns (cipher: StreamInBetween?, err: Option<Error>)
    ensures EncryptStreamResult(v, key, payload, send, cipher, err)
    ensures cipher != null ==> fresh(cipher)
  {
    // io.Copy into the base64 encoder that writes into the buffer
    if payload.failure.Some? {
      return null, payload.failure;
    }
    var buf := EnvelopeOpen;
    buf := buf + Encode(Contents(payload));
    buf := buf + EnvelopeClose;
    var req := RequestGen(v, MethodPost, EncryptPath(v, key), Raw(buf));
    assert req == EncryptStreamRequest(v, key, Contents(payload));
    var sent := send(req);
    if sent.Err? {
      return null, Some(sent.error);
    }
    var body := sent.value.body;
    var c := new StreamInBetween(CiphertextMarker, Quote);
    assert LowByte(c.endPoint) == Quote;
    var copyErr := Copy(c, body);
    if copyErr.Some? && copyErr != Some(ShortWrite) {
      return null, copyErr;
    }
    return c, None;
  }

  /** The marker does not occur before its own last byte in `{"plaintext":"`. */
  lemma PlaintextMarkerFirst()
    ensures !Contains([OpenBrace] + PlaintextMarker[..|PlaintextMarker| - 1], PlaintextMarker)
  {
    var s := [OpenBrace] + PlaintextMarker[..|PlaintextMarker| - 1];
    assert s[0] != PlaintextMarker[0];
    if Contains(s[1..], PlaintextMarker) {
      ContainsLength(s[1..], PlaintextMarker);
    }
  }

  /** The streamed envelope carries the payload intact: the service's reading of its
      `"plaintext":"` field is exactly the encoded payload, and it decodes to the payload. */
  lemma EnvelopeCarriesPayload(payload: seq<Byte>)
    ensures Feed(Fresh, PlaintextMarker, Quote, Envelope(payload)) == Fed(ScanState(true, EnvelopeOpen, Encode(payload)), true)
    ensures StdDecode(Encode(payload)) == Some(payload)
  {
    PlaintextMarkerFirst();
    EncodeClean(payload);
    assert Envelope(payload) == [OpenBrace] + PlaintextMarker + Encode(payload) + [Quote] + [CloseBrace];
    ExtractValue([OpenBrace], PlaintextMarker, Encode(payload), Quote, [CloseBrace]);
    StdRoundTrip(payload);
  }

  /** A response `a + "ciphertext":" + c + '"' + b`, with the marker first found there and no
      quote in `c`, yields the reader content `c`, however the body is chunked. */
  lemma CiphertextExtracted(a: seq<Byte>, c: seq<Byte>, b: seq<Byte>, body: Reader)
    requires !Contains(a + CiphertextMarker[..|CiphertextMarker| - 1], CiphertextMarker) && Quote !in c
    requires Contents(body) == a + CiphertextMarker + c + [Quote] + b
    ensures Feed(Fresh, CiphertextMarker, Quote, Contents(body)) == Fed(ScanState(true, a + CiphertextMarker, c), true)
  {
    ExtractValue(a, CiphertextMarker, c, Quote, b);
  }
}
