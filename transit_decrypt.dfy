/** transit_decrypt.go: decrypting through the transit engine, whole or streamed. */
module TransitDecryption {
  import opened Wrappers
  import opened Bytes
  import opened Errors
  import opened Io
  import opened Http
  import opened Base64
  import opened Stream
  import opened Forest

  /** `fmt.Sprintf("/%s/decrypt/%s", TransitEngine, key)`, shared by both operations. */
  function DecryptPath(v: Vault, key: string): string
  {
    "/" + v.Config.TransitEngine + "/decrypt/" + key
  }

  /** The request `TransitDecrypt` sends: the ciphertext with surrounding white space cut. */
  function DecryptRequest(v: Vault, key: string, cipherText: seq<Byte>): (r: Request)
    ensures r.verb == MethodPost && r.url == v.BaseURL + ("/" + v.Config.TransitEngine + "/decrypt/" + key)
    ensures r.body.DecryptJson? && r.body.ciphertext == TrimSpace(cipherText)
    ensures r.body.ciphertext == [] || (!IsSpace(r.body.ciphertext[0]) && !IsSpace(r.body.ciphertext[|r.body.ciphertext| - 1]))
  {
    RequestGen(v, MethodPost, DecryptPath(v, key), DecryptJson(TrimSpace(cipherText)))
  }

  /** `TransitDecrypt`: the plaintext field of a successful response, base64-decoded and
      trimmed; the transport's error, the service error, or the fixed decode failure
      otherwise. A failure to decode the response body is not looked at: the field is
      used as far as the decoder filled it. */
  function TransitDecrypt(v: Vault, key: string, cipherText: seq<Byte>, send: Transport): (r: Result<seq<Byte>, Error>)
    ensures send(DecryptRequest(v, key, cipherText)).Err? ==> r == Err(send(DecryptRequest(v, key, cipherText)).error)
    ensures (var res := send(DecryptRequest(v, key, cipherText));
             res.Ok? && res.value.status >= 400 ==> r == Err(CheckErrorResponse(res.value.status, res.value.errors).value))
    ensures (var res := send(DecryptRequest(v, key, cipherText));
             res.Ok? && res.value.status < 400 ==>
               match StdDecode(res.value.data.value)
               case None => r == Err(DecodePayloadFailed)
               case Some(d) => r == Ok(TrimSpace(d)))
    ensures r.Ok? ==> r.value == [] || (!IsSpace(r.value[0]) && !IsSpace(r.value[|r.value| - 1]))
  {
    match send(DecryptRequest(v, key, cipherText))
    case Err(e) => Err(e)
    case Ok(res) =>
      match CheckErrorResponse(res.status, res.errors)
      case Some(e) => Err(e)
      case None =>
        match StdDecode(res.data.value)
        case None => Err(DecodePayloadFailed)
        case Some(s) => Ok(TrimSpace(s))
  }

  /** A service that answers with the standard base64 text of `payload` gives back the
      payload, trimmed of surrounding white space. */
  lemma DecryptRoundTrip(v: Vault, key: string, cipherText: seq<Byte>, send: Transport, payload: seq<Byte>)
    requires send(DecryptRequest(v, key, cipherText)).Ok?
    requires send(DecryptRequest(v, key, cipherText)).value.status < 400
    requires send(DecryptRequest(v, key, cipherText)).value.data.value == Encode(payload)
    ensures TransitDecrypt(v, key, cipherText, send) == Ok(TrimSpace(payload))
  {
    StdRoundTrip(payload);
  }

  /** The streamed request body: the raw ciphertext inside `{"ciphertext":"` and `"}`. */
  function CipherEnvelope(cipher: seq<Byte>): seq<Byte>
  {
    [OpenBrace] + CiphertextMarker + cipher + [Quote, CloseBrace]
  }

  /** The request `TransitDecryptStream` sends once the whole ciphertext has been read. */
  function DecryptStreamRequest(v: Vault, key: string, cipher: seq<Byte>): (r: Request)
    ensures r.verb == MethodPost && r.url == v.BaseURL + ("/" + v.Config.TransitEngine + "/decrypt/" + key)
    ensures r.body == Raw(CipherEnvelope(cipher))
  {
    RequestGen(v, MethodPost, DecryptPath(v, key), Raw(CipherEnvelope(cipher)))
  }

  /** `base64.NewDecoder(base64.StdEncoding, p)` over the plaintext extractor. */
  class DecodingReader {
    const source: StreamInBetween

    constructor (source: StreamInBetween)
      ensures this.source == source
    {
      this.source := source;
    }

    /** Draining the decoder: the extractor is read to its end in reads of `size` bytes
        and the text gathered is decoded group by group. Text whose whole groups are not
        base64 is a corrupt input; text that stops one to three bytes into a group yields
        the whole groups' bytes and `io.ErrUnexpectedEOF`. */
    method ReadAll(size: nat) returns (data: seq<Byte>, err: Option<Error>)
      requires size > 0
      modifies source`temp
      ensures source.temp == []
      ensures Decoded(data, err) == StreamDecode(old(source.temp))
    {
      var text := [];
      while true
        invariant text + source.temp == old(source.temp)
        decreases |source.temp|
      {
        var chunk, eof := source.Read(size);
        if eof {
          break;
        }
        text := text + chunk;
      }
      assert text == old(source.temp);
      var decoded := StreamDecode(text);
      data, err := decoded.data, decoded.failure;
    }
  }

  /** What `TransitDecryptStream` promises: a ciphertext read failure or a transport
      failure is returned before anything is extracted; the response body is copied into a
      fresh extractor for the plaintext field, and only a copy failure other than the short
      write at the closing quote is an error. The response status is not looked at. */
  ghost predicate DecryptStreamResult(v: Vault, key: string, cipher: Reader, send: Transport,
                                      payload: DecodingReader?, err: Option<Error>)
    reads payload, if payload != null then {payload.source} else {}
  {
    if cipher.failure.Some? then payload == null && err == cipher.failure
    else
      var sent := send(DecryptStreamRequest(v, key, Contents(cipher)));
      if sent.Err? then payload == null && err == Some(sent.error)
      else
        var body := sent.value.body;
        var f := Feed(Fresh, PlaintextMarker, Quote, Contents(body));
        if !f.stopped && body.failure.Some? && body.failure != Some(ShortWrite) then payload == null && err == body.failure
        else payload != null && payload.source.Valid() && err == None &&
             payload.source.State() == f.state && payload.source.startPoint == PlaintextMarker &&
             payload.source.endPoint == Quote
  }

  /** `TransitDecryptStream`. */
  method TransitDecryptStream(v: Vault, key: string, cipher: Reader, send: Transport)
    returns (payload: DecodingReader?, err: Option<Error>)
    ensures DecryptStreamResult(v, key, cipher, send, payload, err)
    ensures payload != null ==> fresh(payload) && fresh(payload.source)
  {
    if cipher.failure.Some? {
      return null, cipher.failure;
    }
    var buf := [OpenBrace] + CiphertextMarker;
    buf := buf + Contents(cipher);
    buf := buf + [Quote, CloseBrace];
    assert buf == CipherEnvelope(Contents(cipher));
    var req := RequestGen(v, MethodPost, DecryptPath(v, key), Raw(buf));
    assert req == DecryptStreamRequest(v, key, Contents(cipher));
    var sent := send(req);
    if sent.Err? {
      return null, Some(sent.error);
    }
    var body := sent.value.body;
    var p := new StreamInBetween(PlaintextMarker, Quote);
    assert LowByte(p.endPoint) == Quote;
    var copyErr := Copy(p, body);
    if copyErr.Some? && copyErr != Some(ShortWrite) {
      return null, copyErr;
    }
    ghost var st := p.State();
    payload := new DecodingReader(p);
    assert p.State() == st;
    err := None;
  }

  /** The marker does not occur before its own last byte in `{"ciphertext":"`. */
  lemma CiphertextMarkerFirst()
    ensures !Contains([OpenBrace] + CiphertextMarker[..|CiphertextMarker| - 1], CiphertextMarker)
  {
    var s := [OpenBrace] + CiphertextMarker[..|CiphertextMarker| - 1];
    assert s[0] != CiphertextMarker[0];
    if Contains(s[1..], CiphertextMarker) {
      ContainsLength(s[1..], CiphertextMarker);
    }
  }

  /** The raw ciphertext is not escaped: the service's reading of its ciphertext field is
      the ciphertext up to its first quote, so exactly the ciphertext when it has none. */
  lemma CipherEnvelopeReading(cipher: seq<Byte>)
    ensures Feed(Fresh, CiphertextMarker, Quote, CipherEnvelope(cipher)) ==
            Fed(ScanState(true, [OpenBrace] + CiphertextMarker, TakeUntil(cipher + [Quote, CloseBrace], Quote)), true)
    ensures Quote !in cipher ==> TakeUntil(cipher + [Quote, CloseBrace], Quote) == cipher
  {
    var head := [OpenBrace] + CiphertextMarker;
    var tail := cipher + [Quote, CloseBrace];
    CiphertextMarkerFirst();
    assert CipherEnvelope(cipher) == head + tail;
    assert [OpenBrace] + CiphertextMarker + [] == head;
    ExtractUnterminated([OpenBrace], CiphertextMarker, [], Quote);
    FeedAppend(Fresh, CiphertextMarker, Quote, head, tail);
    FeedStarted(ScanState(true, head, []), CiphertextMarker, Quote, tail);
    assert Quote in tail by {
      assert tail[|cipher|] == Quote;
    }
    if Quote !in cipher {
      UnquotedCiphertext(cipher);
    }
  }

  /** A ciphertext without quotes is read up to the closing quote of the envelope. */
  lemma UnquotedCiphertext(cipher: seq<Byte>)
    requires Quote !in cipher
    ensures TakeUntil(cipher + [Quote, CloseBrace], Quote) == cipher
  {
    TakeUntilValue(cipher, Quote, [CloseBrace]);
    assert [Quote] + [CloseBrace] == [Quote, CloseBrace];
    assert cipher + [Quote] + [CloseBrace] == cipher + ([Quote] + [CloseBrace]);
  }

  /** A response whose plaintext field, first found after `a`, holds the standard base64
      text of `payload` makes the returned reader yield exactly the payload. */
  lemma DecryptStreamRoundTrip(a: seq<Byte>, payload: seq<Byte>, b: seq<Byte>, body: Reader)
    requires !Contains(a + PlaintextMarker[..|PlaintextMarker| - 1], PlaintextMarker)
    requires Contents(body) == a + PlaintextMarker + Encode(payload) + [Quote] + b
    ensures StdDecode(Feed(Fresh, PlaintextMarker, Quote, Contents(body)).state.temp) == Some(payload)
    ensures StreamDecode(Feed(Fresh, PlaintextMarker, Quote, Contents(body)).state.temp) == Decoded(payload, None)
  {
    EncodeClean(payload);
    ExtractValue(a, PlaintextMarker, Encode(payload), Quote, b);
    StdRoundTrip(payload);
  }
}
