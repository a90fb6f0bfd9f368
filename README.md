# A verified model of the forest Vault client core

This project models the core of `forest`, a Go client for HashiCorp Vault, in Dafny and
proves properties of that model. The model covers:

- **Client construction**: the default configuration, functional options applied left to
  right, `BaseURL`, and the request builders with their three headers.
- **The package-level client**: `Init`, `checkNil`, and the check-then-delegate wrappers.
- **Service errors**: the `{"errors": [...]}` check applied from HTTP status 400 on.
- **Transit encryption and decryption**, whole and streamed. A whole encryption sends the
  plaintext as standard base64 (RFC 4648 section 4). A whole decryption sends the
  ciphertext trimmed of surrounding white space, and the plaintext comes back in base64. The streamed operations build the JSON
  envelope by hand. They pull one string field out of the response with `streamInBetween`,
  a byte-by-byte extractor that buffers what lies between a start marker and the next
  closing quote.
- **Watching a key-value entry**: a polling loop that sends each changed value on a channel.
- **The token-creation builder**: its setters, and the conversion of a duration to a
  whole-hours string.

Each source file has its own module:

| module | file | models |
|---|---|---|
| `Stream` | stream.dfy | stream.go |
| `TransitEncryption` | transit_encrypt.dfy | transit_encrypt.go |
| `TransitDecryption` | transit_decrypt.dfy | transit_decrypt.go |
| `Subscription` | subscribe.dfy | subscribe.go |
| `TokenCreation` | token_create.dfy | token_create.go |
| `Errors` | errors.dfy | errors.go |
| `Forest` | forest.dfy | forest.go |
| `Opts` | opts.dfy | opts.go |
| `GlobalVault` | global_vault.dfy | global_vault.go |

Modules shared by the others:

- `Wrappers`: `Option` and `Result`.
- `Bytes`: bytes, `strings.Contains`, ASCII `strings.TrimSpace`, and the prefix of a buffer
  up to a delimiter.
- `Base64`: the standard alphabet with padding. Decoding is non-strict as in Go: CR and LF
  are skipped.
- `Io`: a reader as a sequence of chunks plus an optional failure.
- `Http`: requests, responses, and the transport.
- `Durations`: `int64`, `time.Duration`, and Go's truncating division.

### How the implementation is modelled

- **Mutable Go objects are classes.** This covers the extractor `streamInBetween` and its
  twin `encryptResponseStream`, `Config`, `CreateTokenInstance`, the watcher's channel and
  the global `gVault`. Each method is proved against a specification function of the old
  state. For example, `StreamInBetween.Write` is specified by `Stream.Feed`.
- **Specification functions get their own lemmas.** The extractor's are:
  - `MarkerEnd` is the reference definition of where extraction begins.
  - `ExtractValue` shows that exactly the value between the first marker and the next end
    byte is kept.
  - `CopyFeedFlatten` shows that how the body is split into chunks does not matter.
- **Outside effects are inputs.** The HTTP round trip is the function-typed parameter
  `Transport`. What the JSON decoder makes of a response body is part of the `Response`
  value. The watcher's fetch outcomes and context observations are a sequence given to it.

### Behaviour of the code as written

- `TransitEncryptStream` and `TransitDecryptStream` never call `checkErrorResponse`. Their
  results, `TransitEncryption.EncryptStreamResult` and
  `TransitDecryption.DecryptStreamResult`, do not depend on the response status. An error
  response simply yields whatever its body holds after the marker.
- In `SubscribeKeyValue` each poll's context is derived from the first attempt's context
  (subscribe.go:36, 52), and that context was already cancelled at subscribe.go:45. With
  `net/http`, which honours the context, every poll fails with `context.Canceled`. With the
  default callback nothing is then ever sent. The watcher polls until the caller's context
  is done, and then the deferred close shuts the channel (subscribe.go:35, 47-49). With
  `context.Background()`, as in the doc example at subscribe.go:16, it polls for ever
  (`Subscription.CancelledPolls`). `Subscription.Example`, `Subscription.NilBaseline` and
  `Subscription.LoopDeliversFetched` describe a transport that ignores the context.
- Suppose the first fetch of `SubscribeKeyValue` fails and the callback lets the watcher go
  on. The baseline is then nil, so the first later non-empty value is sent
  (`Subscription.NilBaseline`). It does not become a silent baseline.
- The hour conversion truncates toward zero, and the doc comment's "minimum value of 1
  hour" holds only for non-negative durations. A duration of minus one hour or less gives a
  negative count such as `-2h` (`TokenCreation.WholeHours`).
- `TransitDecrypt` ignores a failure to decode the response JSON: the condition after
  transit_decrypt.go:60 tests an `err` that was already nil. The model uses the plaintext
  field as given, whatever the decoder reported.

## Model

| member | source | states |
|---|---|---|
| Bytes.LowByte | stream.go:32 | `byte(endPoint)` keeps the rune's value modulo 256 |
| Bytes.ContainsIffOccurs | stream.go:45 | the recursive `strings.Contains` holds exactly when the marker occurs at some index of the text |
| Bytes.ContainsLength | stream.go:45 | a text contains no marker longer than itself |
| Bytes.FirstContainsEndsWith | stream.go:44-46 | when appending one byte makes the text contain the marker for the first time, the marker is a suffix of the text |
| Bytes.TakeUntil | stream.go:30-34 | the bytes before the first end byte: a prefix without the end byte, followed in the input by the end byte when there is one, the whole input otherwise |
| Bytes.TakeUntilValue | stream.go:30-34 | a value followed by the end byte is cut off exactly at that byte, whatever follows |
| Bytes.TrimSpace | transit_decrypt.go:39 | an infix of the input with no white space at either end, with everything cut off at both ends being white space |
| Bytes.TrimSpaceIdempotent | transit_decrypt.go:68 | trimming a trimmed text changes nothing |
| Bytes.TrimSpaceNoop | transit_decrypt.go:39 | a text without white space at its ends is returned unchanged |
| Errors.Message | errors.go:25 | a service error reads `Error: ` followed by its detail |
| Errors.Join | errors.go:21 | `strings.Join`: empty for no elements and the element itself for one; otherwise it starts with the first element, ends with the last, and is at least as long as the separators between them |
| Errors.JoinEmptyIff | errors.go:21-24 | with a non-empty separator the join is empty exactly for no elements or the single empty element |
| Errors.CheckErrorResponse | errors.go:14-28 | no error exactly below status 400; from 400 on, the body decode failure unchanged, else `Error: ` + the joined errors, or the not-found text when the join is empty |
| Errors.SuccessIgnoresBody | errors.go:15-27 | below 400 the body's content never changes the answer |
| Base64.CharValue | transit_encrypt.go:81 | every six-bit value is written as a byte of the standard alphabet, and decoding that byte gives the value back |
| Base64.Encode | transit_encrypt.go:81 | padded standard base64: a multiple of four bytes, empty exactly for the empty input, every byte from the alphabet or the pad |
| Base64.TripleRoundTrip | transit_encrypt.go:81 | three bytes encode to four alphabet bytes that decode back to them |
| Base64.RoundTrip | transit_decrypt.go:64 | decoding the encoding of any byte string gives the byte string |
| Base64.GroupRoundTrip | transit_decrypt.go:64 | one more leading group of three bytes keeps the round trip |
| Base64.DecodeGroup | transit_decrypt.go:64 | four alphabet bytes ahead of decodable text decode to their three bytes followed by that text's bytes |
| Base64.EncodeClean | transit_encrypt.go:118-132 | encoded text holds no quote, CR or LF, so it can sit inside the hand-built JSON string |
| Base64.StdRoundTrip | transit_decrypt.go:64 | Go's non-strict decoding (CR and LF skipped) undoes the encoding |
| Base64.StreamDecode | transit_decrypt.go:102 | `base64.NewDecoder` read to the end: no error exactly when the whole text decodes, and then its decoding; a text that stops one to three bytes into a group whose whole groups decode gives their bytes and the unexpected-EOF error; any other failure is a corrupt input |
| Base64.StreamDecodeCut | transit_decrypt.go:102 | decodable whole groups followed by one to three bytes give the groups' bytes and the unexpected-EOF error |
| Base64.TruncatedStream | transit_decrypt.go:102 | the encoding of any byte string cut off one to three bytes into a further group gives back the byte string and the unexpected-EOF error |
| Base64.TruncatedExample | transit_decrypt.go:102 | `QUJDRA` gives `ABC` and the unexpected-EOF error |
| Base64.DropNewlines | transit_decrypt.go:64 | the filtered text has no CR or LF, and text without them is left unchanged |
| Stream.StepReachable | stream.go:39-47 | one written byte keeps the extractor in a state a fresh one can reach (marker seen for the first time exactly at the end of `initiate`) |
| Stream.FeedByte | stream.go:29-48 | a write of one more byte either stops at the end byte after the marker or is one `Step` followed by the rest of the write, from a state that stays reachable |
| Stream.Feed | stream.go:28-52 | writing bytes keeps reachability, never restarts the search, only ever appends to the buffer, buffers nothing while looking, and stops only after the marker |
| Stream.FeedStarted | stream.go:30-38 | once started, a write buffers the bytes before the first end byte and stops exactly when there is one |
| Stream.MarkerEnd | stream.go:39-47 | reference definition: the shortest non-empty prefix that contains the marker |
| Stream.FeedLooking | stream.go:39-47 | a still-looking extractor starts exactly at the first prefix that contains the marker and then buffers up to the end byte |
| Stream.FeedFromFresh | stream.go:16-52 | a fresh extractor buffers nothing up to the marker's first occurrence and everything after it up to the first end byte |
| Stream.ExtractValue | stream.go:28-52 | for `a + marker + v + end + b` with the marker first there and no end byte in `v`, exactly `v` is buffered, and the write stops |
| Stream.ExtractUnterminated | stream.go:28-52 | a value that is never closed is buffered whole and the write does not stop |
| Stream.MarkerStartsAt | stream.go:44-46 | the marker's first occurrence after a prefix without it ends right after the marker |
| Stream.EmptyMarker | stream.go:45 | with an empty marker extraction starts after the first byte, which is not kept |
| Stream.FeedAppend | stream.go:28-52 | writing `a` then `b` equals writing `a + b` unless the first write stopped |
| Stream.CopyFeedFlatten | transit_encrypt.go:147-148 | copying a body chunk by chunk gives the same state and stop as one write of all its bytes |
| Stream.StreamInBetween.constructor | stream.go:16-22 | a fresh extractor with the given marker and end rune |
| Stream.StreamInBetween.Read | stream.go:24-26 | `bytes.Buffer.Read`: the first `size` buffered bytes are taken off; end of file exactly for an empty buffer and a non-empty read |
| Stream.StreamInBetween.Write | stream.go:28-52 | the new state is `Feed` of the old one; the count is 0 when the end byte was hit and the input length otherwise; reachability is kept |
| Stream.StreamInBetween.Absorb | stream.go:35-47 | a byte that does not end the value is one `Stream.Step`: buffered once the marker was seen, otherwise added to the searched bytes, with the value starting exactly when they first contain the marker |
| Stream.Copy | transit_encrypt.go:148-151 | `io.Copy` into an extractor: state as after one write of the whole body; short-write error exactly when it stopped, else the reader's failure |
| Opts.ApplyEffect | opts.go:38-66 | each library option sets its own field to its argument and leaves every other field as it was |
| Opts.WithHost | opts.go:38-42 | sets only `Host` |
| Opts.WithAPIVersion | opts.go:44-48 | sets only `VaultAPIVersion` |
| Opts.WithHttpClient | opts.go:50-54 | sets only `HTTPClient` |
| Opts.WithTransitEngine | opts.go:56-60 | sets only `TransitEngine` |
| Opts.WithKeyValueEngine | opts.go:62-66 | sets only `KeyValueEngine` |
| Opts.ApplyIdempotent | opts.go:38-66 | applying an option twice is applying it once |
| Opts.ApplyTwice | opts.go:38-66 | of two options on one field the later wins; options on different fields commute |
| Opts.Config.constructor | opts.go:9-19 | a `Config` holding the given field values |
| Opts.Config.Run | opts.go:29 | calling an option on a `*Config` updates it in place as `Apply` says |
| Forest.LastFor | forest.go:38-40 | an option of the list that targets the field, found exactly when some option targets it |
| Forest.LastForIsLast | forest.go:38-40 | no option after the one found targets the field: it is the last one applied to it |
| Forest.ApplyAllAppend | forest.go:38-40 | applying `a + b` is applying `a` then `b` |
| Forest.ApplyAllLast | forest.go:38-40 | for the library's options: the last option on a field decides it; a field no option names keeps its value; the token is never changed |
| Forest.Build | forest.go:29-45 | with the library's options, the built client keeps the token, and `BaseURL` is `Host + "/" + VaultAPIVersion` |
| Forest.DefaultsKept | forest.go:17-36 | a field no option names keeps its default: `http://localhost:8200`, `v1`, the default HTTP client, `kv`, `transit` |
| Forest.ApplyOptions | forest.go:38-40 | the option loop leaves the `Config` equal to all options applied in order |
| Forest.NewClient | forest.go:25-48 | the empty-token error exactly for the empty token; otherwise the client built from the defaults and the options |
| Forest.GetKVEngine | forest.go:51-53 | the configured key-value engine name, unchanged |
| Forest.GetTransitEngine | forest.go:56-58 | the configured transit engine name, unchanged |
| Forest.RequestGen | forest.go:60-69 | URL `BaseURL + path`, the verb and body given, and exactly the three headers: the client's token, `"true"`, `application/json` |
| Forest.RequestGenOverride | forest.go:71-80 | the same with the passed token as credential |
| Forest.OverrideDiffersOnlyInToken | forest.go:60-80 | the override request is the normal one with the token header replaced, and with the client's own token they coincide |
| TransitEncryption.EncryptResponseStream.constructor | transit_encrypt.go:40-44 | the zero value: fresh, no buffer allocated |
| TransitEncryption.EncryptResponseStream.Read | transit_encrypt.go:46-48 | reading needs the buffer a write allocated; then as `bytes.Buffer.Read` |
| TransitEncryption.EncryptResponseStream.Write | transit_encrypt.go:50-77 | allocates the buffer, then extracts exactly like the generic extractor with the ciphertext marker and the quote |
| TransitEncryption.EncryptResponseStream.Absorb | transit_encrypt.go:60-72 | a byte that does not end the value is one `Stream.Step` with the ciphertext marker |
| TransitEncryption.EncryptRequest | transit_encrypt.go:80-90 | POST to `BaseURL/<transit engine>/encrypt/<key>`; the plaintext field is the payload's base64, which decodes back to the payload |
| TransitEncryption.TransitEncrypt | transit_encrypt.go:80-109 | the transport error; else the service error from 400 on; else the ciphertext field, or the body decode error |
| TransitEncryption.EncryptStreamRequest | transit_encrypt.go:113-138 | POST to the same URL with the same headers as the whole request, with body `{"plaintext":"` + base64 + `"}` |
| TransitEncryption.TransitEncryptStream | transit_encrypt.go:113-153 | payload read failure, then transport failure, returned as is; otherwise a fresh extractor holding the ciphertext field of the body, with any copy failure but the short write returned |
| TransitEncryption.EnvelopeCarriesPayload | transit_encrypt.go:115-132 | reading the envelope's plaintext field gives exactly the encoded payload, which decodes to the payload |
| TransitEncryption.CiphertextExtracted | transit_encrypt.go:147-152 | a response whose ciphertext field is first found after `a` yields exactly that field, however it is chunked |
| TransitDecryption.DecryptRequest | transit_decrypt.go:37-47 | POST to `BaseURL/<transit engine>/decrypt/<key>` carrying the ciphertext trimmed of white space at its ends |
| TransitDecryption.TransitDecrypt | transit_decrypt.go:37-70 | transport error; service error from 400 on; the fixed decode-failure error for a field that is not base64; else the decoded bytes trimmed, which never start or end with white space |
| TransitDecryption.DecryptRoundTrip | transit_decrypt.go:64-69 | a service answering with the base64 of a payload gives back the trimmed payload |
| TransitDecryption.DecryptStreamRequest | transit_decrypt.go:74-88 | POST to the decrypt URL with body `{"ciphertext":"` + the raw ciphertext + `"}` |
| TransitDecryption.DecodingReader.constructor | transit_decrypt.go:102 | a decoder over the given extractor |
| TransitDecryption.DecodingReader.ReadAll | transit_decrypt.go:102 | draining the decoder empties the extractor and yields what `Base64.StreamDecode` makes of what it held: the decoding, the whole groups' bytes with the unexpected-EOF error, or the corrupt-input error |
| TransitDecryption.TransitDecryptStream | transit_decrypt.go:74-104 | ciphertext read failure, then transport failure, returned as is; otherwise a decoder over a fresh extractor holding the plaintext field, with any copy failure but the short write returned |
| TransitDecryption.CipherEnvelopeReading | transit_decrypt.go:77-87 | the unescaped ciphertext is read by the service up to its first quote: all of it exactly when it has none |
| TransitDecryption.DecryptStreamRoundTrip | transit_decrypt.go:97-103 | a response whose plaintext field holds the base64 of a payload makes the returned reader yield that payload, with no error |
| Durations.GoDiv | token_create.go:118 | division truncating toward zero: the quotient's bounds on each side of zero, and zero exactly strictly inside one divisor of zero |
| Subscription.EffectiveTimeout | subscribe.go:27-30 | `age` when at least five seconds; otherwise exactly five seconds |
| Subscription.EffectiveCallback | subscribe.go:31-33 | a nil callback becomes one that never asks to stop; a given one is kept |
| Subscription.Channel.constructor | subscribe.go:26 | a new channel: nothing sent, open |
| Subscription.Channel.Send | subscribe.go:64 | appends the value; only on an open channel |
| Subscription.Channel.Close | subscribe.go:35 | closes the channel; only once |
| Subscription.Watch | subscribe.go:34-70 | the goroutine sends exactly what `Subscribe` delivers, makes its fetches, and closes the channel exactly when the watcher ended |
| Subscription.DoneStep | subscribe.go:47-49 | a done context ends the watcher with what was delivered so far and no further fetch |
| Subscription.FailedStep | subscribe.go:53-61 | a failed fetch counts once; the callback either ends the watcher there or the loop goes on with the previous value kept |
| Subscription.FetchedStep | subscribe.go:53-66 | a fetched value counts once, is delivered exactly when it differs from the previous one, and becomes the previous one |
| Subscription.SubscribeKeyValue | subscribe.go:24-72 | a fresh channel, the clamped timeout, and the watcher run with the effective callback |
| Subscription.LoopChanges | subscribe.go:63-66 | the loop never sends the same value twice in a row, and its first send differs from the value seen before |
| Subscription.SubscribeChanges | subscribe.go:37-66 | the baseline is never sent first and consecutive sends differ |
| Subscription.LoopDeliversFetched | subscribe.go:53-66 | every value sent was fetched by some poll |
| Subscription.EndCuts | subscribe.go:47-59 | after a done context or a callback that asks to stop, nothing is fetched or sent, the rest of the observations do not matter, and the watcher has ended |
| Subscription.ForgivenFailure | subscribe.go:54-62 | a failed poll the callback forgives keeps `prev`: the same values are sent as without it |
| Subscription.AllFailed | subscribe.go:53-61 | polls that all fail and are all forgiven send nothing and leave the watcher polling |
| Subscription.AllFailedThen | subscribe.go:53-61 | forgiven failed polls send nothing and only add their fetches to what the following polls do |
| Subscription.CancelledPolls | subscribe.go:35-61 | with the default callback, a run of failed polls (what the cancelled loop contexts give) sends nothing; the channel stays open while polling goes on and is closed once the caller's context is done |
| Subscription.Example | subscribe.go:63-66 | baseline V1 with polls V1, V2, V2, V3 sends exactly V2 and then V3 |
| Subscription.NilBaseline | subscribe.go:37-45 | after a forgiven failed first fetch, the next value is sent exactly when it is non-empty |
| Subscription.InitialExit | subscribe.go:38-43 | a failed first fetch the callback does not forgive ends the watcher with nothing sent |
| TokenCreation.FormatInt | token_create.go:122 | a non-empty decimal text: a minus sign exactly for negative numbers, then only digits, with no leading zero |
| TokenCreation.FormatRoundTrip | token_create.go:122 | the decimal text parses back to the number |
| TokenCreation.HourText | token_create.go:119-124 | the text ends in `h`, and what precedes it reads back as the count, with zero written as one |
| TokenCreation.HoursString | token_create.go:117-126 | hours truncated toward zero, followed by `h`: one strictly inside one hour of zero, the whole hours from one hour up, a negative count from minus one hour down |
| TokenCreation.OneHourBand | token_create.go:117-126 | every duration strictly above minus one hour and below two hours gives `1h` |
| TokenCreation.WholeHours | token_create.go:117-126 | from one hour up the string is the decimal hour count plus `h`; from minus one hour down it is the count truncated toward zero, negative, plus `h` |
| TokenCreation.NewTokenParams | token_create.go:61-69 | renewable, display name `token`, the client's token, base URL and HTTP client, every other field at its zero value |
| TokenCreation.CreateTokenInstance.constructor | token_create.go:61-69 | `CreateNewToken` starts from those defaults |
| TokenCreation.CreateTokenInstance.WithID | token_create.go:72-75 | sets only `ID` and returns the receiver |
| TokenCreation.CreateTokenInstance.WithRoleName | token_create.go:78-81 | sets only `RoleName` and returns the receiver |
| TokenCreation.CreateTokenInstance.WithPolicies | token_create.go:84-87 | replaces (does not extend) `Policies` and returns the receiver |
| TokenCreation.CreateTokenInstance.WithMeta | token_create.go:90-93 | sets only `Meta` and returns the receiver |
| TokenCreation.CreateTokenInstance.WithCurrentTokenAsParent | token_create.go:97-100 | sets only `NoParent`, to the negation of its argument |
| TokenCreation.CreateTokenInstance.WithDefaultPolicy | token_create.go:103-106 | sets only `NoDefaultPolicy`, to the negation of its argument |
| TokenCreation.CreateTokenInstance.WithRenewableStatus | token_create.go:109-112 | sets only `Renewable` |
| TokenCreation.CreateTokenInstance.WithTimeToLive | token_create.go:117-126 | sets only `TTL`, to the hour string of the duration |
| TokenCreation.CreateTokenInstance.WithPeriod | token_create.go:131-140 | sets only `Period`, to the hour string of the duration |
| TokenCreation.CreateTokenInstance.WithSetAsBatchToken | token_create.go:143-146 | sets only `Type`, to `batch` |
| TokenCreation.CreateTokenInstance.WithSetAsServiceToken | token_create.go:149-152 | sets only `Type`, to `service` |
| TokenCreation.CreateTokenInstance.WithExplicitMaxTTL | token_create.go:156-165 | sets only `ExplicitMaxTTL`, to the hour string of the duration |
| TokenCreation.CreateTokenInstance.WithDisplayName | token_create.go:168-171 | sets only `DisplayName` |
| TokenCreation.CreateTokenInstance.WithNumberOfUses | token_create.go:174-177 | sets only `NumUses` |
| TokenCreation.CreateTokenInstance.WithEntityAlias | token_create.go:180-183 | sets only `EntityAlias` |
| TokenCreation.BatchThenService | token_create.go:143-152 | of the two type setters the later call decides the type |
| GlobalVault.Global.constructor | global_vault.go:10 | no client is stored at start |
| GlobalVault.Global.Init | global_vault.go:13-36 | the empty token is refused and the stored client kept; otherwise the client `NewClient` builds replaces it |
| GlobalVault.Global.CheckNil | global_vault.go:38-43 | the not-initialised error exactly when no client is stored |
| GlobalVault.Global.Gate | global_vault.go:48-53 | every gated wrapper: the not-initialised error exactly when no client is stored, else exactly the client method's result |
| GlobalVault.Global.TransitEncrypt | global_vault.go:82-87 | gated `TransitEncrypt` |
| GlobalVault.Global.TransitDecrypt | global_vault.go:90-95 | gated `TransitDecrypt` |
| GlobalVault.Global.TransitEncryptStream | global_vault.go:148-153 | gated `TransitEncryptStream` |
| GlobalVault.Global.TransitDecryptStream | global_vault.go:157-162 | gated `TransitDecryptStream` |
| GlobalVault.Global.CreateNewToken | global_vault.go:126-128 | the stored client's token builder with its defaults; no `checkNil`, so a stored client is required |
| GlobalVault.Global.GetConfigInstance | global_vault.go:193-195 | the stored client's configuration (a stored client is required) |
| GlobalVault.Global.GetKVEngine | global_vault.go:198-200 | the stored client's key-value engine (a stored client is required) |
| GlobalVault.Global.GetTransitEngine | global_vault.go:203-205 | the stored client's transit engine (a stored client is required) |
| GlobalVault.InitGates | global_vault.go:13-53 | before `Init` a gated call gets the not-initialised error; after a successful `Init` it reaches the client `NewClient` would build |

## Left out

- The HTTP round trip is the parameter `Transport`. The model claims nothing about what the
  service answers. A failure of `http.NewRequestWithContext` is folded into the transport's
  error.
- Response bodies are never closed in the model (the source defers `res.Body.Close()`).
- The JSON codec is left out:
  - Requests carry their fields as values (`EncryptJson`, `DecryptJson`) rather than as
    marshalled text. `json.Marshal` of these string fields cannot fail, so no error is
    modelled for it.
  - What decoding a response body gives is part of the `Response` value.
- `context.Context`, the goroutine, `time.Sleep` and the per-attempt timeouts are left out:
  - `Subscription.SubscribeKeyValue` computes the clamped timeout but claims nothing about
    its effect. The fetch outcomes and the done-context observations are inputs.
  - `Subscription.SubscribeKeyValue` runs the watcher only to the end of the given
    observations. Sends do not block, and a watcher that is still polling leaves the channel
    open.
- `Subscription.Watch`: the error callback is a pure function of the error. A Go callback
  with its own state is not modelled.
- Base64 is modelled on whole texts. The chunking of `base64.NewEncoder` and
  `base64.NewDecoder` is not modelled.
- `Forest.ApplyAllLast`: only the five library options (`WithHost`,
  `WithAPIVersion`, `WithHttpClient`, `WithTransitEngine`, `WithKeyValueEngine`) are
  modelled. `OptionFunc` is an exported function type (opts.go:29), so a caller's own option
  may assign any `Config` field, `Token` included. `NewClient` checks the token before it
  applies the options (forest.go:26-28, 38-40), so such an option can change or clear the
  built client's token. The claim that the token is kept holds for the library's options
  only.
- `Forest.Build`: `v.Config.Token == token` holds for the library's options only. A caller's
  own `OptionFunc` that assigns `Token` is not modelled.
- `TransitDecryption.DecodingReader.ReadAll`: on corrupt input it returns only the error.
  The bytes Go's decoder hands out before the bad group are not returned.
- `Base64.StreamDecode`: Go's decoder decodes what each read gives it, so padding that ends
  one read's whole groups is accepted even with more text behind it. The model decodes the
  whole text at once and calls that text corrupt.
- `TransitEncryption.EncryptResponseStream.Read`: in Go, a `Read` before any `Write`
  dereferences the nil buffer and panics. The model requires a write first.
- `Errors.Message`: it omits the byte offset that Go puts in the text of a corrupt-input
  error.
- `Bytes.TrimSpace`: it uses the ASCII white-space bytes (tab, LF, VT, FF, CR, space). The
  Unicode spaces that Go's `strings.TrimSpace` also removes are not modelled.
- In opts.go an HTTP client is an opaque identity. In token_create.go a nil `Meta` map or
  `Policies` slice is the empty one; JSON's `omitempty` treats them alike.
- Files that are not part of this model: key_value.go, policies.go, token_lookup.go,
  token_renew.go, token_revoke.go, and `Do`/`DoOverride` of token_create.go. The top-level
  wrappers that delegate to them are covered by `GlobalVault.Global.Gate`, which captures
  their shared check-then-delegate shape.
- `GlobalVault.Global.GetConfigInstance`: it requires a stored client, where the source
  dereferences a nil pointer. Nothing is claimed about that client's values beyond
  returning them.
