/** global_vault.go: the package-level client behind the top-level functions. */
module GlobalVault {
  import opened Wrappers
  import opened Bytes
  import opened Errors
  import opened Io
  import opened Http
  import opened Stream
  import opened Opts
  import opened Forest
  import opened TransitEncryption
  import opened TransitDecryption
  import opened TokenCreation

  /** The package state: `gVault`, nil until `Init` succeeds. */
  class Global {
    var gVault: Option<Vault>

    /** The state at program start. */
    constructor ()
      ensures gVault.None?
    {
      gVault := None;
    }

    /** `Init(token, opts...)`: an empty token is refused and nothing changes; otherwise the
        client `NewClient` would build replaces whatever was stored. */
    method Init(token: string, opts: seq<OptionFunc>) returns (err: Option<Error>)
      modifies this
      ensures token == "" ==> err == Some(EmptyToken) && gVault == old(gVault)
      ensures token != "" ==> err == None && gVault == Some(Build(token, opts))
    {
      if token == "" {
        return Some(EmptyToken);
      }
      var config := new Config(DefaultConfig(token));
      ApplyOptions(config, opts);
      var c := config.Value();
      gVault := Some(Vault(BaseURL(c), c));
      err := None;
    }

    /** `checkNil`: the not-initialised error exactly when no client is stored. */
    function CheckNil(): (r: Option<Error>)
      reads this
      ensures r.Some? <==> gVault.None?
      ensures r.Some? ==> r.value == NotInitialized
    {
      if gVault.None? then Some(NotInitialized) else None
    }

    /** The shape of every gated wrapper: `checkNil`'s error without calling anything, or
        exactly what the stored client's method gives. */
    function Gate<T>(call: Vault -> Result<T, Error>): (r: Result<T, Error>)
      reads this
      ensures CheckNil().Some? <==> r == Err(NotInitialized) && gVault.None?
      ensures gVault.Some? ==> r == call(gVault.value)
    {
      match CheckNil()
      case Some(e) => Err(e)
      case None => call(gVault.value)
    }

    /** The top-level `TransitEncrypt`. */
    function TransitEncrypt(key: string, payload: seq<Byte>, send: Transport): (r: Result<seq<Byte>, Error>)
      reads this
      ensures gVault.None? ==> r == Err(NotInitialized)
      ensures gVault.Some? ==> r == TransitEncryption.TransitEncrypt(gVault.value, key, payload, send)
    {
      Gate(v => TransitEncryption.TransitEncrypt(v, key, payload, send))
    }

    /** The top-level `TransitDecrypt`. */
    function TransitDecrypt(key: string, cipherText: seq<Byte>, send: Transport): (r: Result<seq<Byte>, Error>)
      reads this
      ensures gVault.None? ==> r == Err(NotInitialized)
      ensures gVault.Some? ==> r == TransitDecryption.TransitDecrypt(gVault.value, key, cipherText, send)
    {
      Gate(v => TransitDecryption.TransitDecrypt(v, key, cipherText, send))
    }

    /** The top-level `TransitEncryptStream`. */
    method TransitEncryptStream(key: string, payload: Reader, send: Transport)
      returns (cipher: StreamInBetween?, err: Option<Error>)
      ensures gVault.None? ==> cipher == null && err == Some(NotInitialized)
      ensures gVault.Some? ==> EncryptStreamResult(gVault.value, key, payload, send, cipher, err)
      ensures cipher != null ==> fresh(cipher)
    {
      err := CheckNil();
      if err.Some? {
        return null, err;
      }
      cipher, err := TransitEncryption.TransitEncryptStream(gVault.value, key, payload, send);
    }

    /** The top-level `TransitDecryptStream`. */
    method TransitDecryptStream(key: string, cipher: Reader, send: Transport)
      returns (payload: DecodingReader?, err: Option<Error>)
      ensures gVault.None? ==> payload == null && err == Some(NotInitialized)
      ensures gVault.Some? ==> DecryptStreamResult(gVault.value, key, cipher, send, payload, err)
      ensures payload != null ==> fresh(payload) && fresh(payload.source)
    {
      err := CheckNil();
      if err.Some? {
        return null, err;
      }
      payload, err := TransitDecryption.TransitDecryptStream(gVault.value, key, cipher, send);
    }

    /** The top-level `CreateNewToken`: it does not check for a client, so one must be stored. */
    method CreateNewToken() returns (c: CreateTokenInstance)
      requires gVault.Some?
      ensures fresh(c) && c.Value() == NewTokenParams(gVault.value)
    {
      c := new CreateTokenInstance(gVault.value);
    }

    /** `GetConfigInstance`: the stored client's configuration (no `checkNil`). */
    function GetConfigInstance(): (c: ConfigValue)
      requires gVault.Some?
      reads this
      ensures c == gVault.value.Config
    {
      gVault.value.Config
    }

    /** The top-level `GetKVEngine` (no `checkNil`). */
    function GetKVEngine(): (e: string)
      requires gVault.Some?
      reads this
      ensures e == Forest.GetKVEngine(gVault.value)
    {
      gVault.value.Config.KeyValueEngine
    }

    /** The top-level `GetTransitEngine` (no `checkNil`). */
    function GetTransitEngine(): (e: string)
      requires gVault.Some?
      reads this
      ensures e == Forest.GetTransitEngine(gVault.value)
    {
      gVault.value.Config.TransitEngine
    }
  }

  /** Before `Init`, every gated call fails with the not-initialised error; after a
      successful one, every gated call reaches the client `NewClient` would build. */
  method InitGates(token: string, opts: seq<OptionFunc>, call: Vault -> Result<seq<Byte>, Error>)
    returns (before: Result<seq<Byte>, Error>, after: Result<seq<Byte>, Error>)
    requires token != ""
    ensures before == Err(NotInitialized)
    ensures after == call(Build(token, opts))
  {
    var g := new Global();
    before := g.Gate(call);
    var err := g.Init(token, opts);
    after := g.Gate(call);
  }
}
