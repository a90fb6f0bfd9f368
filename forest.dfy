/** forest.go: building a client and the requests it sends. */
module Forest {
  import opened Wrappers
  import opened Errors
  import opened Http
  import opened Opts

  /** A `Vault` client. Nothing changes its fields once it is built. */
  datatype Vault = Vault(BaseURL: string, Config: ConfigValue)

  const DefaultHost := "http://localhost:8200"
  const DefaultTransitEngine := "transit"
  const DefaultKeyValueEngine := "kv"

  const TokenHeader := "X-Vault-Token"
  const RequestHeader := "X-Vault-Request"
  const ContentTypeHeader := "Content-Type"

  /** The configuration literal every client starts from. */
  function DefaultConfig(token: string): ConfigValue
  {
    ConfigValue(token, DefaultHost, false, false, "", V1, DefaultClient, DefaultKeyValueEngine, DefaultTransitEngine)
  }

  /** The options applied in order, first to last. */
  function ApplyAll(c: ConfigValue, opts: seq<OptionFunc>): ConfigValue
    decreases |opts|
  {
    if opts == [] then c else ApplyAll(Apply(c, opts[0]), opts[1..])
  }

  /** The last option of `opts` that assigns field `f`, if any. */
  function LastFor(opts: seq<OptionFunc>, f: Setting): (r: Option<OptionFunc>)
    ensures r.None? <==> forall i :: 0 <= i < |opts| ==> Target(opts[i]) != f
    ensures r.Some? ==> Target(r.value) == f && r.value in opts
    decreases |opts|
  {
    if opts == [] then None
    else if Target(opts[|opts| - 1]) == f then Some(opts[|opts| - 1])
    else
      var init := opts[..|opts| - 1];
      assert forall i :: 0 <= i < |init| ==> init[i] == opts[i];
      LastFor(init, f)
  }

  /** What `LastFor` finds sits at a position after which no option assigns `f`. */
  lemma {:induction false} LastForIsLast(opts: seq<OptionFunc>, f: Setting)
    ensures LastFor(opts, f).Some? ==>
              exists i :: 0 <= i < |opts| && opts[i] == LastFor(opts, f).value &&
                          forall j :: i < j < |opts| ==> Target(opts[j]) != f
    decreases |opts|
  {
    if opts != [] && Target(opts[|opts| - 1]) != f {
      var init := opts[..|opts| - 1];
      LastForIsLast(init, f);
      if LastFor(init, f).Some? {
        var i :| 0 <= i < |init| && init[i] == LastFor(init, f).value &&
                 forall j :: i < j < |init| ==> Target(init[j]) != f;
        assert opts[i] == init[i];
        assert forall j :: i < j < |opts| ==> Target(opts[j]) != f by {
          forall j | i < j < |opts| ensures Target(opts[j]) != f {
            if j < |init| {
              assert opts[j] == init[j];
            }
          }
        }
      }
    } else if opts != [] {
      assert opts[|opts| - 1] == LastFor(opts, f).value;
    }
  }

  lemma {:induction false} ApplyAllAppend(c: ConfigValue, a: seq<OptionFunc>, b: seq<OptionFunc>)
    ensures ApplyAll(c, a + b) == ApplyAll(ApplyAll(c, a), b)
    decreases |a|
  {
    if a == [] {
      assert a + b == b;
    } else {
      assert (a + b)[0] == a[0] && (a + b)[1..] == a[1..] + b;
      ApplyAllAppend(Apply(c, a[0]), a[1..], b);
    }
  }

  /** Left to right, so the last option on a field decides it; a field no option names
      keeps its value; the token and the renewal fields are never changed by a library option. */
  lemma {:induction false} ApplyAllLast(c: ConfigValue, opts: seq<OptionFunc>, f: Setting)
    ensures LastFor(opts, f).Some? ==> Holds(ApplyAll(c, opts), LastFor(opts, f).value)
    ensures LastFor(opts, f).None? ==> SameAt(ApplyAll(c, opts), c, f)
    ensures ApplyAll(c, opts).Token == c.Token && ApplyAll(c, opts).NoRenew == c.NoRenew
    ensures ApplyAll(c, opts).NoRenewOnInitialize == c.NoRenewOnInitialize
    ensures ApplyAll(c, opts).RenewTiming == c.RenewTiming
    decreases |opts|
  {
    if opts != [] {
      var init, last := opts[..|opts| - 1], opts[|opts| - 1];
      assert opts == init + [last];
      ApplyAllAppend(c, init, [last]);
      var mid := ApplyAll(c, init);
      assert ApplyAll(c, opts) == Apply(mid, last);
      ApplyAllLast(c, init, f);
      ApplyEffect(mid, last);
      if Target(last) == f {
        assert LastFor(opts, f) == Some(last);
      } else {
        assert opts[..|opts| - 1] == init;
        assert LastFor(opts, f) == LastFor(init, f);
        assert SameAt(Apply(mid, last), mid, f);
        KeepsField(Apply(mid, last), mid, c, f, LastFor(init, f));
      }
    }
  }

  /** A field that stays the same keeps what held on it, or what it held before. */
  lemma KeepsField(a: ConfigValue, b: ConfigValue, c: ConfigValue, f: Setting, last: Option<OptionFunc>)
    requires SameAt(a, b, f)
    requires last.Some? ==> Target(last.value) == f && Holds(b, last.value)
    requires last.None? ==> SameAt(b, c, f)
    ensures last.Some? ==> Holds(a, last.value)
    ensures last.None? ==> SameAt(a, c, f)
  {
  }

  /** `fmt.Sprintf("%s/%s", Host, VaultAPIVersion)`. */
  function BaseURL(c: ConfigValue): string
  {
    c.Host + "/" + c.VaultAPIVersion
  }

  /** The client `NewClient(token, opts...)` and `Init(token, opts...)` build. */
  function Build(token: string, opts: seq<OptionFunc>): (v: Vault)
    ensures v.Config.Token == token
    ensures v.BaseURL == v.Config.Host + "/" + v.Config.VaultAPIVersion
  {
    var c := ApplyAll(DefaultConfig(token), opts);
    ApplyAllLast(DefaultConfig(token), opts, HostField);
    Vault(BaseURL(c), c)
  }

  /** The loop `for _, opt := range opts { opt(config) }`. */
  method ApplyOptions(config: Config, opts: seq<OptionFunc>)
    modifies config
    ensures config.Value() == ApplyAll(old(config.Value()), opts)
  {
    ghost var start := config.Value();
    var i := 0;
    while i < |opts|
      invariant 0 <= i <= |opts|
      invariant ApplyAll(start, opts) == ApplyAll(config.Value(), opts[i..])
    {
      assert opts[i..][1..] == opts[i + 1..];
      config.Run(opts[i]);
      i := i + 1;
    }
  }

  /** `NewClient(token, opts...)`: an empty token is refused; otherwise the defaults with
      the options applied in order. */
  method NewClient(token: string, opts: seq<OptionFunc>) returns (r: Result<Vault, Error>)
    ensures token == "" <==> r == Err(EmptyToken)
    ensures token != "" ==> r == Ok(Build(token, opts))
  {
    if token == "" {
      return Err(EmptyToken);
    }
    var config := new Config(DefaultConfig(token));
    ApplyOptions(config, opts);
    var c := config.Value();
    r := Ok(Vault(BaseURL(c), c));
  }

  /** A client built without an option on a field has the default there. */
  lemma DefaultsKept(token: string, opts: seq<OptionFunc>)
    ensures LastFor(opts, HostField).None? ==> Build(token, opts).Config.Host == DefaultHost
    ensures LastFor(opts, VersionField).None? ==> Build(token, opts).Config.VaultAPIVersion == V1
    ensures LastFor(opts, ClientField).None? ==> Build(token, opts).Config.HTTPClient == DefaultClient
    ensures LastFor(opts, KeyValueField).None? ==> GetKVEngine(Build(token, opts)) == DefaultKeyValueEngine
    ensures LastFor(opts, TransitField).None? ==> GetTransitEngine(Build(token, opts)) == DefaultTransitEngine
  {
    var d := DefaultConfig(token);
    ApplyAllLast(d, opts, HostField);
    ApplyAllLast(d, opts, VersionField);
    ApplyAllLast(d, opts, ClientField);
    ApplyAllLast(d, opts, KeyValueField);
    ApplyAllLast(d, opts, TransitField);
  }

  function GetKVEngine(v: Vault): (e: string)
    ensures e == v.Config.KeyValueEngine
  {
    v.Config.KeyValueEngine
  }

  function GetTransitEngine(v: Vault): (e: string)
    ensures e == v.Config.TransitEngine
  {
    v.Config.TransitEngine
  }

  /** The headers every request carries, with `token` as the credential. */
  function Headers(token: string): map<string, string>
  {
    map[TokenHeader := token, RequestHeader := "true", ContentTypeHeader := "application/json"]
  }

  /** `requestGen`: the client's own token as credential. */
  function RequestGen(v: Vault, verb: string, path: string, body: Body): (r: Request)
    ensures r.url == v.BaseURL + path && r.verb == verb && r.body == body
    ensures r.header.Keys == {TokenHeader, RequestHeader, ContentTypeHeader}
    ensures r.header[TokenHeader] == v.Config.Token && r.header[RequestHeader] == "true"
    ensures r.header[ContentTypeHeader] == "application/json"
  {
    Request(verb, v.BaseURL + path, Headers(v.Config.Token), body)
  }

  /** `requestGenOverride`: the same request with `token` as credential. */
  function RequestGenOverride(v: Vault, verb: string, path: string, token: string, body: Body): (r: Request)
    ensures r.url == v.BaseURL + path && r.verb == verb && r.body == body
    ensures r.header.Keys == {TokenHeader, RequestHeader, ContentTypeHeader}
    ensures r.header[TokenHeader] == token && r.header[RequestHeader] == "true"
    ensures r.header[ContentTypeHeader] == "application/json"
  {
    Request(verb, v.BaseURL + path, Headers(token), body)
  }

  /** The two request builders differ only in the credential header. */
  lemma OverrideDiffersOnlyInToken(v: Vault, verb: string, path: string, token: string, body: Body)
    ensures RequestGenOverride(v, verb, path, token, body) ==
            RequestGen(v, verb, path, body).(header := RequestGen(v, verb, path, body).header[TokenHeader := token])
    ensures RequestGenOverride(v, verb, path, v.Config.Token, body) == RequestGen(v, verb, path, body)
  {
  }
}
