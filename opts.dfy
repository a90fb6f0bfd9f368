/** opts.go: the client configuration and the options that set its fields. */
module Opts {

  type APIVersion = string

  /** Version 2 is declared but the service does not offer it. */
  const V2: APIVersion := "v2"
  const V1: APIVersion := "v1"

  /** An `*http.Client`, known only by identity. */
  datatype HttpClient = DefaultClient | Custom(id: nat)

  /** The value of a `Config` struct. */
  datatype ConfigValue = ConfigValue(
    Token: string,
    Host: string,
    NoRenew: bool,
    NoRenewOnInitialize: bool,
    RenewTiming: string,
    VaultAPIVersion: APIVersion,
    HTTPClient: HttpClient,
    KeyValueEngine: string,
    TransitEngine: string)

  /** The library's own `OptionFunc`s (`WithHost` … `WithKeyValueEngine`), each named by the
      field its closure assigns and the value it assigns. A caller's own `OptionFunc` is
      not one of them. */
  datatype OptionFunc =
    | SetHost(host: string)
    | SetAPIVersion(version: APIVersion)
    | SetHttpClient(client: HttpClient)
    | SetTransitEngine(transit: string)
    | SetKeyValueEngine(kv: string)

  /** The `Config` fields a library option can assign. */
  datatype Setting = HostField | VersionField | ClientField | TransitField | KeyValueField

  function Target(o: OptionFunc): Setting
  {
    match o
    case SetHost(_) => HostField
    case SetAPIVersion(_) => VersionField
    case SetHttpClient(_) => ClientField
    case SetTransitEngine(_) => TransitField
    case SetKeyValueEngine(_) => KeyValueField
  }

  /** `c` holds in its target field the value `o` assigns. */
  predicate Holds(c: ConfigValue, o: OptionFunc)
  {
    match o
    case SetHost(h) => c.Host == h
    case SetAPIVersion(v) => c.VaultAPIVersion == v
    case SetHttpClient(h) => c.HTTPClient == h
    case SetTransitEngine(e) => c.TransitEngine == e
    case SetKeyValueEngine(e) => c.KeyValueEngine == e
  }

  /** `c` and `d` agree on field `f`. */
  predicate SameAt(c: ConfigValue, d: ConfigValue, f: Setting)
  {
    match f
    case HostField => c.Host == d.Host
    case VersionField => c.VaultAPIVersion == d.VaultAPIVersion
    case ClientField => c.HTTPClient == d.HTTPClient
    case TransitField => c.TransitEngine == d.TransitEngine
    case KeyValueField => c.KeyValueEngine == d.KeyValueEngine
  }

  /** Running the option's closure on a configuration. */
  function Apply(c: ConfigValue, o: OptionFunc): ConfigValue
  {
    match o
    case SetHost(h) => c.(Host := h)
    case SetAPIVersion(v) => c.(VaultAPIVersion := v)
    case SetHttpClient(h) => c.(HTTPClient := h)
    case SetTransitEngine(e) => c.(TransitEngine := e)
    case SetKeyValueEngine(e) => c.(KeyValueEngine := e)
  }

  /** An option makes its own field hold its value and leaves every other field alone. */
  lemma ApplyEffect(c: ConfigValue, o: OptionFunc)
    ensures Holds(Apply(c, o), o)
    ensures forall f :: f != Target(o) ==> SameAt(Apply(c, o), c, f)
    ensures Apply(c, o).Token == c.Token && Apply(c, o).NoRenew == c.NoRenew
    ensures Apply(c, o).NoRenewOnInitialize == c.NoRenewOnInitialize && Apply(c, o).RenewTiming == c.RenewTiming
  {
  }

  function WithHost(hostname: string): (o: OptionFunc)
    ensures forall c :: Apply(c, o) == c.(Host := hostname)
  {
    SetHost(hostname)
  }

  function WithAPIVersion(version: APIVersion): (o: OptionFunc)
    ensures forall c :: Apply(c, o) == c.(VaultAPIVersion := version)
  {
    SetAPIVersion(version)
  }

  function WithHttpClient(httpClient: HttpClient): (o: OptionFunc)
    ensures forall c :: Apply(c, o) == c.(HTTPClient := httpClient)
  {
    SetHttpClient(httpClient)
  }

  function WithTransitEngine(engine: string): (o: OptionFunc)
    ensures forall c :: Apply(c, o) == c.(TransitEngine := engine)
  {
    SetTransitEngine(engine)
  }

  function WithKeyValueEngine(engine: string): (o: OptionFunc)
    ensures forall c :: Apply(c, o) == c.(KeyValueEngine := engine)
  {
    SetKeyValueEngine(engine)
  }

  /** Applying an option twice is applying it once. */
  lemma ApplyIdempotent(c: ConfigValue, o: OptionFunc)
    ensures Apply(Apply(c, o), o) == Apply(c, o)
  {
  }

  /** Of two options on the same field the later one wins; options on different fields
      commute. */
  lemma ApplyTwice(c: ConfigValue, o1: OptionFunc, o2: OptionFunc)
    ensures Target(o1) == Target(o2) ==> Apply(Apply(c, o1), o2) == Apply(c, o2)
    ensures Target(o1) != Target(o2) ==> Apply(Apply(c, o1), o2) == Apply(Apply(c, o2), o1)
  {
  }

  /** A `*Config` that options update in place. */
  class Config {
    var Token: string
    var Host: string
    var NoRenew: bool
    var NoRenewOnInitialize: bool
    var RenewTiming: string
    var VaultAPIVersion: APIVersion
    var HTTPClient: HttpClient
    var KeyValueEngine: string
    var TransitEngine: string

    /** `*config`: the struct value the pointer currently points to. */
    function Value(): ConfigValue
      reads this
    {
      ConfigValue(Token, Host, NoRenew, NoRenewOnInitialize, RenewTiming, VaultAPIVersion,
                  HTTPClient, KeyValueEngine, TransitEngine)
    }

    /** `&Config{...}` from a composite literal. */
    constructor (init: ConfigValue)
      ensures Value() == init
    {
      Token, Host, NoRenew, NoRenewOnInitialize := init.Token, init.Host, init.NoRenew, init.NoRenewOnInitialize;
      RenewTiming, VaultAPIVersion, HTTPClient := init.RenewTiming, init.VaultAPIVersion, init.HTTPClient;
      KeyValueEngine, TransitEngine := init.KeyValueEngine, init.TransitEngine;
    }

    /** `opt(config)`: the option's closure assigns its one field. */
    method Run(o: OptionFunc)
      modifies this
      ensures Value() == Apply(old(Value()), o)
    {
      match o
      case SetHost(h) => Host := h;
      case SetAPIVersion(v) => VaultAPIVersion := v;
      case SetHttpClient(h) => HTTPClient := h;
      case SetTransitEngine(e) => TransitEngine := e;
      case SetKeyValueEngine(e) => KeyValueEngine := e;
    }
  }
}
