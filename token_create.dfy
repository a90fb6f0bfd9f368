/** token_create.go: building the parameters of a token-creation request. */
module TokenCreation {
  import opened Durations
  import opened Opts
  import opened Forest

  /** The character of a decimal digit. */
  function DigitChar(d: nat): (c: char)
    requires d < 10
    ensures '0' <= c <= '9' && c as int - '0' as int == d
  {
    ('0' as int + d) as char
  }

  /** The decimal digits of `n`, without leading zeros. */
  function Digits(n: nat): (s: string)
    ensures |s| >= 1 && '0' <= s[0] <= '9'
    ensures forall i :: 0 <= i < |s| ==> '0' <= s[i] <= '9'
    ensures |s| > 1 ==> s[0] != '0'
    decreases n
  {
    if n < 10 then [DigitChar(n)] else Digits(n / 10) + [DigitChar(n % 10)]
  }

  /** The value of a string of decimal digits. */
  function DigitsValue(s: string): nat
    decreases |s|
  {
    if s == [] then 0
    else
      var c := s[|s| - 1];
      DigitsValue(s[..|s| - 1]) * 10 + (if '0' <= c <= '9' then c as int - '0' as int else 0)
  }

  /** `strconv.FormatInt(n, 10)`. */
  function FormatInt(n: int): (s: string)
    ensures |s| >= 1
    ensures n < 0 <==> s[0] == '-'
    ensures var d := if n < 0 then s[1..] else s;
      |d| >= 1 && (forall i :: 0 <= i < |d| ==> '0' <= d[i] <= '9') && (|d| > 1 ==> d[0] != '0')
  {
    if n < 0 then "-" + Digits(-n) else Digits(n)
  }

  /** `strconv.ParseInt(s, 10, 64)` on what `FormatInt` produces. */
  function ParseInt(s: string): int
  {
    if |s| > 0 && s[0] == '-' then -(DigitsValue(s[1..]) as int) else DigitsValue(s)
  }

  lemma {:induction false} DigitsRoundTrip(n: nat)
    ensures DigitsValue(Digits(n)) == n
    decreases n
  {
    if n >= 10 {
      var s := Digits(n);
      assert s[..|s| - 1] == Digits(n / 10);
      DigitsRoundTrip(n / 10);
    }
  }

  /** Decimal formatting is undone by parsing. */
  lemma FormatRoundTrip(n: int)
    ensures ParseInt(FormatInt(n)) == n
  {
    if n < 0 {
      DigitsRoundTrip(-n);
      assert FormatInt(n)[1..] == Digits(-n);
    } else {
      DigitsRoundTrip(n);
    }
  }

  /** The text `n` followed by `h`, with zero written as one: what is left of it once the
      `h` is dropped parses back to the count. */
  function HourText(n: int): (r: string)
    ensures |r| >= 2 && r[|r| - 1] == 'h'
    ensures ParseInt(r[..|r| - 1]) == if n == 0 then 1 else n
  {
    var r := if n == 0 then "1h" else FormatInt(n) + "h";
    assert r[..|r| - 1] == if n == 0 then "1" else FormatInt(n);
    FormatRoundTrip(if n == 0 then 1 else n);
    r
  }

  /** The hour string of `WithTimeToLive`, `WithPeriod` and `WithExplicitMaxTTL`: the whole
      hours in `t`, truncated toward zero, followed by `h`; zero hours become one. */
  function HoursString(t: Duration): (r: string)
    ensures |r| >= 2 && r[|r| - 1] == 'h'
    ensures var h := ParseInt(r[..|r| - 1]);
      (-Hour < t < Hour ==> h == 1) &&
      (t >= Hour ==> h >= 1 && Hour * h <= t < Hour * (h + 1)) &&
      (t <= -Hour ==> h <= -1 && Hour * (h - 1) < t <= Hour * h)
  {
    HourBands(t);
    HourText(GoDiv(t, Hour))
  }

  /** The hour count `HourText` writes for `t`, with zero counted as one. */
  lemma HourBands(t: Duration)
    ensures var q := GoDiv(t, Hour); var h := if q == 0 then 1 else q;
      (-Hour < t < Hour ==> h == 1) &&
      (t >= Hour ==> h >= 1 && Hour * h <= t < Hour * (h + 1)) &&
      (t <= -Hour ==> h <= -1 && Hour * (h - 1) < t <= Hour * h)
  {
    var q := GoDiv(t, Hour);
    if t >= Hour {
      assert q != 0;
    } else if t <= -Hour {
      assert q != 0;
    }
  }

  /** Any duration from one hour up to but not including two gives "1h", and so does any
      duration strictly between minus one and one hour. */
  lemma OneHourBand(t: Duration)
    requires -Hour < t < 2 * Hour
    ensures HoursString(t) == "1h"
  {
    var q := GoDiv(t, Hour);
    if t >= Hour {
      assert q == 1;
      assert DigitChar(1) == '1';
      assert FormatInt(1) == "1";
    } else {
      assert q == 0;
    }
    assert HoursString(t) == HourText(q);
  }

  /** Rounding down to whole hours: from one hour on the string is the decimal count of
      whole hours; a duration of minus one hour or less gives a negative count. */
  lemma WholeHours(t: Duration)
    ensures t >= Hour ==> HoursString(t) == FormatInt(t / Hour) + "h"
    ensures t <= -Hour ==> HoursString(t)[0] == '-'
    ensures t <= -Hour ==> HoursString(t) == FormatInt(GoDiv(t, Hour)) + "h" && GoDiv(t, Hour) <= -1
  {
    HourBands(t);
  }

  /** The fields of a `CreateTokenInstance`, as a value. */
  datatype TokenParams = TokenParams(
    ID: string,
    RoleName: string,
    Policies: seq<string>,
    Meta: map<string, string>,
    NoParent: bool,
    NoDefaultPolicy: bool,
    Renewable: bool,
    TTL: string,
    Type: string,
    ExplicitMaxTTL: string,
    DisplayName: string,
    NumUses: Int64,
    EntityAlias: string,
    Period: string,
    authToken: string,
    baseURL: string,
    httpClient: HttpClient)

  /** What `CreateNewToken` starts from: renewable, named "token", with the client's token,
      base URL and HTTP client, every other field at its zero value. */
  function NewTokenParams(v: Vault): (p: TokenParams)
    ensures p.Renewable && p.DisplayName == "token"
    ensures p.authToken == v.Config.Token && p.baseURL == v.BaseURL && p.httpClient == v.Config.HTTPClient
    ensures p.ID == p.RoleName == p.TTL == p.Type == p.ExplicitMaxTTL == p.EntityAlias == p.Period == ""
    ensures p.Policies == [] && p.Meta == map[] && !p.NoParent && !p.NoDefaultPolicy && p.NumUses == 0
  {
    TokenParams("", "", [], map[], false, false, true, "", "", "", "token", 0, "", "",
                v.Config.Token, v.BaseURL, v.Config.HTTPClient)
  }

  /** `CreateTokenInstance`: each `With*` setter assigns its field in place and returns the
      receiver, so calls chain. */
  class CreateTokenInstance {
    var ID: string
    var RoleName: string
    var Policies: seq<string>
    var Meta: map<string, string>
    var NoParent: bool
    var NoDefaultPolicy: bool
    var Renewable: bool
    var TTL: string
    var Type: string
    var ExplicitMaxTTL: string
    var DisplayName: string
    var NumUses: Int64
    var EntityAlias: string
    var Period: string
    var authToken: string
    var baseURL: string
    var httpClient: HttpClient

    function Value(): TokenParams
      reads this
    {
      TokenParams(ID, RoleName, Policies, Meta, NoParent, NoDefaultPolicy, Renewable, TTL, Type,
                  ExplicitMaxTTL, DisplayName, NumUses, EntityAlias, Period, authToken, baseURL, httpClient)
    }

    /** `v.CreateNewToken()`. */
    constructor (v: Vault)
      ensures Value() == NewTokenParams(v)
    {
      ID, RoleName, Policies, Meta := "", "", [], map[];
      NoParent, NoDefaultPolicy, Renewable := false, false, true;
      TTL, Type, ExplicitMaxTTL, DisplayName := "", "", "", "token";
      NumUses, EntityAlias, Period := 0, "", "";
      authToken, baseURL, httpClient := v.Config.Token, v.BaseURL, v.Config.HTTPClient;
    }

    method WithID(id: string) returns (c: CreateTokenInstance)
      modifies this
      ensures c == this && Value() == old(Value()).(ID := id)
    {
      ID := id;
      c := this;
    }

    method WithRoleName(rolename: string) returns (c: CreateTokenInstance)
      modifies this
      ensures c == this && Value() == old(Value()).(RoleName := rolename)
    {
      RoleName := rolename;
      c := this;
    }

    /** Replaces the policies; it does not add to them. */
    method WithPolicies(policies: seq<string>) returns (c: CreateTokenInstance)
      modifies this
      ensures c == this && Value() == old(Value()).(Policies := policies)
    {
      Policies := policies;
      c := this;
    }

    method WithMeta(metadata: map<string, string>) returns (c: CreateTokenInstance)
      modifies this
      ensures c == this && Value() == old(Value()).(Meta := metadata)
    {
      Meta := metadata;
      c := this;
    }

    method WithCurrentTokenAsParent(b: bool) returns (c: CreateTokenInstance)
      modifies this
      ensures c == this && Value() == old(Value()).(NoParent := !b)
    {
      NoParent := !b;
      c := this;
    }

    method WithDefaultPolicy(b: bool) returns (c: CreateTokenInstance)
      modifies this
      ensures c == this && Value() == old(Value()).(NoDefaultPolicy := !b)
    {
      NoDefaultPolicy := !b;
      c := this;
    }

    method WithRenewableStatus(b: bool) returns (c: CreateTokenInstance)
      modifies this
      ensures c == this && Value() == old(Value()).(Renewable := b)
    {
      Renewable := b;
      c := this;
    }

    method WithTimeToLive(t: Duration) returns (c: CreateTokenInstance)
      modifies this
      ensures c == this && Value() == old(Value()).(TTL := HoursString(t))
    {
      var h := GoDiv(t, Hour);
      if h == 0 {
        TTL := "1h";
      } else {
        TTL := FormatInt(h) + "h";
      }
      c := this;
    }

    method WithPeriod(t: Duration) returns (c: CreateTokenInstance)
      modifies this
      ensures c == this && Value() == old(Value()).(Period := HoursString(t))
    {
      var h := GoDiv(t, Hour);
      if h == 0 {
        Period := "1h";
      } else {
        Period := FormatInt(h) + "h";
      }
      c := this;
    }

    method WithSetAsBatchToken() returns (c: CreateTokenInstance)
      modifies this
      ensures c == this && Value() == old(Value()).(Type := "batch")
    {
      Type := "batch";
      c := this;
    }

    method WithSetAsServiceToken() returns (c: CreateTokenInstance)
      modifies this
      ensures c == this && Value() == old(Value()).(Type := "service")
    {
      Type := "service";
      c := this;
    }

    method WithExplicitMaxTTL(t: Duration) returns (c: CreateTokenInstance)
      modifies this
      ensures c == this && Value() == old(Value()).(ExplicitMaxTTL := HoursString(t))
    {
      var h := GoDiv(t, Hour);
      if h == 0 {
        ExplicitMaxTTL := "1h";
      } else {
        ExplicitMaxTTL := FormatInt(h) + "h";
      }
      c := this;
    }

    method WithDisplayName(s: string) returns (c: CreateTokenInstance)
      modifies this
      ensures c == this && Value() == old(Value()).(DisplayName := s)
    {
      DisplayName := s;
      c := this;
    }

    method WithNumberOfUses(i: Int64) returns (c: CreateTokenInstance)
      modifies this
      ensures c == this && Value() == old(Value()).(NumUses := i)
    {
      NumUses := i;
      c := this;
    }

    method WithEntityAlias(s: string) returns (c: CreateTokenInstance)
      modifies this
      ensures c == this && Value() == old(Value()).(EntityAlias := s)
    {
      EntityAlias := s;
      c := this;
    }
  }

  /** Of the two token-type setters, the one called last decides the type, and nothing
      else is changed. */
  method BatchThenService(c: CreateTokenInstance) returns (r: CreateTokenInstance)
    modifies c
    ensures r == c && c.Value() == old(c.Value()).(Type := "service")
  {
    var b := c.WithSetAsBatchToken();
    r := b.WithSetAsServiceToken();
  }
}
