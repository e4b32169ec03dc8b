/** The lit.dev environment configurations (dev, local, pr, prod) and the
    helpers that read them from the process environment. The process
    environment is a parameter: a map from variable names to values. */
module LitDevEnvironments {
  import opened Wrappers

  type ProcessEnv = map<string, string>

  /** Why reading the configuration failed, with the variable's value as it
      was seen (absent or present); the source puts that value in the error
      message. */
  datatype EnvError =
    | NotAnInteger(name: string, value: Option<string>)
    | NotAUrl(name: string, value: Option<string>)
    | UnknownEnvironment(value: Option<string>)

  /** Reading `process.env[name]`. The ensures spell out the body, for the
      lemmas about `IntegerEnv` and `UrlEnv` to use. */
  function Lookup(env: ProcessEnv, name: string): (r: Option<string>)
    ensures r.Some? <==> name in env
    ensures r.Some? ==> r.value == env[name]
  {
    if name in env then Some(env[name]) else None
  }

  // ---------------------------------------------------------------------
  // integerEnv

  predicate IsDigit(c: char) {
    '0' <= c <= '9'
  }

  /** A match of /^\d+$/: one or more ASCII digits and nothing else. */
  predicate IsDecimal(s: string) {
    s != [] && forall i :: 0 <= i < |s| ==> IsDigit(s[i])
  }

  function DigitValue(c: char): (d: nat)
    requires IsDigit(c)
  {
    (c as int) - ('0' as int)
  }

  /** `Number(s)` for a string of digits: its decimal value, leading zeros
      included. */
  function DecimalValue(s: string): (n: nat)
    requires forall i :: 0 <= i < |s| ==> IsDigit(s[i])
  {
    if s == [] then 0 else DecimalValue(s[..|s| - 1]) * 10 + DigitValue(s[|s| - 1])
  }

  /** `integerEnv(name)`: the variable's value as a number, or an error
      when it is absent, empty or not made of digits only. */
  function IntegerEnv(env: ProcessEnv, name: string): (r: Result<nat, EnvError>)
    ensures r.Ok? <==> name in env && IsDecimal(env[name])
    ensures r.Ok? ==> r.value == DecimalValue(env[name])
    ensures r.Err? ==> r.error == NotAnInteger(name, Lookup(env, name))
  {
    var val := Lookup(env, name);
    if val.None? || val.value == "" || !IsDecimal(val.value) then
      Err(NotAnInteger(name, val))
    else
      Ok(DecimalValue(val.value))
  }

  function DigitChar(d: nat): (c: char)
    requires d < 10
    ensures IsDigit(c) && DigitValue(c) == d
  {
    ('0' as int + d) as char
  }

  /** How a number is written in a template literal: decimal, no leading
      zeros. */
  function NatToDecimal(n: nat): (s: string)
    ensures IsDecimal(s)
    decreases n
  {
    if n < 10 then [DigitChar(n)] else NatToDecimal(n / 10) + [DigitChar(n % 10)]
  }

  lemma {:induction false} DecimalValueOfNatToDecimal(n: nat)
    ensures DecimalValue(NatToDecimal(n)) == n
    decreases n
  {
    var s := NatToDecimal(n);
    if n >= 10 {
      assert s[..|s| - 1] == NatToDecimal(n / 10);
      DecimalValueOfNatToDecimal(n / 10);
    }
  }

  /** A port written out in decimal reads back as that port. */
  lemma IntegerEnvRoundTrip(env: ProcessEnv, name: string, n: nat)
    ensures IntegerEnv(env[name := NatToDecimal(n)], name) == Ok(n)
  {
    DecimalValueOfNatToDecimal(n);
  }

  lemma {:induction false} LeadingZeroIgnored(s: string)
    requires forall i :: 0 <= i < |s| ==> IsDigit(s[i])
    ensures DecimalValue("0" + s) == DecimalValue(s)
    decreases |s|
  {
    var t := "0" + s;
    if s != [] {
      assert t[..|t| - 1] == "0" + s[..|s| - 1];
      LeadingZeroIgnored(s[..|s| - 1]);
    }
  }

  // ---------------------------------------------------------------------
  // urlEnv

  /** `urlEnv(name)`. Whether a string parses as an absolute URL is the
      `URL` constructor's business and a parameter here; an absent variable
      is tried as the empty string, which is never an absolute URL. */
  function UrlEnv(env: ProcessEnv, name: string, isUrl: string -> bool): (r: Result<string, EnvError>)
    ensures r.Ok? <==> name in env && isUrl(env[name])
    ensures r.Ok? ==> r.value == env[name]
    ensures r.Err? ==> r.error == NotAUrl(name, Lookup(env, name))
  {
    var val := Lookup(env, name);
    if val.Some? && isUrl(val.value) then Ok(val.value) else Err(NotAUrl(name, val))
  }

  // ---------------------------------------------------------------------
  // The four configurations

  const TestGoogleAnalyticsId := "G-PPMSZR9W18"
  const ProdGoogleAnalyticsId := "G-FTZ6CJP9F3"
  const FakeGithubClientId := "FAKE_CLIENT_ID"
  const FakeGithubClientSecret := "FAKE_CLIENT_SECRET"
  const ProdPlaygroundSandboxUrl := "https://playground.lit.dev/"

  datatype EleventyMode = EleventyDev | EleventyProd

  /** The configurations. The properties the source computes in getters
      read the process environment when they are read, so here they take it
      as a parameter. */
  datatype Environment = Dev | Local | Pr | Prod {
    function Key(): (k: string) {
      match this
      case Dev => "dev"
      case Local => "local"
      case Pr => "pr"
      case Prod => "prod"
    }

    /** Whether this configuration runs everything on fixed local ports. */
    predicate IsLocal() {
      this == Dev || this == Local
    }

    function MainPort(env: ProcessEnv): (port: Result<nat, EnvError>) {
      match this
      case Dev => Ok(5415)
      case Local => Ok(6415)
      case _ => IntegerEnv(env, "PORT")
    }

    function PlaygroundPort(env: ProcessEnv): (port: Result<nat, EnvError>) {
      match this
      case Dev => Ok(5416)
      case Local => Ok(6416)
      case _ => IntegerEnv(env, "PORT")
    }

    function FakeGithubPort(): (port: Option<nat>) {
      match this
      case Dev => Some(5417)
      case Local => Some(6417)
      case _ => None
    }

    function Mode(): (mode: EleventyMode) {
      if this == Dev then EleventyDev else EleventyProd
    }

    function EleventyOutDir(): (dir: string) {
      if this == Dev then "_dev" else "_site"
    }

    function GoogleAnalyticsId(): (id: string) {
      if this == Prod then ProdGoogleAnalyticsId else TestGoogleAnalyticsId
    }

    function ReportCspViolations(): (report: bool) {
      this == Prod
    }

    function PlaygroundSandboxUrl(env: ProcessEnv, isUrl: string -> bool): (url: Result<string, EnvError>) {
      match this
      case Pr => UrlEnv(env, "PLAYGROUND_SANDBOX", isUrl)
      case Prod => Ok(ProdPlaygroundSandboxUrl)
      case _ => Ok(LocalhostUrl(PlaygroundPort(env).value, "/"))
    }

    function GithubMainUrl(): (url: Option<string>) {
      if IsLocal() then Some(LocalhostUrl(FakeGithubPort().value, "/")) else None
    }

    /** The fake GitHub server answers both github.com and api.github.com. */
    function GithubApiUrl(): (url: Option<string>) {
      GithubMainUrl()
    }

    function GithubAuthorizeRedirectUrl(env: ProcessEnv): (url: Option<string>) {
      if IsLocal() then Some(LocalhostUrl(MainPort(env).value, "/playground/signin/")) else None
    }

    function GithubClientId(): (id: Option<string>) {
      if IsLocal() then Some(FakeGithubClientId) else None
    }

    function GithubClientSecret(): (secret: Option<string>) {
      if IsLocal() then Some(FakeGithubClientSecret) else None
    }
  }

  /** `http://localhost:${port}` followed by a path. */
  function LocalhostUrl(port: nat, path: string): (url: string) {
    "http://localhost:" + NatToDecimal(port) + path
  }

  const EnvVariable := "LITDEV_ENV"

  /** `getEnvironment()`: the configuration whose key is the value of
      LITDEV_ENV, and an error for any other value or none. */
  function GetEnvironment(env: ProcessEnv): (r: Result<Environment, EnvError>)
    ensures r.Ok? ==> Lookup(env, EnvVariable) == Some(r.value.Key())
    ensures r.Err? ==> r.error == UnknownEnvironment(Lookup(env, EnvVariable))
  {
    var name := Lookup(env, EnvVariable).GetOr("");
    if name == "dev" then Ok(Dev)
    else if name == "local" then Ok(Local)
    else if name == "pr" then Ok(Pr)
    else if name == "prod" then Ok(Prod)
    else Err(UnknownEnvironment(Lookup(env, EnvVariable)))
  }

  /** Every configuration can be selected by its key, and by nothing else. */
  lemma GetEnvironmentRoundTrip(env: ProcessEnv, e: Environment)
    ensures GetEnvironment(env[EnvVariable := e.Key()]) == Ok(e)
  {
  }

  lemma GetEnvironmentWithoutVariable(env: ProcessEnv)
    requires EnvVariable !in env
    ensures GetEnvironment(env) == Err(UnknownEnvironment(None))
  {
  }

  // ---------------------------------------------------------------------
  // Properties of the configurations

  /** Dev and local serve the playground sandbox and the fake GitHub server
      from localhost on their fixed ports. */
  lemma LocalUrls(e: Environment, env: ProcessEnv, isUrl: string -> bool)
    requires e.IsLocal()
    ensures e.PlaygroundSandboxUrl(env, isUrl) == Ok(LocalhostUrl(e.PlaygroundPort(env).value, "/"))
    ensures e.GithubMainUrl() == Some(LocalhostUrl(e.FakeGithubPort().value, "/"))
    ensures e.GithubApiUrl() == e.GithubMainUrl()
    ensures e.GithubAuthorizeRedirectUrl(env) == Some(LocalhostUrl(e.MainPort(env).value, "/playground/signin/"))
  {
  }

  lemma DevPlaygroundPortWritten()
    ensures NatToDecimal(5416) == "5416"
  {
    assert DigitChar(5) == '5' && DigitChar(4) == '4' && DigitChar(1) == '1' && DigitChar(6) == '6';
    assert NatToDecimal(54) == NatToDecimal(5) + "4";
    assert NatToDecimal(541) == NatToDecimal(54) + "1";
    assert NatToDecimal(5416) == NatToDecimal(541) + "6";
  }

  lemma DevSandboxUrl(env: ProcessEnv, isUrl: string -> bool)
    ensures Dev.PlaygroundSandboxUrl(env, isUrl) == Ok("http://localhost:5416/")
  {
    DevPlaygroundPortWritten();
    assert "http://localhost:" + "5416" + "/" == "http://localhost:5416/";
  }

  /** The three local ports of a configuration differ, and dev and local use
      different ports, so both can run side by side. */
  lemma LocalPortsDistinct(env: ProcessEnv)
    ensures forall e: Environment :: e.IsLocal() ==>
      e.MainPort(env).Ok? && e.PlaygroundPort(env).Ok? && e.FakeGithubPort().Some?
      && e.MainPort(env).value != e.PlaygroundPort(env).value
      && e.MainPort(env).value != e.FakeGithubPort().value
      && e.PlaygroundPort(env).value != e.FakeGithubPort().value
    ensures Dev.MainPort(env) != Local.MainPort(env)
  {
  }

  /** In pr and prod both servers listen on the single assigned PORT; the
      configuration reads it where it is needed and fails when it is not an
      integer. */
  lemma AssignedPort(e: Environment, env: ProcessEnv, n: nat)
    requires !e.IsLocal()
    ensures e.MainPort(env) == e.PlaygroundPort(env) == IntegerEnv(env, "PORT")
    ensures e.MainPort(env[("PORT") := NatToDecimal(n)]) == Ok(n)
    ensures "PORT" !in env ==> e.MainPort(env) == Err(NotAnInteger("PORT", None))
  {
    IntegerEnvRoundTrip(env, "PORT", n);
  }

  /** Only dev and local configure GitHub, and then with fake credentials. */
  lemma GithubOnlyLocally(e: Environment, env: ProcessEnv)
    ensures e.FakeGithubPort().Some? <==> e.IsLocal()
    ensures e.GithubMainUrl().Some? <==> e.IsLocal()
    ensures e.GithubApiUrl().Some? <==> e.IsLocal()
    ensures e.GithubAuthorizeRedirectUrl(env).Some? <==> e.IsLocal()
    ensures e.GithubClientId().Some? <==> e.IsLocal()
    ensures e.GithubClientSecret().Some? <==> e.IsLocal()
    ensures e.IsLocal() ==> e.GithubClientId() == Some(FakeGithubClientId) && e.GithubClientSecret() == Some(FakeGithubClientSecret)
  {
  }

  /** Only the live site reports CSP violations and uses the real analytics
      property; only dev builds in eleventy's dev mode. */
  lemma ProductionOnly(e: Environment)
    ensures e.ReportCspViolations() <==> e == Prod
    ensures e.GoogleAnalyticsId() == ProdGoogleAnalyticsId <==> e == Prod
    ensures e.Mode() == EleventyDev <==> e == Dev
    ensures e.EleventyOutDir() == "_dev" <==> e == Dev
    ensures e != Prod ==> e.GoogleAnalyticsId() == TestGoogleAnalyticsId
    ensures e != Dev ==> e.Mode() == EleventyProd && e.EleventyOutDir() == "_site"
  {
    assert TestGoogleAnalyticsId != ProdGoogleAnalyticsId by {
      assert TestGoogleAnalyticsId[2] != ProdGoogleAnalyticsId[2];
    }
    assert "_site" != "_dev";
  }

  /** The deployed configurations take the sandbox origin from elsewhere:
      pr from the PLAYGROUND_SANDBOX variable, which must hold a URL, and
      prod from the fixed address of the live playground. */
  lemma DeployedSandboxUrls(env: ProcessEnv, isUrl: string -> bool)
    ensures Pr.PlaygroundSandboxUrl(env, isUrl).Ok? <==>
      "PLAYGROUND_SANDBOX" in env && isUrl(env["PLAYGROUND_SANDBOX"])
    ensures Pr.PlaygroundSandboxUrl(env, isUrl).Ok? ==>
      Pr.PlaygroundSandboxUrl(env, isUrl).value == env["PLAYGROUND_SANDBOX"]
    ensures Prod.PlaygroundSandboxUrl(env, isUrl) == Ok(ProdPlaygroundSandboxUrl)
  {
  }

  /** Different ports give different localhost URLs for the same path, so
      the servers of a local configuration are told apart by their URLs. */
  lemma LocalhostUrlInjective(p: nat, q: nat, path: string)
    ensures LocalhostUrl(p, path) == LocalhostUrl(q, path) ==> p == q
  {
    var prefix := "http://localhost:";
    if LocalhostUrl(p, path) == LocalhostUrl(q, path) {
      var a, b := NatToDecimal(p), NatToDecimal(q);
      assert |a| == |b|;
      assert a == LocalhostUrl(p, path)[|prefix|..|prefix| + |a|];
      assert b == LocalhostUrl(q, path)[|prefix|..|prefix| + |b|];
      DecimalValueOfNatToDecimal(p);
      DecimalValueOfNatToDecimal(q);
    }
  }
}
