/**
 * The client bootstrap of BaseCommand: Client turns the command's resolved flags, the
 * environment and the token helper into an API client or a wrapped error, and
 * DefaultWrappingLookupFunc chooses the response-wrapping TTL of every request.
 *
 * The api package is foreign: DefaultConfig followed by ReadEnvironment is one input
 * that yields a configuration or an error, and NewClient is an input function from the
 * configuration to either the token it finds in the environment or an error.
 */
module Bootstrap {
  import opened Wrappers

  /** api.TLSConfig as BaseCommand fills it. */
  datatype TLSConfig = TLSConfig(caCert: string, caPath: string, clientCert: string, clientKey: string,
                                 tlsServerName: string, insecure: bool)

  /** The part of api.Config that Client decides: the server address and the TLS settings last applied. */
  datatype Config = Config(address: string, tls: Option<TLSConfig>)

  /**
   * An api.Client handle. `wrappingTTL` is the flag TTL of the DefaultWrappingLookupFunc
   * installed on it, None when no lookup function was installed by Client.
   */
  datatype ApiClient = ApiClient(address: string, tls: Option<TLSConfig>, token: string, wrappingTTL: Option<int>)

  /** token.TokenHelper: only its Get is used, which yields a token or an error. */
  datatype TokenHelper = TokenHelper(get: Result<string, string>)

  /** BaseCommand.tokenHelper: absent, or a constructor that yields a helper or an error. */
  datatype TokenHelperFunc = NoTokenHelper | TokenHelperFunc(make: Result<TokenHelper, string>)

  /** What Client asks of the api package. */
  datatype Environment = Environment(
    readEnvironment: Result<Config, string>,   // api.DefaultConfig then Config.ReadEnvironment
    newClient: Config -> Result<string, string> // api.NewClient: the environment token, or the failure
  )

  /** The fields of BaseCommand that Client and DefaultWrappingLookupFunc read. */
  datatype Settings = Settings(
    flagAddress: string,
    flagCACert: string,
    flagCAPath: string,
    flagClientCert: string,
    flagClientKey: string,
    flagTLSServerName: string,
    flagTLSSkipVerify: bool,
    flagWrapTTL: int,             // a time.Duration in nanoseconds
    tokenHelper: TokenHelperFunc,
    client: Option<ApiClient>     // the injected test client
  )

  /** The four places Client gives up, each with the context errors.Wrap adds. */
  datatype ErrorContext = ReadEnvironmentFailed | NewClientFailed | TokenHelperFailed | TokenGetFailed

  function ContextText(k: ErrorContext): string {
    match k
    case ReadEnvironmentFailed => "failed to read environment"
    case NewClientFailed => "failed to create client"
    case TokenHelperFailed => "failed to get token helper"
    case TokenGetFailed => "failed to retrieve from token helper"
  }

  /** An error wrapped by errors.Wrap: the cause is kept under a fixed context. */
  datatype ClientError = ClientError(context: ErrorContext, cause: string) {
    /** The text of the wrapped error: the context, a colon and a space, then the cause. */
    function Message(): (m: string)
      ensures ContextText(context) + ": " <= m
      ensures m[|ContextText(context)| + 2..] == cause
    {
      ContextText(context) + ": " + cause
    }
  }

  /** Whether any of the six TLS flags is set, which is when Client configures TLS. */
  predicate WantsTLS(c: Settings) {
    c.flagCACert != "" || c.flagCAPath != "" || c.flagClientCert != "" ||
    c.flagClientKey != "" || c.flagTLSServerName != "" || c.flagTLSSkipVerify
  }

  /** The configuration Client hands to NewClient: the address flag, then the TLS flags, over the defaults. */
  function Configure(c: Settings, defaults: Config): Config {
    var addressed := if c.flagAddress != "" then defaults.(address := c.flagAddress) else defaults;
    if WantsTLS(c) then
      addressed.(tls := Some(TLSConfig(c.flagCACert, c.flagCAPath, c.flagClientCert, c.flagClientKey,
                                       c.flagTLSServerName, c.flagTLSSkipVerify)))
    else addressed
  }

  /** The token Client settles on, from the environment token and the token helper. */
  function ResolveToken(envToken: string, helper: TokenHelperFunc): Result<string, ClientError> {
    if envToken != "" || helper.NoTokenHelper? then Success(envToken)
    else match helper.make
      case Failure(e) => Failure(ClientError(TokenHelperFailed, e))
      case Success(h) =>
        match h.get
        case Failure(e) => Failure(ClientError(TokenGetFailed, e))
        case Success(t) => Success(t)
  }

  /** BaseCommand.Client. */
  function Client(c: Settings, env: Environment): (r: Result<ApiClient, ClientError>)
    ensures c.client.Some? ==> r == Success(c.client.value)
    ensures c.client.None? && r.Success? ==> r.value.wrappingTTL == Some(c.flagWrapTTL)
  {
    if c.client.Some? then Success(c.client.value)
    else match env.readEnvironment
      case Failure(e) => Failure(ClientError(ReadEnvironmentFailed, e))
      case Success(defaults) =>
        var config := Configure(c, defaults);
        match env.newClient(config)
        case Failure(e) => Failure(ClientError(NewClientFailed, e))
        case Success(envToken) =>
          var client := ApiClient(config.address, config.tls, envToken, Some(c.flagWrapTTL));
          match ResolveToken(envToken, c.tokenHelper)
          case Failure(err) => Failure(err)
          case Success(token) => Success(if token != "" then client.(token := token) else client)
  }

  /** An injected test client is returned as it is, whatever the environment and the token helper. */
  lemma TestClientShortCircuit(c: Settings, env: Environment, env': Environment, helper: TokenHelperFunc)
    requires c.client.Some?
    ensures Client(c, env) == Success(c.client.value)
    ensures Client(c.(tokenHelper := helper), env') == Client(c, env)
  {
  }

  /** The client's address is the address flag when that is non-empty, and the environment's otherwise. */
  lemma AddressPrecedence(c: Settings, env: Environment, defaults: Config)
    requires c.client.None? && env.readEnvironment == Success(defaults)
    requires Client(c, env).Success?
    ensures Client(c, env).value.address == (if c.flagAddress != "" then c.flagAddress else defaults.address)
  {
  }

  /**
   * The client carries a TLS configuration built from exactly the six TLS flags when one
   * of them is set, and the environment's TLS settings when none is.
   */
  lemma TLSActivation(c: Settings, env: Environment, defaults: Config)
    requires c.client.None? && env.readEnvironment == Success(defaults)
    requires Client(c, env).Success?
    ensures WantsTLS(c) ==>
              Client(c, env).value.tls == Some(TLSConfig(c.flagCACert, c.flagCAPath, c.flagClientCert,
                                                         c.flagClientKey, c.flagTLSServerName, c.flagTLSSkipVerify))
    ensures !WantsTLS(c) ==> Client(c, env).value.tls == defaults.tls
  {
  }

  /** NewClient is handed the configuration with the address and TLS flags applied, and the client reflects it. */
  lemma NewClientSeesFlags(c: Settings, env: Environment, defaults: Config)
    requires c.client.None? && env.readEnvironment == Success(defaults)
    requires Client(c, env).Success?
    ensures env.newClient(Configure(c, defaults)).Success?
    ensures Client(c, env).value.address == Configure(c, defaults).address
    ensures Client(c, env).value.tls == Configure(c, defaults).tls
  {
  }

  /** A non-empty environment token is the client's token, and the token helper is never consulted. */
  lemma EnvironmentTokenWins(c: Settings, env: Environment, defaults: Config, envToken: string, helper: TokenHelperFunc)
    requires c.client.None? && env.readEnvironment == Success(defaults)
    requires env.newClient(Configure(c, defaults)) == Success(envToken) && envToken != ""
    ensures Client(c, env).Success? && Client(c, env).value.token == envToken
    ensures Client(c.(tokenHelper := helper), env) == Client(c, env)
  {
  }

  /** With an empty environment token, a helper's token is the client's token, even when it is empty. */
  lemma HelperTokenUsed(c: Settings, env: Environment, defaults: Config, token: string)
    requires c.client.None? && env.readEnvironment == Success(defaults)
    requires env.newClient(Configure(c, defaults)) == Success("")
    requires c.tokenHelper == TokenHelperFunc(Success(TokenHelper(Success(token))))
    ensures Client(c, env).Success? && Client(c, env).value.token == token
  {
  }

  /** With an empty environment token and no helper, the client is unauthenticated and there is no error. */
  lemma NoHelperUnauthenticated(c: Settings, env: Environment, defaults: Config)
    requires c.client.None? && env.readEnvironment == Success(defaults)
    requires env.newClient(Configure(c, defaults)) == Success("")
    requires c.tokenHelper == NoTokenHelper
    ensures Client(c, env).Success? && Client(c, env).value.token == ""
  {
  }

  /** The token is set exactly as resolved: the helper's when it was consulted, the environment's otherwise. */
  lemma TokenPrecedence(c: Settings, env: Environment, defaults: Config, envToken: string)
    requires c.client.None? && env.readEnvironment == Success(defaults)
    requires env.newClient(Configure(c, defaults)) == Success(envToken)
    requires Client(c, env).Success?
    ensures envToken != "" || c.tokenHelper.NoTokenHelper? ==> Client(c, env).value.token == envToken
    ensures envToken == "" && c.tokenHelper.TokenHelperFunc? ==>
      c.tokenHelper.make.Success? && c.tokenHelper.make.value.get.Success? &&
      Client(c, env).value.token == c.tokenHelper.make.value.get.value
  {
  }

  /** A failing ReadEnvironment ends Client with its wrapped cause; NewClient and the helper are not reached. */
  lemma ReadEnvironmentError(c: Settings, env: Environment, cause: string,
                             newClient: Config -> Result<string, string>, helper: TokenHelperFunc)
    requires c.client.None? && env.readEnvironment == Failure(cause)
    ensures Client(c, env) == Failure(ClientError(ReadEnvironmentFailed, cause))
    ensures Client(c.(tokenHelper := helper), env.(newClient := newClient)) == Client(c, env)
  {
  }

  /** A failing NewClient ends Client with its wrapped cause; the helper is not reached. */
  lemma NewClientError(c: Settings, env: Environment, defaults: Config, cause: string, helper: TokenHelperFunc)
    requires c.client.None? && env.readEnvironment == Success(defaults)
    requires env.newClient(Configure(c, defaults)) == Failure(cause)
    ensures Client(c, env) == Failure(ClientError(NewClientFailed, cause))
    ensures Client(c.(tokenHelper := helper), env) == Client(c, env)
  {
  }

  /** A helper that cannot be built ends Client with its wrapped cause. */
  lemma TokenHelperError(c: Settings, env: Environment, defaults: Config, cause: string)
    requires c.client.None? && env.readEnvironment == Success(defaults)
    requires env.newClient(Configure(c, defaults)) == Success("")
    requires c.tokenHelper == TokenHelperFunc(Failure(cause))
    ensures Client(c, env) == Failure(ClientError(TokenHelperFailed, cause))
  {
  }

  /** A failing Get ends Client with its wrapped cause, an error rather than "no token". */
  lemma TokenGetError(c: Settings, env: Environment, defaults: Config, cause: string)
    requires c.client.None? && env.readEnvironment == Success(defaults)
    requires env.newClient(Configure(c, defaults)) == Success("")
    requires c.tokenHelper == TokenHelperFunc(Success(TokenHelper(Failure(cause))))
    ensures Client(c, env) == Failure(ClientError(TokenGetFailed, cause))
  {
  }

  /**
   * Client fails exactly when reading the environment fails, when NewClient fails, or
   * when the environment token is empty, a helper is present, and building it or its
   * Get fails; it never returns a half-built client.
   */
  lemma FailureIff(c: Settings, env: Environment)
    requires c.client.None?
    ensures Client(c, env).Failure? <==>
      env.readEnvironment.Failure? ||
      env.newClient(Configure(c, env.readEnvironment.value)).Failure? ||
      (env.newClient(Configure(c, env.readEnvironment.value)).value == "" &&
       c.tokenHelper.TokenHelperFunc? &&
       (c.tokenHelper.make.Failure? || c.tokenHelper.make.value.get.Failure?))
  {
  }

  /** An empty environment token with a helper returning "abc123" gives a client whose token is "abc123". */
  lemma HelperTokenScenario(c: Settings, env: Environment, defaults: Config)
    requires c.client.None? && env.readEnvironment == Success(defaults)
    requires env.newClient(Configure(c, defaults)) == Success("")
    requires c.tokenHelper == TokenHelperFunc(Success(TokenHelper(Success("abc123"))))
    ensures Client(c, env) == Success(ApiClient(Configure(c, defaults).address, Configure(c, defaults).tls, "abc123", Some(c.flagWrapTTL)))
  {
  }

  /** The environment token "envtok" wins over a helper that would return "other". */
  lemma EnvironmentTokenScenario(c: Settings, env: Environment, defaults: Config)
    requires c.client.None? && env.readEnvironment == Success(defaults)
    requires env.newClient(Configure(c, defaults)) == Success("envtok")
    requires c.tokenHelper == TokenHelperFunc(Success(TokenHelper(Success("other"))))
    ensures Client(c, env).Success? && Client(c, env).value.token == "envtok"
  {
  }

  /**
   * BaseCommand.DefaultWrappingLookupFunc: the flag TTL's string form when the TTL is
   * non-zero, the api package's own lookup otherwise. `durationString` is
   * time.Duration.String and `apiDefault` is api.DefaultWrappingLookupFunc.
   */
  function DefaultWrappingLookup(wrapTTL: int, durationString: int -> string,
                                 apiDefault: (string, string) -> string,
                                 operation: string, path: string): (r: string)
    ensures wrapTTL != 0 ==> r == durationString(wrapTTL)
    ensures wrapTTL == 0 ==> r == apiDefault(operation, path)
  {
    if wrapTTL != 0 then durationString(wrapTTL) else apiDefault(operation, path)
  }

  /** A non-zero TTL wraps every request with the same TTL string, whatever the operation and path. */
  lemma WrappingLookupConstant(wrapTTL: int, durationString: int -> string, apiDefault: (string, string) -> string,
                               op1: string, path1: string, op2: string, path2: string)
    requires wrapTTL != 0
    ensures DefaultWrappingLookup(wrapTTL, durationString, apiDefault, op1, path1) == durationString(wrapTTL)
    ensures DefaultWrappingLookup(wrapTTL, durationString, apiDefault, op1, path1) ==
            DefaultWrappingLookup(wrapTTL, durationString, apiDefault, op2, path2)
  {
  }

  /** A zero TTL leaves every request to the api package's default lookup. */
  lemma WrappingLookupDefault(durationString: int -> string, apiDefault: (string, string) -> string,
                              operation: string, path: string)
    ensures DefaultWrappingLookup(0, durationString, apiDefault, operation, path) == apiDefault(operation, path)
  {
  }
}
