/** Configuration loading: every setting comes from the environment, an unset or
    empty variable falls back to its default, and the result is validated in a
    fixed order. The process environment is a map argument. */
module Config {
  import opened Wrappers
  import opened GoAtoi

  type Env = map<string, string>

  datatype ServerConfig = ServerConfig(port: string, host: string)

  datatype DatabaseConfig = DatabaseConfig(
    user: string,
    password: string,
    host: string,
    port: string,
    name: string,
    rootPass: string)

  datatype LoggingConfig = LoggingConfig(level: string)

  datatype Config = Config(
    environment: string,
    server: ServerConfig,
    database: DatabaseConfig,
    logging: LoggingConfig)

  /** `os.Getenv`: the value, or "" when the variable is unset. */
  function Getenv(env: Env, key: string): string {
    if key in env then env[key] else ""
  }

  /** `getEnvWithDefault`: the variable's value when it is set and non-empty, the
      default otherwise; an empty value counts as unset. */
  function GetEnvWithDefault(env: Env, key: string, default: string): (r: string)
    ensures Getenv(env, key) != "" ==> r == env[key]
    ensures Getenv(env, key) == "" ==> r == default
    ensures default != "" ==> r != ""
  {
    var value := Getenv(env, key);
    if value != "" then value else default
  }

  /** The configuration `Load` builds before validating it. */
  function FromEnv(env: Env): Config {
    Config(
      GetEnvWithDefault(env, "ENV", "dev"),
      ServerConfig(GetEnvWithDefault(env, "SERVER_PORT", "8080"),
                   GetEnvWithDefault(env, "SERVER_HOST", "0.0.0.0")),
      DatabaseConfig(GetEnvWithDefault(env, "DB_USER", "taskuser"),
                     GetEnvWithDefault(env, "DB_PASS", "taskpass"),
                     GetEnvWithDefault(env, "DB_HOST", "localhost"),
                     GetEnvWithDefault(env, "DB_PORT", "3306"),
                     GetEnvWithDefault(env, "DB", "taskapi"),
                     GetEnvWithDefault(env, "DB_ROOT_PASS", "rootpass")),
      LoggingConfig(GetEnvWithDefault(env, "LOG_LEVEL", "info")))
  }

  /** The configuration an empty environment yields. */
  const Defaults := Config(
    "dev",
    ServerConfig("8080", "0.0.0.0"),
    DatabaseConfig("taskuser", "taskpass", "localhost", "3306", "taskapi", "rootpass"),
    LoggingConfig("info"))

  /** `validate`: the first failing check, in the order DB_USER, DB_PASS, DB_HOST,
      DB non-empty, then DB_PORT and SERVER_PORT readable by `strconv.Atoi`. */
  function Validate(c: Config): (r: Option<string>)
    ensures r.None? <==>
              && c.database.user != "" && c.database.password != ""
              && c.database.host != "" && c.database.name != ""
              && Atoi(c.database.port).Success? && Atoi(c.server.port).Success?
    ensures c.database.user == "" ==> r == Some("DB_USER is required")
    ensures c.database.user != "" && c.database.password == "" ==> r == Some("DB_PASS is required")
    ensures c.database.user != "" && c.database.password != "" && c.database.host == ""
            ==> r == Some("DB_HOST is required")
    ensures c.database.user != "" && c.database.password != "" && c.database.host != ""
            && c.database.name == ""
            ==> r == Some("DB is required")
    ensures RequiredPresent(c) && Atoi(c.database.port).Failure?
            ==> r == Some(PortError("DB_PORT", c.database.port))
    ensures RequiredPresent(c) && Atoi(c.database.port).Success? && Atoi(c.server.port).Failure?
            ==> r == Some(PortError("SERVER_PORT", c.server.port))
  {
    if c.database.user == "" then Some("DB_USER is required")
    else if c.database.password == "" then Some("DB_PASS is required")
    else if c.database.host == "" then Some("DB_HOST is required")
    else if c.database.name == "" then Some("DB is required")
    else if Atoi(c.database.port).Failure? then Some(PortError("DB_PORT", c.database.port))
    else if Atoi(c.server.port).Failure? then Some(PortError("SERVER_PORT", c.server.port))
    else None
  }

  /** The four "is required" settings are all non-empty. */
  predicate RequiredPresent(c: Config) {
    c.database.user != "" && c.database.password != "" && c.database.host != "" && c.database.name != ""
  }

  /** The message of a port `strconv.Atoi` rejects, wrapping Atoi's own error text. */
  function PortError(key: string, port: string): string
    requires Atoi(port).Failure?
  {
    key + " must be a valid integer: " + AtoiErrorText(port, Atoi(port).error)
  }

  /** `Load`: the configuration from the environment, or the first validation
      failure after "config validation failed: ". */
  function Load(env: Env): (r: Result<Config, string>)
    ensures r.Success? <==> Validate(FromEnv(env)).None?
    ensures r.Success? ==> r.value == FromEnv(env)
    ensures r.Failure? ==> r.error == "config validation failed: " + Validate(FromEnv(env)).value
  {
    var config := FromEnv(env);
    match Validate(config)
    case Some(msg) => Failure("config validation failed: " + msg)
    case None => Success(config)
  }

  /** Validation looks only at the database user, password, host, name and port
      and at the server port: root password, server host, environment and log level
      never change its outcome. */
  lemma ValidateIgnoresOtherSettings(c: Config, rootPass: string, host: string,
                                     environment: string, level: string)
    ensures Validate(c.(environment := environment,
                        server := c.server.(host := host),
                        database := c.database.(rootPass := rootPass),
                        logging := LoggingConfig(level))) == Validate(c)
  {
  }

  /** With no variable set, every default passes validation. */
  lemma LoadEmptyEnv()
    ensures Load(map[]) == Success(Defaults)
  {
    assert FromEnv(map[]) == Defaults;
    AtoiAccepts("3306");
    AtoiAccepts("8080");
    assert Unsigned("3306") == "3306" && Unsigned("8080") == "8080";
  }

  /** Every setting falls back to a non-empty default, so `Load` can fail only on a
      port: the four "is required" checks are never reached from `Load`. */
  lemma LoadFailsOnlyOnPorts(env: Env)
    requires Load(env).Failure?
    ensures RequiredPresent(FromEnv(env))
    ensures Atoi(FromEnv(env).database.port).Failure? ==>
              Load(env).error == "config validation failed: " + PortError("DB_PORT", FromEnv(env).database.port)
    ensures Atoi(FromEnv(env).database.port).Success? ==>
              && Atoi(FromEnv(env).server.port).Failure?
              && Load(env).error == "config validation failed: " + PortError("SERVER_PORT", FromEnv(env).server.port)
  {
    RequiredDefaults(env);
  }

  /** The four "is required" settings have non-empty defaults. */
  lemma RequiredDefaults(env: Env)
    ensures RequiredPresent(FromEnv(env))
  {
    var c := FromEnv(env);
    assert c.database.user == GetEnvWithDefault(env, "DB_USER", "taskuser");
    assert c.database.password == GetEnvWithDefault(env, "DB_PASS", "taskpass");
    assert c.database.host == GetEnvWithDefault(env, "DB_HOST", "localhost");
    assert c.database.name == GetEnvWithDefault(env, "DB", "taskapi");
  }

  /** A port set to a decimal number in the 64-bit range validates, whatever its
      sign or size as a TCP port. */
  lemma NumericPortsValidate(env: Env)
    requires IsDecimal(FromEnv(env).database.port)
    requires MinInt64 <= DecimalValue(FromEnv(env).database.port) <= MaxInt64
    requires IsDecimal(FromEnv(env).server.port)
    requires MinInt64 <= DecimalValue(FromEnv(env).server.port) <= MaxInt64
    ensures Load(env).Success?
  {
    AtoiAccepts(FromEnv(env).database.port);
    AtoiAccepts(FromEnv(env).server.port);
  }

  predicate IsDevelopment(c: Config) {
    c.environment == "dev"
  }

  predicate IsProduction(c: Config) {
    c.environment == "prod"
  }

  /** No configuration is both development and production, and with ENV unset it is
      development. */
  lemma EnvironmentPredicates(c: Config, env: Env)
    ensures !(IsDevelopment(c) && IsProduction(c))
    ensures Getenv(env, "ENV") == "" ==> IsDevelopment(FromEnv(env))
  {
  }

  /** `ServerAddress`: host, a colon, port. For a host without a colon the address
      splits back into the two at its first colon. */
  function ServerAddress(c: Config): (a: string)
    ensures |a| == |c.server.host| + 1 + |c.server.port|
    ensures ':' !in c.server.host ==>
              && a[|c.server.host|] == ':'
              && (forall i :: 0 <= i < |c.server.host| ==> a[i] != ':')
              && a[..|c.server.host|] == c.server.host
              && a[|c.server.host| + 1..] == c.server.port
  {
    c.server.host + ":" + c.server.port
  }
}
