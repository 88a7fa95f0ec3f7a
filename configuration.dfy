/** The pure parts of src/configuration.rs: the environment name and its
    parser, the SSL mode of the database connection, the choice of
    environment at start-up, and the email client's timeout. */
module Configuration {
  import opened Wrappers

  newtype u16 = x: int | 0 <= x < 0x1_0000
  newtype u64 = x: int | 0 <= x < 0x1_0000_0000_0000_0000

  // ---------------------------------------------------------------------------
  // `Environment`
  // ---------------------------------------------------------------------------

  datatype Environment = Local | Production

  /** `Environment::as_str`. */
  function AsStr(e: Environment): (r: string)
    ensures r == "local" <==> e.Local?
    ensures r == "production" <==> e.Production?
  {
    match e
    case Local => "local"
    case Production => "production"
  }

  /** `impl TryFrom<String> for Environment`: exactly "local" and
      "production", compared case-sensitively; anything else is an error
      that quotes the input. */
  function TryFrom(s: string): (r: Result<Environment, string>)
    ensures r.Ok? <==> s == "local" || s == "production"
    ensures r.Err? ==> r.error == s + " is not a valid environment"
  {
    if s == "local" then Ok(Local)
    else if s == "production" then Ok(Production)
    else Err(s + " is not a valid environment")
  }

  /** `try_from` undoes `as_str`. */
  lemma TryFromAsStr(e: Environment)
    ensures TryFrom(AsStr(e)) == Ok(e)
  {
  }

  /** `as_str` undoes a successful `try_from`. */
  lemma AsStrTryFrom(s: string)
    requires TryFrom(s).Ok?
    ensures AsStr(TryFrom(s).value) == s
  {
  }

  /** The names of the two environments differ, so `as_str` is injective. */
  lemma AsStrIsInjective(e: Environment, f: Environment)
    requires AsStr(e) == AsStr(f)
    ensures e == f
  {
    TryFromAsStr(e);
    TryFromAsStr(f);
  }

  /** Case matters: "Local" is not an environment. */
  lemma TryFromIsCaseSensitive()
    ensures TryFrom("Local") == Err("Local is not a valid environment")
    ensures TryFrom("PRODUCTION").Err?
  {
    assert "Local"[0] != "local"[0];
    assert "Local" + " is not a valid environment" == "Local is not a valid environment";
  }

  /** `get_configuration` reads `APP_ENVIRONMENT` (`None` when it is unset
      or not Unicode), falls back to "local", and panics through `expect`
      (here an `Err`) when the value is not an environment. */
  function SelectEnvironment(appEnvironment: Option<string>): (r: Result<Environment, string>)
    ensures appEnvironment.None? ==> r == Ok(Local)
    ensures appEnvironment.Some? ==> (r.Ok? <==> TryFrom(appEnvironment.value).Ok?)
    ensures r.Ok? ==> appEnvironment.None? || AsStr(r.value) == appEnvironment.value
    ensures r.Err? ==> r.error == "Failed to parse APP_ENVIRONMENT"
  {
    var name := match appEnvironment case None => "local" case Some(v) => v;
    match TryFrom(name)
    case Ok(e) => Ok(e)
    case Err(_) => Err("Failed to parse APP_ENVIRONMENT")
  }

  // ---------------------------------------------------------------------------
  // `DatabaseSettings::without_db`
  // ---------------------------------------------------------------------------

  /** The two `PgSslMode`s `without_db` chooses between. */
  datatype SslMode = Require | Prefer

  datatype DatabaseSettings = DatabaseSettings(
    username: string,
    password: string,
    port: u16,
    host: string,
    databaseName: string,
    requireSsl: bool)

  /** The fields `without_db` sets on `PgConnectOptions`. */
  datatype ConnectOptions = ConnectOptions(
    host: string,
    username: string,
    password: string,
    port: u16,
    sslMode: SslMode)

  /** `without_db`: SSL is required when the settings ask for it and merely
      preferred otherwise. */
  function WithoutDb(settings: DatabaseSettings): (r: ConnectOptions)
    ensures r.sslMode == Require <==> settings.requireSsl
    ensures r.sslMode == Prefer <==> !settings.requireSsl
    ensures r.host == settings.host && r.username == settings.username
    ensures r.password == settings.password && r.port == settings.port
  {
    var sslMode := if settings.requireSsl then Require else Prefer;
    ConnectOptions(settings.host, settings.username, settings.password, settings.port, sslMode)
  }

  // ---------------------------------------------------------------------------
  // `EmailClientSettings::timeout`
  // ---------------------------------------------------------------------------

  datatype EmailClientSettings = EmailClientSettings(
    senderEmail: string,
    baseUrl: string,
    authorizationToken: string,
    timeoutMilliseconds: u64)

  /** A `std::time::Duration`: whole seconds and the nanoseconds below one
      second. */
  datatype Duration = Duration(secs: nat, nanos: nat)

  const NanosPerMilli: nat := 1_000_000
  const NanosPerSec: nat := 1_000_000_000

  /** `Duration::from_millis`. */
  function FromMillis(millis: u64): (d: Duration)
    ensures d.nanos < NanosPerSec
    ensures d.secs * NanosPerSec + d.nanos == millis as int * NanosPerMilli
  {
    var m := millis as int;
    var d := Duration(m / 1000, (m % 1000) * NanosPerMilli);
    assert m == (m / 1000) * 1000 + m % 1000;
    d
  }

  /** `EmailClientSettings::timeout`: `timeout_milliseconds` milliseconds. */
  function Timeout(settings: EmailClientSettings): (d: Duration)
    ensures d.nanos < NanosPerSec
    ensures d.secs * NanosPerSec + d.nanos == settings.timeoutMilliseconds as int * NanosPerMilli
  {
    FromMillis(settings.timeoutMilliseconds)
  }
}
