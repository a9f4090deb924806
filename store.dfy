/**
 * The Minio storage adapter's `Store`: how its constructor resolves the
 * connection settings from the `storage__minio__*` environment variables and
 * the `config` object, the base URL it precomputes, the port option of the
 * Minio client, and the public URL `save` returns for a stored object.
 */
module MinioStore {
  import opened Wrappers
  import opened JsValues
  import opened JsNumbers
  import opened UriComponent

  /**
   * The environment variables storage__minio__endPoint, __port, __useSSL,
   * __accessKey, __secretKey and __bucket; None where a variable is unset.
   */
  datatype Environment = Environment(
    endPoint: Option<string>,
    port: Option<string>,
    useSSL: Option<string>,
    accessKey: Option<string>,
    secretKey: Option<string>,
    bucket: Option<string>)

  const NoVariables := Environment(None, None, None, None, None, None)

  /** The fields of the `config` object the constructor destructures. */
  datatype StoreConfig = StoreConfig(
    endpoint: JsValue,
    port: JsValue,
    useSSL: JsValue,
    accessKey: JsValue,
    secretKey: JsValue,
    bucket: JsValue)

  /** `config = {}`: every field undefined. */
  const EmptyConfig := StoreConfig(Undefined, Undefined, Undefined, Undefined, Undefined, Undefined)

  /** The error the constructor throws for an unrecognised storage__minio__useSSL. */
  datatype ConfigError = InvalidUseSSL(value: string)

  /** `process.env.X` as a JavaScript value. */
  function FromEnv(v: Option<string>): JsValue {
    match v
    case None => Undefined
    case Some(s) => Str(s)
  }

  /** The variable is truthy: set and non-empty. */
  predicate IsSet(v: Option<string>) {
    v.Some? && v.value != ""
  }

  /** The tokens storage__minio__useSSL may take. */
  const FalseTokens: set<string> := {"0", "false"}
  const TrueTokens: set<string> := {"1", "true"}

  /** `process.env.X || configValue || ''`, as for endpoint, accessKey, secretKey and bucket. */
  function ResolveField(env: Option<string>, config: JsValue): (r: JsValue)
    ensures IsSet(env) ==> r == Str(env.value)
    ensures !IsSet(env) && Truthy(config) ==> r == config
    ensures !IsSet(env) && !Truthy(config) ==> r == Str("")
    ensures !Truthy(r) ==> r == Str("")
  {
    Or(Or(FromEnv(env), config), Str(""))
  }

  /**
   * `process.env.X + '' || port + '' || ''`. An unset variable converts to the
   * non-empty string "undefined", so the configured port is read only when the
   * variable is set to the empty string.
   */
  function ResolvePort(env: Option<string>, config: JsValue): (p: string)
    ensures env.None? ==> p == "undefined"
    ensures IsSet(env) ==> p == env.value
    ensures env == Some("") ==> p == ToString(config)
  {
    var fromEnv := ToString(FromEnv(env));
    var fromConfig := ToString(config);
    if fromEnv != "" then fromEnv else if fromConfig != "" then fromConfig else ""
  }

  /**
   * The useSSL flag: a set variable must be one of the four tokens, and any
   * other set value is an error; otherwise `useSSL || false` keeps the
   * configured value when it is truthy.
   */
  function ResolveUseSSL(env: Option<string>, config: JsValue): (r: Result<JsValue, ConfigError>)
    ensures IsSet(env) && env.value in FalseTokens ==> r == Success(Bool(false))
    ensures IsSet(env) && env.value in TrueTokens ==> r == Success(Bool(true))
    ensures r.Failure? <==> IsSet(env) && env.value !in FalseTokens + TrueTokens
    ensures r.Failure? ==> r.error == InvalidUseSSL(env.value)
    ensures !IsSet(env) ==> r == Success(if Truthy(config) then config else Bool(false))
    ensures !IsSet(env) ==> (Truthy(r.value) <==> Truthy(config))
  {
    if IsSet(env) && env.value in FalseTokens then Success(Bool(false))
    else if IsSet(env) && env.value in TrueTokens then Success(Bool(true))
    else if IsSet(env) then Failure(InvalidUseSSL(env.value))
    else Success(Or(config, Bool(false)))
  }

  /** The scheme prefix: `https://` exactly when useSSL is truthy, `http://` otherwise. */
  function Protocol(useSSL: JsValue): (p: string)
    ensures Truthy(useSSL) <==> p == "https://"
    ensures !Truthy(useSSL) <==> p == "http://"
  {
    if Truthy(useSSL) then "https://" else "http://"
  }

  /**
   * The `urlPort` suffix: `':' + port` when `!isNaN(port)` and
   * `Number.parseInt(port)` is neither 80 nor 443 (NaN is neither), else empty.
   */
  function UrlPort(port: string): (suffix: string)
    ensures suffix == "" || suffix == ":" + port
    ensures suffix != "" ==> IsNumericString(port)
    ensures ParseInt(port) == Int(80) || ParseInt(port) == Int(443) ==> suffix == ""
    ensures IsNumericString(port) && ParseInt(port).NaN? ==> suffix == ":" + port
  {
    if IsNumericString(port) then
      var parsedPort := ParseInt(port);
      if parsedPort != Int(80) && parsedPort != Int(443) then ":" + port else ""
    else ""
  }

  /** `protocol + endpoint + urlPort`. */
  function BaseUrl(useSSL: JsValue, endpoint: JsValue, port: string): (url: string)
    ensures Truthy(useSSL) <==> |url| >= 8 && url[..8] == "https://"
    ensures !Truthy(useSSL) <==> |url| >= 7 && url[..7] == "http://"
  {
    SchemeDecides(useSSL, ToString(endpoint), UrlPort(port));
    Protocol(useSSL) + ToString(endpoint) + UrlPort(port)
  }

  /** Whatever follows the protocol, the URL starts with "https://" exactly when useSSL is truthy. */
  lemma SchemeDecides(useSSL: JsValue, host: string, suffix: string)
    ensures var url := Protocol(useSSL) + host + suffix;
            && (Truthy(useSSL) <==> |url| >= 8 && url[..8] == "https://")
            && (!Truthy(useSSL) <==> |url| >= 7 && url[..7] == "http://")
  {
    var scheme := Protocol(useSSL);
    var url := scheme + host + suffix;
    assert url[..|scheme|] == scheme;
    if Truthy(useSSL) {
      assert url[4] == 's';
    } else {
      assert url[4] == ':';
    }
  }

  /** The `port` option minioClient() sets: the parsed port under the same rule; None leaves it unset. */
  function ClientPort(port: string): (p: Option<JsNumber>)
    ensures p.Some? ==> IsNumericString(port) && p.value == ParseInt(port)
    ensures p.Some? ==> p.value != Int(80) && p.value != Int(443)
    ensures IsNumericString(port) && ParseInt(port).NaN? ==> p == Some(NaN)
  {
    if IsNumericString(port) then
      var p := ParseInt(port);
      if p != Int(80) && p != Int(443) then Some(p) else None
    else None
  }

  /** The options object minioClient() hands to the Minio client. */
  datatype ClientOptions = ClientOptions(
    endPoint: JsValue,
    useSSL: JsValue,
    accessKey: JsValue,
    secretKey: JsValue,
    port: Option<JsNumber>)

  /** The resolved adapter. Its fields are assigned once, by the constructor. */
  class Store {
    const endpoint: JsValue
    const port: string
    const useSSL: JsValue
    const accessKey: JsValue
    const secretKey: JsValue
    const bucket: JsValue
    const baseUrl: string

    /** The base URL is the one the other fields determine. */
    ghost predicate Valid() {
      baseUrl == BaseUrl(useSSL, endpoint, port)
    }

    /** Every field is what the configuration and the environment resolve to. */
    ghost predicate ResolvedFrom(config: StoreConfig, env: Environment) {
      && endpoint == ResolveField(env.endPoint, config.endpoint)
      && port == ResolvePort(env.port, config.port)
      && ResolveUseSSL(env.useSSL, config.useSSL) == Success(useSSL)
      && accessKey == ResolveField(env.accessKey, config.accessKey)
      && secretKey == ResolveField(env.secretKey, config.secretKey)
      && bucket == ResolveField(env.bucket, config.bucket)
      && Valid()
    }

    /**
     * `new Store(config)`: an unrecognised useSSL variable fails, and no
     * Store is produced.
     */
    static method Create(config: StoreConfig, env: Environment) returns (r: Result<Store, ConfigError>)
      ensures r.Failure? <==> ResolveUseSSL(env.useSSL, config.useSSL).Failure?
      ensures r.Failure? ==> r.error == InvalidUseSSL(env.useSSL.value)
      ensures r.Success? ==> fresh(r.value) && r.value.ResolvedFrom(config, env)
    {
      var flag: JsValue;
      var setting := env.useSSL;
      if IsSet(setting) && setting.value in FalseTokens {
        flag := Bool(false);
      } else if IsSet(setting) && setting.value in TrueTokens {
        flag := Bool(true);
      } else if IsSet(setting) {
        return Failure(InvalidUseSSL(setting.value));
      } else {
        flag := Or(config.useSSL, Bool(false));
      }
      var store := new Store(config, env, flag);
      return Success(store);
    }

    /** The constructor once the useSSL flag is known: the string fields, the port and the base URL. */
    constructor (config: StoreConfig, env: Environment, sslFlag: JsValue)
      ensures endpoint == ResolveField(env.endPoint, config.endpoint)
      ensures port == ResolvePort(env.port, config.port)
      ensures useSSL == sslFlag
      ensures accessKey == ResolveField(env.accessKey, config.accessKey)
      ensures secretKey == ResolveField(env.secretKey, config.secretKey)
      ensures bucket == ResolveField(env.bucket, config.bucket)
      ensures Valid()
    {
      var resolvedEndpoint := ResolveField(env.endPoint, config.endpoint);
      var resolvedPort := ResolvePort(env.port, config.port);
      endpoint := resolvedEndpoint;
      port := resolvedPort;
      useSSL := sslFlag;
      accessKey := ResolveField(env.accessKey, config.accessKey);
      secretKey := ResolveField(env.secretKey, config.secretKey);
      bucket := ResolveField(env.bucket, config.bucket);

      var protocol := "http://";
      if Truthy(sslFlag) {
        protocol := "https://";
      }

      var urlPort := "";
      if IsNumericString(resolvedPort) {
        var parsedPort := ParseInt(resolvedPort);
        if parsedPort != Int(80) && parsedPort != Int(443) {
          urlPort := ":" + resolvedPort;
        }
      }

      assert protocol == Protocol(sslFlag);
      assert urlPort == UrlPort(resolvedPort);
      var url := protocol + ToString(resolvedEndpoint) + urlPort;
      assert url == BaseUrl(sslFlag, resolvedEndpoint, resolvedPort);
      baseUrl := url;
    }

    /** The options minioClient() builds from the stored fields. */
    function MinioClientOptions(): (c: ClientOptions)
      ensures c.endPoint == endpoint && c.useSSL == useSSL
      ensures c.accessKey == accessKey && c.secretKey == secretKey
      ensures c.port.Some? <==> UrlPort(port) != ""
      ensures c.port.Some? ==> c.port.value == ParseInt(port)
    {
      ClientOptions(endpoint, useSSL, accessKey, secretKey, ClientPort(port))
    }

    /**
     * The URL save() resolves with for the stored key:
     * `baseUrl + '/' + bucket + '/' + encodeURIComponent(key)`. Nothing after
     * the bucket segment is a `/`, and that part decodes back to the key.
     */
    function ObjectUrl(key: string): (url: string)
      ensures var prefix := baseUrl + "/" + ToString(bucket) + "/";
              && |prefix| <= |url| && url[..|prefix|] == prefix
              && '/' !in url[|prefix|..]
              && DecodeURIComponent(url[|prefix|..]) == Some(key)
    {
      var prefix := baseUrl + "/" + ToString(bucket) + "/";
      var url := prefix + EncodeURIComponent(key);
      assert url[|prefix|..] == EncodeURIComponent(key);
      EncodeRoundTrip(key);
      url
    }
  }
}
