/**
 * What the resolved configuration promises: which source decides each
 * setting, when the port shows up in the base URL and in the Minio client
 * options, and what the public object URL looks like.
 */
module StoreProperties {
  import opened Wrappers
  import opened JsValues
  import opened JsNumbers
  import opened UriComponent
  import opened MinioStore

  /** minioClient() sets a port option exactly when the base URL carries a port segment, and it is the parsed port. */
  lemma PortRulesAgree(port: string)
    ensures ClientPort(port).Some? <==> UrlPort(port) != ""
    ensures ClientPort(port).Some? ==> UrlPort(port) == ":" + port && ClientPort(port).value == ParseInt(port)
  {
  }

  /** For a Store, the client's port option and the ":port" ending of its base URL come together. */
  lemma ClientPortMatchesBaseUrl(s: Store)
    requires s.Valid()
    ensures var host := Protocol(s.useSSL) + ToString(s.endpoint);
            && (s.MinioClientOptions().port.Some? <==> s.baseUrl == host + ":" + s.port)
            && (s.MinioClientOptions().port.None? <==> s.baseUrl == host)
  {
    PortRulesAgree(s.port);
  }

  /** A port written as an integer is left out of the URL and the client options when it is 80 or 443, and kept otherwise. */
  lemma {:induction false} IntegerPort(n: SafeInteger)
    ensures UrlPort(IntToDecimal(n)) == if n == 80 || n == 443 then "" else ":" + IntToDecimal(n)
    ensures ClientPort(IntToDecimal(n)) == if n == 80 || n == 443 then None else Some(Int(n))
  {
    IntToDecimalRoundTrip(n);
  }

  /** A port number in the config reaches the URL only through an empty port variable, and then follows the integer rule. */
  lemma {:induction false} ConfiguredPortNumber(n: SafeInteger, env: Option<string>)
    ensures ResolvePort(env, Num(n)) == IntToDecimal(n) <==> env == Some("") || env == Some(IntToDecimal(n))
    ensures env == Some("") ==> ClientPort(ResolvePort(env, Num(n))) == if n == 80 || n == 443 then None else Some(Int(n))
  {
    IntegerPort(n);
    var digits := IntToDecimal(n);
    if env.None? {
      assert ResolvePort(env, Num(n)) == "undefined";
      assert "undefined"[0] != digits[0];
    } else if env == Some("") {
      assert ResolvePort(env, Num(n)) == ToString(Num(n)) == digits;
    } else {
      assert ResolvePort(env, Num(n)) == env.value;
    }
  }

  /** With the port variable unset the port is the string "undefined": the config port is ignored and no port is used. */
  lemma {:induction false} UnsetPortVariable(config: JsValue)
    ensures ResolvePort(None, config) == "undefined"
    ensures UrlPort(ResolvePort(None, config)) == ""
    ensures ClientPort(ResolvePort(None, config)) == None
  {
    UndefinedIsNaN();
  }

  /** With the port variable set to "" and no port in the config, `port + ''` is "undefined" again: no port is used. */
  lemma EmptyVariableUndefinedPort()
    ensures ResolvePort(Some(""), Undefined) == "undefined"
    ensures UrlPort(ResolvePort(Some(""), Undefined)) == ""
    ensures ClientPort(ResolvePort(Some(""), Undefined)) == None
  {
    UndefinedIsNaN();
  }

  /** An empty port string passes the isNaN test but parses to NaN: the base URL ends in a bare ':' and the client gets NaN. */
  lemma {:induction false} EmptyPortString()
    ensures ResolvePort(Some(""), Str("")) == ""
    ensures UrlPort("") == ":"
    ensures ClientPort("") == Some(NaN)
  {
    assert ToString(Str("")) == "";
    assert ResolvePort(Some(""), Str("")) == "";
    EmptyStringIsNumericButNotParsed();
    assert UrlPort("") == ":" + "";
  }

  /** The digit run of a run of digits followed by a non-digit is that run. */
  lemma {:induction false} DigitRunStops(z: string, rest: string, radix: nat)
    requires AllDigits(z, radix) && rest != "" && DigitValue(rest[0]) >= radix
    ensures DigitRun(z + rest, radix) == |z|
    ensures (z + rest)[..|z|] == z && (z + rest)[|z|..] == rest
  {
    if z != "" {
      assert (z + rest)[1..] == z[1..] + rest;
      DigitRunStops(z[1..], rest, radix);
    }
  }

  /** One more digit on the right multiplies the value by the radix and adds the digit. */
  lemma DigitsValueAppend(z: string, c: char, radix: nat)
    requires AllDigits(z + [c], radix)
    ensures AllDigits(z, radix)
    ensures DigitsValue(z + [c], radix) == DigitsValue(z, radix) * radix + DigitValue(c)
  {
    assert forall i :: 0 <= i < |z| ==> z[i] == (z + [c])[i];
    assert (z + [c])[..|z|] == z;
  }

  /** The value of a three-digit string, digit by digit. */
  lemma ThreeDigits(z: string, radix: nat)
    requires |z| == 3 && AllDigits(z, radix)
    ensures DigitsValue(z, radix) == (DigitValue(z[0]) * radix + DigitValue(z[1])) * radix + DigitValue(z[2])
  {
    var two, one := z[..2], z[..1];
    assert two[..1] == one && one[..0] == "";
    assert DigitsValue(one, radix) == DigitValue(z[0]);
    assert DigitsValue(two, radix) == DigitValue(z[0]) * radix + DigitValue(z[1]);
  }

  lemma Value080()
    ensures AllDigits("080", 10) && DigitsValue("080", 10) == 80
  {
    var z := "080";
    assert AllDigits(z, 10) by { assert DigitValue(z[0]) == 0 && DigitValue(z[1]) == 8 && DigitValue(z[2]) == 0; }
    ThreeDigits(z, 10);
  }

  lemma Value8080()
    ensures AllDigits("8080", 10) && DigitsValue("8080", 10) == 8080
  {
    var z := "808";
    assert AllDigits(z, 10) by { assert DigitValue(z[0]) == 8 && DigitValue(z[1]) == 0 && DigitValue(z[2]) == 8; }
    ThreeDigits(z, 10);
    assert "8080" == z + ['0'];
    DigitsValueAppend("808", '0', 10);
  }

  lemma Value1BB()
    ensures AllDigits("1BB", 16) && DigitsValue("1BB", 16) == 443
  {
    var z := "1BB";
    assert AllDigits(z, 16) by { assert DigitValue(z[0]) == 1 && DigitValue(z[1]) == 11 && DigitValue(z[2]) == 11; }
    ThreeDigits(z, 16);
  }

  /** A leading zero does not matter: "080" parses to 80, so the port is left out. */
  lemma LeadingZeroPort()
    ensures IsNumericString("080") && ParseInt("080") == Int(80)
    ensures UrlPort("080") == "" && ClientPort("080") == None
  {
    Value080();
    ParseIntDigits("080", false);
    DigitsAreNumeric("080", false);
  }

  /** "8080.5" is a StringNumericLiteral, so it passes the isNaN test. */
  lemma FractionalPortIsNumeric()
    ensures IsNumericString("8080.5")
  {
    var s := "8080.5";
    assert s[0] == '8' && s[|s| - 1] == '5';
    TrimNothing(s);
    Value8080();
    assert s == "8080" + ".5";
    DigitRunStops("8080", ".5", 10);
    assert s[4..] == ".5" && s[4..][1..] == "5";
    DigitRunWhole("5", 10);
    assert "5"[1..] == "";
    assert IsStrUnsignedDecimalLiteral(s);
  }

  /** parseInt stops at the '.': "8080.5" parses to 8080. */
  lemma FractionalPortParse()
    ensures ParseInt("8080.5") == Int(8080)
  {
    var s := "8080.5";
    assert s[0] == '8' && s[|s| - 1] == '5';
    TrimNothing(s);
    Value8080();
    assert s == "8080" + ".5";
    DigitRunStops("8080", ".5", 10);
    assert s[..4] == "8080";
    assert ParseMagnitude(s) == Some(8080);
  }

  /** The whole string "8080.5" is kept in the URL, while the client gets the parsed 8080. */
  lemma FractionalPort()
    ensures UrlPort("8080.5") == ":8080.5" && ClientPort("8080.5") == Some(Int(8080))
  {
    FractionalPortIsNumeric();
    FractionalPortParse();
    PortKept("8080.5", 8080);
    ExampleStrings();
  }

  /** A numeric port string that parses to an integer other than 80 and 443 is appended whole and passed parsed. */
  lemma PortKept(port: string, n: int)
    requires IsNumericString(port) && ParseInt(port) == Int(n) && n != 80 && n != 443
    ensures UrlPort(port) == ":" + port && ClientPort(port) == Some(Int(n))
  {
    assert ParseInt(port) != Int(80) && ParseInt(port) != Int(443);
  }

  /** parseInt with no radix reads a "0x" prefix as hexadecimal: "0x1BB" is 443, so the port is left out. */
  lemma HexPort()
    ensures IsNumericString("0x1BB") && ParseInt("0x1BB") == Int(443)
    ensures UrlPort("0x1BB") == "" && ClientPort("0x1BB") == None
  {
    var s := "0x1BB";
    assert s[0] == '0' && s[|s| - 1] == 'B';
    TrimNothing(s);
    Value1BB();
    assert s[2..] == "1BB";
    assert IsNonDecimalIntegerLiteral(s);
    DigitRunWhole("1BB", 16);
    assert "1BB"[..3] == "1BB";
    assert ParseMagnitude(s) == Some(443);
  }

  /** A recognised useSSL variable alone decides the scheme of the base URL, whatever the config says. */
  lemma SchemeFollowsVariable(token: string, config: JsValue, endpoint: JsValue, port: string)
    requires token in FalseTokens + TrueTokens
    ensures var r := ResolveUseSSL(Some(token), config);
            && r.Success?
            && (token in TrueTokens <==> BaseUrl(r.value, endpoint, port)[..7] != "http://")
  {
    var r := ResolveUseSSL(Some(token), config);
    assert r == Success(Bool(token in TrueTokens));
    var url := BaseUrl(r.value, endpoint, port);
    assert |url| >= 7;
  }

  /** Distinct keys give distinct object URLs. */
  lemma ObjectUrlInjective(s: Store, key1: string, key2: string)
    ensures s.ObjectUrl(key1) == s.ObjectUrl(key2) ==> key1 == key2
  {
  }

  /** `config = {}` with no variables: empty endpoint, keys and bucket, useSSL false, port "undefined", an `http://` base URL and no client port. */
  lemma EmptyConfigStore(s: Store)
    requires s.ResolvedFrom(EmptyConfig, NoVariables)
    ensures s.endpoint == Str("") && s.accessKey == Str("") && s.secretKey == Str("") && s.bucket == Str("")
    ensures s.useSSL == Bool(false) && s.port == "undefined"
    ensures s.baseUrl == "http://" && s.MinioClientOptions().port == None
  {
    UnsetPortVariable(Undefined);
    assert s.baseUrl == "http://" + "" + "";
  }

  /** An example configuration: endpoint cdn.host, port 443, TLS on, bucket img. */
  const ExampleConfig := StoreConfig(Str("cdn.host"), Num(443), Bool(true), Undefined, Undefined, Str("img"))

  /** The example: no variables set, port 443 and TLS in the config, a key under a dated folder. */
  lemma ExampleObjectUrl(s: Store)
    requires s.ResolvedFrom(ExampleConfig, NoVariables)
    ensures s.ObjectUrl("2024/a.png") == "https://cdn.host/img/2024%2Fa.png"
  {
    ObjectUrlParts(s, "2024/a.png");
    ExampleBaseUrl(s);
    assert ToString(s.bucket) == "img";
    ExampleKey();
    ExampleStrings();
  }

  lemma ObjectUrlParts(s: Store, key: string)
    ensures s.ObjectUrl(key) == s.baseUrl + "/" + ToString(s.bucket) + "/" + EncodeURIComponent(key)
  {
  }

  /** With no variables set, truthy config values are kept as they are and the port is "undefined". */
  lemma FieldsWithoutVariables(s: Store, config: StoreConfig)
    requires s.ResolvedFrom(config, NoVariables)
    requires Truthy(config.endpoint) && Truthy(config.useSSL) && Truthy(config.bucket)
    ensures s.endpoint == config.endpoint && s.port == "undefined"
    ensures s.useSSL == config.useSSL && s.bucket == config.bucket && s.Valid()
  {
  }

  lemma ExampleFields(s: Store)
    requires s.ResolvedFrom(ExampleConfig, NoVariables)
    ensures s.endpoint == Str("cdn.host") && s.port == "undefined"
    ensures s.useSSL == Bool(true) && s.bucket == Str("img") && s.Valid()
  {
    FieldsWithoutVariables(s, ExampleConfig);
  }

  lemma ExampleBaseUrl(s: Store)
    requires s.ResolvedFrom(ExampleConfig, NoVariables)
    ensures s.baseUrl == "https://cdn.host" && s.bucket == Str("img")
  {
    ExampleFields(s);
    UnsetPortVariable(Num(443));
    BaseUrlParts(s.useSSL, s.endpoint, s.port);
    ExampleStrings();
  }

  lemma BaseUrlParts(useSSL: JsValue, endpoint: JsValue, port: string)
    requires Truthy(useSSL) && endpoint.Str? && UrlPort(port) == ""
    ensures BaseUrl(useSSL, endpoint, port) == "https://" + endpoint.s + ""
  {
  }

  /** A `/` between two parts becomes `%2F`, and each part is encoded on its own. */
  lemma EncodeSlash(a: string, b: string)
    ensures EncodeURIComponent(a + "/" + b) == EncodeURIComponent(a) + "%2F" + EncodeURIComponent(b)
  {
    assert EncodeURIComponent("/") == "%2F" by {
      assert Utf8('/') == [0x2F];
      assert EncodeChar('/') == PercentEncode([0x2F]) == "%2F";
    }
    EncodeConcat(a, "/");
    EncodeConcat(a + "/", b);
  }

  lemma ExampleKeyUnreserved()
    ensures EncodeURIComponent("2024") == "2024"
    ensures EncodeURIComponent("a.png") == "a.png"
  {
    var a, b := "2024", "a.png";
    assert forall i :: 0 <= i < |a| ==> IsUnreserved(a[i]);
    assert forall i :: 0 <= i < |b| ==> IsUnreserved(b[i]);
  }

  /** The slash of a dated key is percent-encoded. */
  lemma ExampleKey()
    ensures EncodeURIComponent("2024/a.png") == "2024%2Fa.png"
  {
    ExampleStrings();
    EncodeSlash("2024", "a.png");
    ExampleKeyUnreserved();
  }

  /** How the string literals of the examples split into their parts. */
  lemma ExampleStrings()
    ensures ":" + "8080.5" == ":8080.5"
    ensures "https://" + "cdn.host" + "" == "https://cdn.host"
    ensures "https://cdn.host" + "/" + "img" + "/" + "2024%2Fa.png" == "https://cdn.host/img/2024%2Fa.png"
    ensures "2024/a.png" == "2024" + "/" + "a.png"
    ensures "2024" + "%2F" + "a.png" == "2024%2Fa.png"
  {
  }
}
