# ghost-minio Store configuration, in Dafny

This project models the one piece of logic in the ghost-minio storage adapter:
how the `Store` constructor in `src/index.js` resolves its connection settings,
and how it builds URLs from them. The settings come from the
`storage__minio__*` environment variables and from the `config` object the
host passes in. The adapter then precomputes a base URL. `minioClient()`
decides whether to pass a `port` option to the Minio client. `save` returns
`baseUrl/bucket/encodeURIComponent(key)` for the object it stored.

Modules:

- `Wrappers` (`wrappers.dfy`): `Option` and `Result`.
- `JsValues` (`js_values.dfy`): the primitive JavaScript values a config field can hold. It defines truthiness, `||`, and conversion to a string (`x + ''`), including decimal printing of integers.
- `JsNumbers` (`js_numbers.dfy`): the two coercions applied to the port string. `isNaN(s)` is modelled by the StringNumericLiteral grammar of ECMA-262 (section 7.1.4.1.1, "StringToNumber"). `Number.parseInt(s)` follows section 19.2.5 of ECMA-262: white space, sign, `0x` prefix, then the longest digit run.
- `UriComponent` (`uri_component.dfy`): `encodeURIComponent` per section 15.1.3.4 of ECMA-262, 5.1 edition. It has the unreserved set, UTF-8 and upper-case `%XY` escapes. The module also has `decodeURIComponent` (section 15.1.3.2) as its inverse.
- `MinioStore` (`store.dfy`): the environment and config records, the resolution functions, and the `Store` class. The class has `const` fields, a constructor that assigns them step by step as the source does, and a `Create` method that fails with `InvalidUseSSL` where the source throws. It also has `MinioClientOptions` and `ObjectUrl`.
- `StoreProperties` (`store_properties.dfy`): lemmas relating the pieces.

Environment variables are constructor inputs of type `Option<string>`, where `None` means unset. Config fields are `JsValue`s, where `Undefined` means absent.

Behaviour the model keeps because the code does it:

- With `storage__minio__port` unset, `process.env.storage__minio__port + ''` is the non-empty string `"undefined"`. So the config port is never read, and no port is used (`"undefined"` is NaN). The config port is read only when the variable is set to the empty string, and even then an absent config port gives `"undefined"` again.
- A set but empty `storage__minio__useSSL` counts as unset, so the config value applies.
- `this.useSSL = useSSL || false` stores the config value itself when it is truthy. For example, the string `"false"` in the config selects `https://`.
- An empty port string passes `!isNaN` because `Number("")` is 0. But `parseInt("")` is NaN, and NaN is neither 80 nor 443. So the base URL ends in a bare `:`, and the client gets `port: NaN`.
- The URL compares the parsed integer but appends the raw string. `"080"` and `"0x1BB"` (443) are omitted, while `"8080.5"` is appended as `:8080.5` and the client gets 8080.

## Model

| member | source | states |
|---|---|---|
| JsValues.Or | src/index.js:21 | `a \|\| b` is `a` whenever `a` is truthy and `b` whenever `a` is falsy. It is truthy exactly when either operand is. |
| JsValues.IntToDecimal | src/index.js:22 | The numeral `n + ''` prints for an integer starts with `-` exactly when the integer is negative. The rest is decimal digits with no leading zero, and they spell the magnitude. |
| JsValues.ToString | src/index.js:22 | `v + ''` is empty exactly for the empty string. `undefined` gives `"undefined"`, `null` gives `"null"`, and a boolean gives `"true"` or `"false"`. A string converts to itself, and a number to its decimal numeral. |
| JsValues.NatToDecimal | src/index.js:22 | The decimal numeral `port + ''` prints for a number has no leading zero, and its digits spell the number back. |
| MinioStore.ResolveField | src/index.js:34-36 | For endpoint (line 21), accessKey, secretKey and bucket: a non-empty variable wins. Otherwise a truthy config value is used, otherwise `''`. The result is falsy only when it is `''`. |
| MinioStore.ResolvePort | src/index.js:22 | An unset variable gives `"undefined"`. A non-empty variable is used as is. Only an empty variable lets `String(config port)` through. |
| MinioStore.ResolveUseSSL | src/index.js:24-32 | `"0"`/`"false"` give false and `"1"`/`"true"` give true, whatever the config says. Any other non-empty value is `InvalidUseSSL` naming that value. An unset or empty variable keeps a truthy config value, or else gives false. |
| MinioStore.Protocol | src/index.js:38-41 | The protocol is `https://` exactly when useSSL is truthy, and `http://` exactly when it is not. |
| MinioStore.UrlPort | src/index.js:43-49 | The suffix is empty or `':' + port`, with the raw port string. It is non-empty only when the port passes `!isNaN`. It is empty whenever `parseInt` gives 80 or 443, and it is kept when `parseInt` gives NaN. |
| MinioStore.ClientPort | src/index.js:67-72 | A port option is set only for a port that passes `!isNaN`. It is then `parseInt(port)`, never 80 or 443, and NaN when `parseInt` finds no digits. |
| MinioStore.BaseUrl | src/index.js:38-51 | The base URL starts with `https://` exactly when useSSL is truthy, and with `http://` exactly when it is not. |
| MinioStore.Store.constructor | src/index.js:21-51 | Each field is assigned its resolved value, and `baseUrl` is `protocol + endpoint + urlPort` as computed by the branches. |
| MinioStore.Store.Create | src/index.js:9-52 | Construction fails exactly when the useSSL variable is unrecognised, with that value in the error. Otherwise the new Store's fields are the resolved settings. |
| MinioStore.Store.MinioClientOptions | src/index.js:59-72 | The client gets the stored endpoint, flag and keys. It gets a port option exactly when the base URL rule adds a port segment, and the option is `parseInt(port)`. |
| MinioStore.Store.ObjectUrl | src/index.js:123 | The object URL is `baseUrl/bucket/` followed by a part with no `/` that decodes back to the key. |
| JsNumbers.IntToDecimalRoundTrip | src/index.js:44-45 | Every printed integer passes `!isNaN`, and `parseInt` reads it back as the same integer. |
| JsNumbers.DigitsAreNumeric | src/index.js:44 | `!isNaN` accepts every string of decimal digits, with or without a leading `-`. |
| JsNumbers.ParseIntDigits | src/index.js:45 | `parseInt` reads a string of decimal digits, with or without a leading `-`, as the integer it spells. |
| JsNumbers.UndefinedIsNaN | src/index.js:44 | `isNaN("undefined")` holds. |
| JsNumbers.EmptyStringIsNumericButNotParsed | src/index.js:44-45 | `""` passes `!isNaN`, yet `parseInt("")` is NaN. |
| UriComponent.EncodeURIComponent | src/index.js:123 | The output has only unreserved characters and `%`, so it has no `/`. Every `%` is followed by two upper-case hexadecimal digits. A string of unreserved characters is left unchanged. |
| UriComponent.EncodeRoundTrip | src/index.js:123 | `decodeURIComponent(encodeURIComponent(s)) == s` for every string. |
| UriComponent.EncodeInjective | src/index.js:123 | Distinct keys have distinct encodings. |
| UriComponent.EncodeConcat | src/index.js:123 | The encoding of a concatenation is the concatenation of the encodings. |
| StoreProperties.PortRulesAgree | src/index.js:43-72 | The constructor's `urlPort` rule and `minioClient()`'s port rule agree. A port option is set exactly when the URL gets `':' + port`, and it is the parsed port. |
| StoreProperties.ClientPortMatchesBaseUrl | src/index.js:43-72 | For a Store, the client has a port option exactly when `baseUrl == protocol + endpoint + ':' + port`. It has none exactly when `baseUrl == protocol + endpoint`. |
| StoreProperties.IntegerPort | src/index.js:44-48 | A port written as an integer is left out of both the URL and the client options when it is 80 or 443. Otherwise it is kept as `:n` and as `Int(n)`. |
| StoreProperties.ConfiguredPortNumber | src/index.js:22 | A numeric config port becomes the port string exactly when the variable is empty, or when the variable already spells the same number. Through the empty variable it follows the 80/443 rule. |
| StoreProperties.UnsetPortVariable | src/index.js:22 | With the variable unset, the port is `"undefined"` whatever the config says. Neither the URL nor the client gets a port. |
| StoreProperties.EmptyVariableUndefinedPort | src/index.js:22-48 | An empty variable with no config port gives port `"undefined"` again, so neither the URL nor the client gets a port. |
| StoreProperties.EmptyPortString | src/index.js:22-48 | An empty variable with an empty config port gives port `""`. The URL suffix is then a bare `:`, and the client port is NaN. |
| StoreProperties.PortKept | src/index.js:43-49 | A port that passes `!isNaN` and parses to an integer other than 80 and 443 is appended whole to the URL, and the client gets the parsed integer. |
| StoreProperties.LeadingZeroPort | src/index.js:43-49 | `"080"` passes `!isNaN` and parses to 80, so neither the URL nor the client gets a port. |
| StoreProperties.FractionalPort | src/index.js:43-49 | `"8080.5"` is appended whole as `:8080.5`, while the client gets the parsed 8080. |
| StoreProperties.HexPort | src/index.js:43-49 | `"0x1BB"` passes `!isNaN` and `parseInt` with no radix reads it as 443, so neither the URL nor the client gets a port. |
| StoreProperties.SchemeFollowsVariable | src/index.js:24-41 | A recognised useSSL token decides the scheme of the base URL regardless of the config. |
| StoreProperties.ObjectUrlInjective | src/index.js:123 | Distinct keys stored by one Store get distinct object URLs. |
| StoreProperties.EncodeSlash | src/index.js:123 | A `/` in a key becomes `%2F`, and each side is encoded on its own. |
| StoreProperties.EmptyConfigStore | src/index.js:9-51 | With `config = {}` and no variables, the endpoint, keys and bucket are `''` and useSSL is false. The port is `"undefined"`, the base URL is `http://`, and the client gets no port. |
| StoreProperties.ExampleObjectUrl | src/index.js:123 | With no variables and config `{endpoint: "cdn.host", port: 443, useSSL: true, bucket: "img"}`, key `2024/a.png` gives `https://cdn.host/img/2024%2Fa.png`. |

## Left out

- `exists`, `save`, `serve`, `read` and `delete` (src/index.js:85-215) are left out except for the URL `save` returns. They are network I/O through the Minio client plus promise and stream plumbing. The `size` counters that are declared `const` and then incremented, and the undefined `res` that `read` resolves, belong to that I/O code.
- The text of the thrown `Error` (src/index.js:29) is not modelled: `InvalidUseSSL` carries the offending value, which is the only part of the message that varies.
- `readFileAsync` (src/index.js:6) is left out: it is filesystem I/O.
- `getSanitizedFileName` (src/index.js:217-221) is left out: it wraps the `sanitize-filename` package, which is not part of this model.
- `super(config)`, `getTargetDir`, `getUniqueFileName` and `pathPrefix` are left out: they come from `ghost-storage-base`, which is not part of this model. The key passed to `ObjectUrl` is an arbitrary input string.
- `path.join` is left out: it is Node's library, not this repository.
- `new Minio.Client(configs)` is left out: the model stops at the options object.
- Config values are limited to undefined, null, booleans, safe integers and strings. Objects, arrays, fractional numbers, NaN, Infinity and -0 are not modelled.
- `parseInt` returns an unbounded integer. Rounding to a double above 2^53, and the sign of `-0`, are not modelled; neither can change a comparison with 80 or 443.
- `isNaN` follows the current StringNumericLiteral grammar, including `0b` and `0o`. White space is the fixed list of WhiteSpace and LineTerminator code points from current Unicode.
- `encodeURIComponent`'s URIError for a lone surrogate is not modelled: a Dafny string holds Unicode scalar values only.
