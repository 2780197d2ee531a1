# ZXFoundation, modelled in Dafny

This project models the core of ZXFoundation, a small Swift library. The core is a typed HTTP request pipeline:

- An `Endpoint<T>` describes one resource: its URL, its `HTTPMethod<Data>`, optional header fields, and a parse function from response bytes to a `Result<T>`.
- `URLRequest(endpoint:)` turns an endpoint into a transport request.
- `Networker` sends the request through a session. The session is either a custom one, such as `MockURLSession`, or the platform default.
- `Networker` classifies the response's status code into an `HTTPStatus`, then either fails with the status's `NetworkError` or returns the endpoint's parse of the body.
- During TLS trust evaluation, `Networker` decides the challenge itself or delegates the decision to a pinning `Credential`.

The model also covers the library's small pure helpers:

- the `Result` composition operators;
- the null-aware `<` and `>` on optionals;
- the string wrappers and strippers;
- `Dictionary.map`;
- the ISO 8601 (section 5.6 of RFC 3339) fallback loop of `Date.iso8601Date(from:)`.

Several files exist in an older and a newer revision whose behaviour differs. Each revision is modelled on its own. Lemmas compare the two revisions where they overlap: status classification, request building, the `load` completion, and the trust decision.

Everything outside the library becomes a function-valued parameter (an oracle):

- the platform transport;
- `JSONSerialization`;
- `DateFormatter`;
- the single-pattern regular-expression test;
- the Security framework's trust evaluation. A `ServerTrust` value carries its certificate chain and its `SecTrustEvaluate` result.

Classes with `const` fields model the classes whose fields are set once in `init` and never reassigned: `Networker`, the older `Networker` (`LegacyNetworker` here) and `MockURLSession`. The loops of the source become methods with loops, proved against specification functions:

- the header loop of `URLRequest(endpoint:)`;
- `hasMatch(for: [String])`;
- `Dictionary.map`;
- the date fallback loop.

One module per source concept:

| file | module | models |
|---|---|---|
| primitives.dfy | `Primitives` | `Option`, `Data` (bytes), `URL` |
| errors.dfy | `Errors` | `NetworkError`, `ZXError`, Swift's `throws` |
| results.dfy | `Results` | `Result<Value>`, both revisions |
| http_status.dfy | `HTTPStatuses`, `LegacyHTTPStatuses` | `HTTPStatus(Int?)` and the older failable classifier |
| http_method.dfy | `HTTPMethods` | `HTTPMethod<Body>` |
| endpoint.dfy | `Endpoints` | `Endpoint<T>` and its JSON initializer |
| url_request.dfy | `Requests` | `URLRequest(endpoint:)`, both revisions |
| security.dfy | `Security` | trust, certificates, dispositions |
| credential.dfy | `Credentials` | `Credential` and `pin` |
| transport.dfy | `Transport`, `Mocks`, `Sessions` | responses, `MockURLSession`, the session abstraction |
| networker.dfy | `Networking` | the newer `Networker` |
| legacy_networker.dfy | `LegacyNetworking` | the older `Networker` |
| compare.dfy | `Comparisons` | optional `<` and `>` |
| strings.dfy | `Strings` | the `String` helpers, both revisions of `noSpaces` |
| dictionary.dfy | `Dictionaries` | `Dictionary.map(transform:)` |
| date.dfy | `Dates` | `Date.iso8601Date(from:)` |

## Behaviour worth noting

- **Transport error.** The newer `load` ignores the transport's error argument. The outcome depends only on the data and the status code. A reply with no response but an error completes with `unknown` (see `Networking.CompleteIgnoresTransportError`).
- **Completion shape.** The older `load` completes with a `(T?, Error?)` pair. A success status with no data completes with `(nil, nil)`: neither a value nor an error (see `LegacyNetworking.LegacyCompleteCases`).
- **`certify` arguments.** A `Credential`'s verification function receives the challenge, the server trust, the leaf certificate and the pinned data, and returns a disposition. `pin` always passes the server credential along with that disposition, even on a cancel (see `Credentials.Credential.Pin`).
- **Older `Endpoint` file.** That file is not part of this model. Its shape is taken from how the older `Networker` uses it: a URL, a method with a `Data` body, and a parse of type `Data throws -> T?`.

## Model

| member | source | states |
|---|---|---|
| Results.FromValue | Sources/ZXFoundation/Result/Result.swift:41 | `init(value:)` gives a result whose `value` is the argument and whose `error` is nil; the older `init(_ value:)` (ZXFoundation/Result/Result.swift:32) is the same |
| Results.FromError | Sources/ZXFoundation/Result/Result.swift:44 | `init(error:)` gives a result whose `error` is the argument and whose `value` is nil; the older `init(_ error:)` (ZXFoundation/Result/Result.swift:35) is the same |
| Results.ValueXorError | Sources/ZXFoundation/Result/Result.swift:47-62 | `Value` and `Error` (the `value` and `error` projections): `value` is present exactly for a success and `error` exactly for a failure; never both, never neither; each gives back the stored payload; the older projections (ZXFoundation/Result/Result.swift:38-53) are identical |
| Results.DeconstructRoundTrip | Sources/ZXFoundation/Result/Result.swift:66-72 | `Deconstruct` (`deconstruct`), with `Catching` (the caller's `do`/`catch`): `deconstruct` returns a success's payload and throws a failure's exact error; catching the throw rebuilds the original result; the older `deconstruct` (ZXFoundation/Result/Result.swift:57-63) is identical |
| Results.MapCases | Sources/ZXFoundation/Result/Result.swift:80-94 | `Map` (`map`, defined through `flatMap`): `success(v).map(f) == success(f(v))`; `failure(e).map(f) == failure(e)` whatever `f` is |
| Results.FlatMapCases | Sources/ZXFoundation/Result/Result.swift:88-94 | `FlatMap` (`flatMap`): `success(v).flatMap(f) == f(v)` with no double wrapping; a failure keeps its error |
| Results.MapIdentity | Sources/ZXFoundation/Result/Result.swift:80-94 | mapping the identity gives back the same result |
| Results.MapComposition | Sources/ZXFoundation/Result/Result.swift:80-94 | `r.map(f).map(g) == r.map(g ∘ f)` |
| Results.FlatMapAssociative | Sources/ZXFoundation/Result/Result.swift:88-94 | `r.flatMap(f).flatMap(g) == r.flatMap { f($0).flatMap(g) }` |
| Results.FlatMapUnit | Sources/ZXFoundation/Result/Result.swift:88-94 | `success` is a left and a right identity of `flatMap` |
| Results.ErrorTransformsKeepSuccess | Sources/ZXFoundation/Result/Result.swift:99-113 | `MapError` and `FlatMapError` (`mapError`, `flatMapError`): both return a success unchanged, whatever the transform |
| Results.FlatMapErrorRecovers | Sources/ZXFoundation/Result/Result.swift:99-113 | `failure(e).flatMapError(h) == h(e)`, so a failure can be recovered into a success; `failure(e).mapError(f) == failure(f(e))` |
| HTTPStatuses.Classify | ZXFoundation/ZXFoundation/Networking/Attributes/HTTPStatus.swift:32-45 | the classifier is total; `noStatus` exactly for a missing code or one outside 100...599; otherwise the RFC 9110 class of the code's first digit |
| HTTPStatuses.ClassifyRanges | ZXFoundation/ZXFoundation/Networking/Attributes/HTTPStatus.swift:34-43 | each of the five ranges maps to its case; nil counts as 0; 0, 600, 1000 and every negative code are `noStatus` |
| HTTPStatuses.ErrorMapping | ZXFoundation/ZXFoundation/Networking/Attributes/HTTPStatus.swift:51-57 | `error` is `.client` exactly for `clientError`, `.server` exactly for `serverError`, and `.unknown` for every other case |
| LegacyHTTPStatuses.AgreesWithCurrent | ZXFoundation/ZXFoundation/Networking/NSHTTPURLResponse.swift:32-44 | on every input the older classifier fails exactly where the newer one answers `noStatus`, and otherwise names the same case |
| LegacyHTTPStatuses.ClassifyRanges | ZXFoundation/ZXFoundation/Networking/NSHTTPURLResponse.swift:33-42 | nil fails; each range maps to its case (both directions); every code outside 100...599 fails |
| HTTPMethods.MethodTokens | ZXFoundation/ZXFoundation/Networking/Attributes/HTTPMethod.swift:33-40 | `method` is "GET", "POST", "PUT", "DELETE" for the four cases, and two methods share a token exactly when they are the same case |
| HTTPMethods.MapPreservesShape | ZXFoundation/ZXFoundation/Networking/Attributes/HTTPMethod.swift:46-53 | `map` keeps the case and the token, applies `f` exactly to a POST/PUT body, and gives GET/DELETE back whatever `f` is |
| HTTPMethods.MapIdentity | ZXFoundation/ZXFoundation/Networking/Attributes/HTTPMethod.swift:46-53 | `m.map(identity) == m` |
| HTTPMethods.MapComposition | ZXFoundation/ZXFoundation/Networking/Attributes/HTTPMethod.swift:46-53 | `m.map(f).map(g) == m.map(g ∘ f)` |
| Endpoints.JSONEndpoint | Sources/ZXFoundation/Networking/Models/Endpoint.swift:110-127 | URL and header fields stored as given; the method keeps its case and a POST/PUT body becomes its JSON serialization (required to exist, the `try!`); the parse fails with `.parse` exactly when the bytes do not decode, without calling the caller's parse, and is otherwise the caller's parse of the decoded object |
| Endpoints.JSONEndpointDefaults | Sources/ZXFoundation/Networking/Models/Endpoint.swift:110 | with the defaults the endpoint is a GET with no header fields |
| Requests.BodySelection | Sources/ZXFoundation/Networking/URLRequest.swift:32-39 | the body is nil exactly for GET and DELETE, and the payload for POST and PUT |
| Requests.FromEndpoint | Sources/ZXFoundation/Networking/URLRequest.swift:19-40 | the request has the endpoint's URL, method token and body; no header when the endpoint has no header fields; otherwise every header field once with its value and nothing else, per case-sensitive key |
| Requests.AddValues | Sources/ZXFoundation/Networking/URLRequest.swift:24-29 | the `addValue` loop adds each key of the dictionary exactly once, with its value, and no other header, whatever the key order |
| Requests.AddOneField | Sources/ZXFoundation/Networking/URLRequest.swift:26-28 | one more `addValue` for a key not yet added keeps every field added once |
| Requests.FromLegacyEndpoint | ZXFoundation/ZXFoundation/Networking/URLRequest.swift:19-30 | the older initializer sets the URL, the method token and the body, and no header |
| Requests.RevisionsAgreeWithoutHeaders | Sources/ZXFoundation/Networking/URLRequest.swift:19-40 | for an endpoint without header fields both revisions build the same request |
| Security.LeafCertificate | Sources/ZXFoundation/Networking/Networker.swift:93-94 | `SecTrustGetCertificateAtIndex(trust, 0)` is present exactly when the chain is non-empty, and is its first certificate |
| Credentials.Credential.Pin | Sources/ZXFoundation/Networking/Models/Credential.swift:69-72 | the disposition is exactly `certify(challenge, serverTrust, serverCert, data)` with the stored `data`, and the credential is always `serverCredential`, even on a cancel |
| Credentials.PinCertificate | Sources/ZXFoundation/Networking/Models/Credential.swift:20-39 | the documented `certify` answers `.useCredential` exactly when the trust evaluates to unspecified or proceed and the leaf's bytes equal the pinned data, and `.cancelAuthenticationChallenge` otherwise |
| Credentials.PinningRejectsOtherCertificates | Sources/ZXFoundation/Networking/Models/Credential.swift:33-36 | pinning with it rejects a leaf whose bytes differ from the pinned data, still passing the server credential |
| Transport.StatusCode | Sources/ZXFoundation/Networking/Networker.swift:76 | `(response as? HTTPURLResponse)?.statusCode` is present exactly for an HTTP response and is its code |
| Mocks.MockStatus | Sources/ZXFoundation/Networking/Mocks/MockURLSession.swift:84-97 | `HTTPStatus(mockStatus(s)) == s` for every case, and for the five classes the code is the first integer in the class's range, as the doc comment at lines 22-25 promises |
| Mocks.MockStatusTable | Sources/ZXFoundation/Networking/Mocks/MockURLSession.swift:87-97 | the table 100, 200, 300, 400, 500, and 0 for `noStatus` |
| Mocks.MockURLSession.constructor | Sources/ZXFoundation/Networking/Mocks/MockURLSession.swift:60-66 | a missing status defaults to `.success`; a missing data task defaults to a new mock data task; the header fields and resource are stored as given |
| Mocks.MockURLSession.CannedReply | Sources/ZXFoundation/Networking/Mocks/MockURLSession.swift:72-79 | when the resource loads: its bytes, an HTTP response for the mock host whose code is exactly `mockStatus` of the configured status (so it classifies back to it) and which carries the header fields, and no error; when it is missing: no data, no response, and `.notFound` |
| Mocks.MockURLSession.DataTaskWith | Sources/ZXFoundation/Networking/Mocks/MockURLSession.swift:72-81 | `dataTask` delivers the canned reply once and returns the same stored task on every call |
| Networking.CompleteCases | Sources/ZXFoundation/Networking/Networker.swift:74-83 | `Networking.Complete` (the completion closure of `load`, with `ReplyStatus` for its status line): with data and status `success` the outcome is `endpoint.parse(data)` unchanged; with no data or another status it is `.failure(status.error)`, so a 200 without data is `.failure(.unknown)` |
| Networking.CompleteIgnoresTransportError | Sources/ZXFoundation/Networking/Networker.swift:74 | the transport error argument never changes the outcome |
| Networking.CompleteExamples | Sources/ZXFoundation/Networking/Networker.swift:76-83 | 404 fails with `.client`, 503 with `.server`, 200 without data and a missing response with `.unknown`, 200 with data is the parse |
| Networking.Networker.constructor | Sources/ZXFoundation/Networking/Networker.swift:53-57 | stores the credential and the custom session as given |
| Networking.Networker.ActiveSession | Sources/ZXFoundation/Networking/Networker.swift:36-39 | the custom session when one was injected, otherwise the default |
| Networking.Networker.Load | Sources/ZXFoundation/Networking/Networker.swift:70-86 | the request is built from the endpoint as `URLRequest(endpoint:)` promises, sent once to the active session, and the completion receives the reply's outcome |
| Networking.Networker.DidReceive | Sources/ZXFoundation/Networking/Networker.swift:91-116 | no server trust or no leaf certificate: cancel with no credential; no `Credential`: use the server credential; otherwise exactly what `credential.pin` decides |
| Networking.LoadFromMock | Sources/ZXFoundation/Networking/Networker.swift:70-86 | through a mock session: the parse of the resource on `success`, `.unknown` when the resource is missing, the status's error for any other status |
| LegacyNetworking.LegacyCompleteCases | ZXFoundation/Networking/Networker.swift:78-94 | `LegacyNetworking.LegacyComplete` (the completion closure of the older `load`): a non-success status gives `(nil, status.error)` without parsing; success without data `(nil, nil)`; a parse that returns gives `(item, nil)`; a parse that throws gives `(nil, thrown)` |
| LegacyNetworking.RevisionsAgreeOnCompletion | ZXFoundation/Networking/Networker.swift:74-97 | for equivalent parses the two revisions complete alike, except that a success without data is `(nil, nil)` in the older one and `.failure(.unknown)` in the newer |
| LegacyNetworking.LegacyDecide | ZXFoundation/Networking/Networker.swift:102-148 | use the server credential exactly when trust and leaf exist and, with a pinned `cert`, the evaluation is unspecified or proceed and the leaf's bytes equal `cert`; otherwise cancel with no credential |
| LegacyNetworking.LegacyNetworker.constructor | ZXFoundation/Networking/Networker.swift:57-61 | stores the pinned certificate and the custom session as given |
| LegacyNetworking.LegacyNetworker.ActiveSession | ZXFoundation/Networking/Networker.swift:36-39 | the custom session when set, else the default |
| LegacyNetworking.LegacyNetworker.Load | ZXFoundation/Networking/Networker.swift:74-97 | the request is the older `URLRequest(endpoint:)`, and the completion receives the pair for the active session's reply |
| LegacyNetworking.LegacyNetworker.DidReceive | ZXFoundation/Networking/Networker.swift:102-148 | the delegate decides by the pinning table above |
| LegacyNetworking.PinningRevisionsAgree | ZXFoundation/Networking/Networker.swift:134-147 | a newer networker pinning with the documented `Credential` reaches the older one's disposition on every challenge; on a rejection only the newer one passes a credential |
| LegacyNetworking.UnpinnedRevisionsAgree | ZXFoundation/Networking/Networker.swift:118-122 | without pinning the two revisions decide every challenge identically |
| Comparisons.OperatorCases | Sources/ZXFoundation/Operators/Compare.swift:30-69 | some/some uses the underlying `<` and `>`; `nil < some`, not `some < nil`, not `nil < nil`; not `nil > some`, `some > nil`, `nil > nil` |
| Comparisons.GreaterIsConverseOfLess | Sources/ZXFoundation/Operators/Compare.swift:30-69 | for a `Comparable` type, `a > b == b < a` for every pair except `(nil, nil)`, where `>` holds and `<` does not |
| Comparisons.LessIsStrictOrder | Sources/ZXFoundation/Operators/Compare.swift:30-39 | given a strict order underneath, `<` on optionals is irreflexive and transitive, with nil below every value |
| Strings.Quotes | Sources/ZXFoundation/Foundation/String.swift:15-17 | `quotes` is the string between two `"` |
| Strings.Braces | Sources/ZXFoundation/Foundation/String.swift:25-27 | `braces` is the string between `{` and `}` |
| Strings.Without | Sources/ZXFoundation/Foundation/String.swift:53-55 | the literal replace with "" leaves no occurrence of the target and every other character as often as before |
| Strings.WithoutConcat | Sources/ZXFoundation/Foundation/String.swift:53-55 | removal distributes over concatenation, so the kept characters stay in order |
| Strings.WithoutSingle | Sources/ZXFoundation/Foundation/String.swift:53-55 | a single character is dropped exactly when it is the target |
| Strings.WithoutAbsent | Sources/ZXFoundation/Foundation/String.swift:43-45 | `Strings.NoSpaces` (`noSpaces`, which is `Without(s, ' ')`) is the identity on a string without spaces |
| Strings.WithoutIdempotent | ZXFoundation/ZXFoundation/Foundation/String.swift:14-16 | removal, hence the older and newer `noSpaces` and `noQuotes`, is idempotent |
| Strings.WithoutLength | ZXFoundation/ZXFoundation/Foundation/String.swift:14-16 | the result is shorter than the input by the number of spaces removed |
| Strings.NoQuotesUndoesQuotes | Sources/ZXFoundation/Foundation/String.swift:15-22 | `Strings.NoQuotes` (`noQuotes`, which is `Without(s, '"')`): `noQuotes(quotes(s)) == s` for a string without `"` |
| Strings.QuotesExample | Tests/ZXFoundationTests/Foundation/StringTests.swift:15-19 | the tested round trip on "hello, world       " |
| Strings.NoTrailingWhitespace | Sources/ZXFoundation/Foundation/String.swift:30-40 | the result is a prefix of the input that does not end in `' '`, and only `' '` characters follow it in the input |
| Strings.NoTrailingWhitespaceProperties | Sources/ZXFoundation/Foundation/String.swift:30-40 | idempotent; identity on a string not ending in `' '`; an all-space string becomes "" |
| Strings.NoTrailingWhitespaceExample | Tests/ZXFoundationTests/Foundation/StringTests.swift:23 | "hello, world       " becomes "hello, world" |
| Strings.HasMatchAny | Sources/ZXFoundation/Foundation/String.swift:79-84 | true exactly when some pattern matches (so false for an empty array); patterns are tried in order and the loop stops at the first match |
| Dictionaries.MapEntries | ZXFoundation/ZXFoundation/Foundation/Dictionary.swift:19-29 | the result's keys are exactly the transformed keys; every value comes from an input entry with that transformed key; at most as many entries as the input (none for an empty input); with a transform injective on keys, exactly as many, each input entry's pair present |
| Dictionaries.InsertedKeys | ZXFoundation/ZXFoundation/Foundation/Dictionary.swift:23-26 | after inserting entries in any order, the keys are exactly the transformed keys of the entries inserted |
| Dictionaries.InsertedValues | ZXFoundation/ZXFoundation/Foundation/Dictionary.swift:23-26 | every value present was written by an inserted entry with that key |
| Dictionaries.InsertedCount | ZXFoundation/ZXFoundation/Foundation/Dictionary.swift:23-26 | no more entries than insertions, and exactly as many for distinct entries and an injective transform |
| Dictionaries.InsertedExact | ZXFoundation/ZXFoundation/Foundation/Dictionary.swift:23-26 | with an injective transform, each inserted entry's transformed pair is in the result |
| Dates.FormatLengths | Sources/ZXFoundation/Foundation/Date.swift:40-48 | the seven patterns' lengths 26, 21, 18, 15, 10, 7, 4 |
| Dates.Working | Sources/ZXFoundation/Foundation/Date.swift:50-67 | the working string is always a prefix of the input |
| Dates.TruncationRule | Sources/ZXFoundation/Foundation/Date.swift:61-66 | the working string never grows; it is cut only when longer than the next pattern, to that length minus 2, which lies within the string |
| Dates.Iso8601Date | Sources/ZXFoundation/Foundation/Date.swift:38-73 | at most seven attempts in order; nil exactly when every attempt fails; otherwise the first successful attempt's date |
| Dates.DatePatternsSeeShortPrefixes | Sources/ZXFoundation/Foundation/Date.swift:61-66 | any input of 11 or more characters reaches the `yyyy-MM-dd`, `yyyy-MM` and `yyyy` attempts with 8, 5 and 2 characters |
| Dates.DatePatternsExample | Sources/ZXFoundation/Foundation/Date.swift:61-66 | "2016-11-04 10:00" reaches `yyyy-MM-dd` as "2016-11-" and `yyyy` as "20" |
| Dates.WidthsDiscountQuotes | Sources/ZXFoundation/Foundation/Date.swift:40-48 | the characters each pattern matches: its length less the quotes around `T`, which only the four time patterns have |
| Dates.WorkingIntended | Sources/ZXFoundation/Foundation/Date.swift:61-66 | the corrected cut also keeps the working string a prefix of the input |
| Dates.WorkingIntendedFitsPattern | Sources/ZXFoundation/Foundation/Date.swift:61-66 | with the corrected cut, attempt `k` sees the input's prefix as long as its pattern matches |
| Dates.DatePatternsIntendedExample | Sources/ZXFoundation/Foundation/Date.swift:61-66 | with the corrected cut, "2016-11-04 10:00" reaches `yyyy-MM-dd` as "2016-11-04" |

## Findings

| source | as written | input that shows it | evidently intended | confidence | as-written member | corrected member |
|---|---|---|---|---|---|---|
| Sources/ZXFoundation/Foundation/Date.swift:61-66 | Before a less precise attempt, the string is cut to the next pattern's length minus 2. The 2 is meant for the quotes around `T`, but it is also subtracted for `yyyy-MM-dd`, `yyyy-MM` and `yyyy`, which have no quotes. The guard also compares against the full pattern length. | "2016-11-04 10:00": every `T` pattern fails, then `yyyy-MM-dd` is tried on "2016-11-", `yyyy-MM` on "2016-" and `yyyy` on "20". The date part is never parsed, although the doc comment promises a partial date. | Cut to the number of characters the next pattern matches (24, 19, 16, 13, 10, 7, 4), so each attempt sees the input's prefix of its pattern's width. | not executed | Dates.DatePatternsSeeShortPrefixes | Dates.WorkingIntendedFitsPattern |

`Dates.Iso8601Date` keeps the cut as written. The corrected cut is `Dates.WorkingIntended`.

## Left out

- Platform transport: `URLSession`, `resume()`, delegate queues and the 30-second request timeout are out of scope. A platform session is a function from a request to its reply.
- Lazy default session: `defaultSession` is a `lazy var` in both `Networker`s. The model creates it eagerly as a `const`, because the laziness is not observable.
- Asynchronous completion: completion handlers become return values. Each `load` and `dataTask` returns exactly one outcome, which models "called exactly once".
- Security framework: `SecPolicyCreateSSL`, `SecTrustSetPolicies`, `SecTrustEvaluate` and `SecCertificateCopyData` are foreign calls. Their outcomes are inputs: the trust's evaluation result and the certificate bytes. The host-dependent SSL policy is therefore not modelled.
- `JSONSerialization` is a foreign codec, modelled as a pair of partial functions. A body it cannot serialize is a precondition of `Endpoints.JSONEndpoint`, standing for the `try!` crash.
- Requests.FromEndpoint: "each header field once" holds per case-sensitive dictionary key. `addValue(_:forHTTPHeaderField:)` treats field names case-insensitively, so keys that differ only in case (such as "Accept" and "accept") are one HTTP field, whose values the platform joins. The model appends one `(name, value)` pair per key and does not capture that merge.
- `MockURLSession.data` reads a bundle file. The model replaces that I/O with an optional byte string fixed for the session.
- `MockResource`, `MockURLSessionDataTask`, the session and data-task protocols, the header-field and content-type tables, and the `NSURLResponse` downcast have no behaviour beyond what the model already uses.
- `String.escaped` is platform percent-encoding. `String.random` uses `arc4random_uniform`. `hasMatch(for: String)` is the platform regex engine, and `Strings.HasMatchAny` takes it as an oracle.
- `CGRect` is floating-point geometry and is out of scope.
- `DateFormatter`, `hourMinute` and `monthDayYear` are out of scope. `Dates.Iso8601Date` takes the formatter's parse as an oracle.
- URL formation errors (`NetworkError.url`) arise only in callers' code, outside the library.
- The older `Endpoint` file is not part of this model. Its shape is taken from the older `Networker`.
- Strings.NoTrailingWhitespace: strings are sequences of Unicode scalars here. Swift's `characters.last` reads the last grapheme cluster, so a trailing space followed by a combining mark is a different last character in Swift than in the model.
- Dates.Iso8601Date: the guard and the cut count scalars, where Swift's `characters.count` and `index(_:offsetBy:)` count grapheme clusters. For input containing a combining sequence such as "e" + U+0301, the cut falls at a different place than in the source.
- Strings.NoSpaces: it models the newer revision's literal replacement. The older revision calls `stringByReplacingOccurrencesOfString` without `.literal`, so it compares by canonical equivalence. That comparison is not modelled, and the two revisions can differ where a space is followed by a combining mark.
- Strings.NoSpaces: the tested literal example "hello, world       " → "hello,world" is not restated. `Strings.WithoutConcat` and `Strings.WithoutSingle` characterize the function on every input.
