/**
 * `Endpoint<T>`: an immutable description of one typed network resource
 * (its URL, method with an encoded body, optional header fields, and the
 * parse function from response bytes to a `Result<T>`), and the JSON
 * convenience initializer that wraps a caller's parse function behind a
 * decode step.
 */
module Endpoints {
  import opened Primitives
  import opened Errors
  import opened Results
  import opened HTTPMethods

  datatype Endpoint<T> = Endpoint(
    url: URL,
    requestMethod: HTTPMethod<Data>,
    headerFields: Option<map<string, string>>,
    parse: Data -> Result<T>)

  /**
   * The older revision's endpoint, as its `Networker` and `URLRequest` use
   * it: a URL, a method with an encoded body, and a throwing parse that may
   * also return `nil`.
   */
  datatype LegacyEndpoint<T> = LegacyEndpoint(
    url: URL,
    requestMethod: HTTPMethod<Data>,
    parse: Data -> Throwing<Option<T>>)

  /**
   * Foundation's `JSONSerialization`, a codec outside this library, as two
   * partial functions: `data(withJSONObject:)` from a JSON object `J` to
   * bytes, and `jsonObject(with:)` from bytes back to an object.
   */
  datatype JSONSerialization<!J> = JSONSerialization(
    data: J -> Option<Data>,
    jsonObject: Data -> Option<J>)

  /**
   * What the initializer's `try!` demands of its caller: a POST or PUT body
   * that the codec can serialize (any other body crashes the program).
   */
  predicate Serializable<J>(json: JSONSerialization<J>, requestMethod: HTTPMethod<J>) {
    requestMethod.HasBody() ==> json.data(requestMethod.body).Some?
  }

  /** The bytes of a body the caller guarantees is serializable. */
  function Serialized<J>(json: JSONSerialization<J>, body: J): Data {
    match json.data(body)
    case Some(bytes) => bytes
    case None => []
  }

  /** The endpoint's parse: decode the bytes, then hand the object to the caller's parse. */
  function DecodeThenParse<T, J>(json: JSONSerialization<J>, parse: J -> Result<T>, bytes: Data): Result<T> {
    match json.jsonObject(bytes)
    case Some(decoded) => parse(decoded)
    case None => Failure(Network(Parse))
  }

  /**
   * `init(url:method:headerFields:parse:)`. The URL and header fields are
   * kept as given, the method keeps its case with a POST or PUT body replaced
   * by its JSON encoding, and the endpoint's parse fails with `parse` exactly
   * when the bytes do not decode, without consulting the caller's parse;
   * otherwise it is the caller's parse of the decoded object.
   */
  function JSONEndpoint<T, J>(
    json: JSONSerialization<J>,
    url: URL,
    parse: J -> Result<T>,
    requestMethod: HTTPMethod<J> := Get,
    headerFields: Option<map<string, string>> := None): (e: Endpoint<T>)
    requires Serializable(json, requestMethod)
    ensures e.url == url && e.headerFields == headerFields
    ensures SameCase(e.requestMethod, requestMethod)
    ensures requestMethod.HasBody() ==> json.data(requestMethod.body) == Some(e.requestMethod.body)
    ensures forall bytes :: json.jsonObject(bytes).None? ==> e.parse(bytes) == Failure(Network(Parse))
    ensures forall bytes :: json.jsonObject(bytes).Some? ==> e.parse(bytes) == parse(json.jsonObject(bytes).value)
  {
    Endpoint(
      url,
      requestMethod.Map(body => Serialized(json, body)),
      headerFields,
      bytes => DecodeThenParse(json, parse, bytes))
  }

  /** With the defaults, the endpoint is a GET without header fields. */
  lemma JSONEndpointDefaults<T, J>(json: JSONSerialization<J>, url: URL, parse: J -> Result<T>)
    ensures JSONEndpoint(json, url, parse).requestMethod == Get
    ensures JSONEndpoint(json, url, parse).headerFields == None
  {
  }
}
