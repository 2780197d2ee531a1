/**
 * `URLRequest(endpoint:)` in both revisions: the transport request built
 * from an endpoint's URL, method token, header fields and body.
 */
module Requests {
  import opened Primitives
  import opened HTTPMethods
  import opened Endpoints

  /**
   * The parts of Foundation's `URLRequest` the library sets. `headers` lists
   * the `addValue(_:forHTTPHeaderField:)` calls in the order they were made.
   */
  datatype URLRequest = URLRequest(
    url: URL,
    httpMethod: string,
    headers: seq<(string, string)>,
    httpBody: Option<Data>)

  /** `URLRequest(url:)`: a GET with no header fields and no body. */
  function Fresh(url: URL): URLRequest {
    URLRequest(url, "GET", [], None)
  }

  /** The body a request carries for a method: none for GET and DELETE, the payload for POST and PUT. */
  function HTTPBody(m: HTTPMethod<Data>): Option<Data> {
    match m
    case Get => None
    case Delete => None
    case Post(body) => Some(body)
    case Put(body) => Some(body)
  }

  /** The body is present exactly for POST and PUT, and is then the method's payload. */
  lemma BodySelection(m: HTTPMethod<Data>)
    ensures HTTPBody(m).None? <==> m.Get? || m.Delete?
    ensures m.HasBody() ==> HTTPBody(m) == Some(m.body)
  {
  }

  /**
   * The header list adds every field of `fields` with its value, each one
   * exactly once, and nothing else.
   */
  ghost predicate AddsEachFieldOnce(headers: seq<(string, string)>, fields: map<string, string>) {
    AddsFieldsOnce(headers, fields.Keys, fields)
  }

  /**
   * The header list adds exactly the fields named in `names`, each with its
   * value in `fields` and each once.
   */
  ghost predicate AddsFieldsOnce(headers: seq<(string, string)>, names: set<string>, fields: map<string, string>) {
    && FieldNames(headers) == names
    && |headers| == |names|
    && (forall i :: 0 <= i < |headers| ==> headers[i].0 in fields && fields[headers[i].0] == headers[i].1)
    && (forall i, j :: 0 <= i < j < |headers| ==> headers[i].0 != headers[j].0)
  }

  /** The field names a header list mentions. */
  ghost function FieldNames(headers: seq<(string, string)>): set<string> {
    set i | 0 <= i < |headers| :: headers[i].0
  }

  /**
   * The request an endpoint yields in the newer revision: its URL, its
   * method's token and body, and one header per header field (none when the
   * endpoint has no header fields).
   */
  ghost predicate BuiltFrom<T>(endpoint: Endpoint<T>, request: URLRequest) {
    && request.url == endpoint.url
    && request.httpMethod == endpoint.requestMethod.Method()
    && request.httpBody == HTTPBody(endpoint.requestMethod)
    && (endpoint.headerFields.None? ==> request.headers == [])
    && (endpoint.headerFields.Some? ==> AddsEachFieldOnce(request.headers, endpoint.headerFields.value))
  }

  /**
   * `init(endpoint:)`, newer revision: sets the method token, adds each
   * header field, then sets the body.
   */
  method FromEndpoint<T>(endpoint: Endpoint<T>) returns (request: URLRequest)
    ensures BuiltFrom(endpoint, request)
  {
    request := Fresh(endpoint.url);
    request := request.(httpMethod := endpoint.requestMethod.Method());
    if endpoint.headerFields.Some? {
      var headers := AddValues(endpoint.headerFields.value);
      request := request.(headers := headers);
    }
    request := request.(httpBody := HTTPBody(endpoint.requestMethod));
  }

  /**
   * The `for key in headerFields.keys { addValue(...) }` loop of
   * `init(endpoint:)` on a fresh request: one `addValue` per key, in the
   * dictionary's unspecified key order.
   */
  method AddValues(headerFields: map<string, string>) returns (headers: seq<(string, string)>)
    ensures AddsEachFieldOnce(headers, headerFields)
  {
    headers := [];
    var keys := headerFields.Keys;
    ghost var added: set<string> := {};
    while keys != {}
      invariant keys !! added && keys + added == headerFields.Keys
      invariant AddsFieldsOnce(headers, added, headerFields)
      decreases keys
    {
      var key :| key in keys;
      // The source's `guard let value = headerFields[key]` cannot fail: the key came from the dictionary.
      var value := headerFields[key];
      AddOneField(headers, added, headerFields, key);
      headers := headers + [(key, value)];
      added := added + {key};
      keys := keys - {key};
    }
  }

  /** One more `addValue` for a field not yet added keeps the list adding each field once. */
  lemma AddOneField(headers: seq<(string, string)>, names: set<string>, fields: map<string, string>, key: string)
    requires AddsFieldsOnce(headers, names, fields)
    requires key in fields && key !in names
    ensures AddsFieldsOnce(headers + [(key, fields[key])], names + {key}, fields)
  {
    var longer := headers + [(key, fields[key])];
    FieldNamesAppend(headers, (key, fields[key]));
    forall i | 0 <= i < |headers| ensures headers[i].0 != key {
      assert headers[i].0 in FieldNames(headers);
    }
    assert forall i :: 0 <= i < |headers| ==> longer[i] == headers[i];
    assert longer[|headers|] == (key, fields[key]);
    assert |names + {key}| == |names| + 1;
  }

  /** Adding one header adds its field name to the names mentioned. */
  lemma FieldNamesAppend(before: seq<(string, string)>, header: (string, string))
    ensures FieldNames(before + [header]) == FieldNames(before) + {header.0}
  {
    var headers := before + [header];
    forall name | name in FieldNames(headers) ensures name in FieldNames(before) + {header.0} {
      var i :| 0 <= i < |headers| && headers[i].0 == name;
      if i < |before| { assert before[i].0 == name; }
    }
    forall name | name in FieldNames(before) ensures name in FieldNames(headers) {
      var i :| 0 <= i < |before| && before[i].0 == name;
      assert headers[i].0 == name;
    }
    assert headers[|before|].0 == header.0;
  }

  /** `init(endpoint:)`, older revision: the method token and the body, and no header fields. */
  function FromLegacyEndpoint<T>(endpoint: LegacyEndpoint<T>): (request: URLRequest)
    ensures request.headers == []
    ensures request.url == endpoint.url && request.httpMethod == endpoint.requestMethod.Method()
    ensures request.httpBody == HTTPBody(endpoint.requestMethod)
  {
    Fresh(endpoint.url).(httpMethod := endpoint.requestMethod.Method(), httpBody := HTTPBody(endpoint.requestMethod))
  }

  /**
   * The two revisions build the same request for an endpoint without header
   * fields: the newer one differs only by the headers it adds.
   */
  lemma RevisionsAgreeWithoutHeaders<T, U>(endpoint: Endpoint<T>, legacy: LegacyEndpoint<U>, request: URLRequest)
    requires endpoint.url == legacy.url && endpoint.requestMethod == legacy.requestMethod
    requires endpoint.headerFields.None? && BuiltFrom(endpoint, request)
    ensures request == FromLegacyEndpoint(legacy)
  {
  }
}
