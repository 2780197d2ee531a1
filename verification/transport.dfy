/**
 * What a session's data task hands to its completion handler: optional
 * bytes, an optional response and an optional error.
 */
module Transport {
  import opened Primitives
  import opened Errors

  /** `URLResponse`, and its subclass `HTTPURLResponse` carrying a status code and header fields. */
  datatype URLResponse =
    | URLResponse(url: URL)
    | HTTPURLResponse(url: URL, statusCode: int, headerFields: Option<map<string, string>>)

  /** `(response as? HTTPURLResponse)?.statusCode`: `nil` without a response or for a non-HTTP one. */
  function StatusCode(response: Option<URLResponse>): (code: Option<int>)
    ensures code.Some? <==> response.Some? && response.value.HTTPURLResponse?
    ensures code.Some? ==> code.value == response.value.statusCode
  {
    match response
    case Some(HTTPURLResponse(_, statusCode, _)) => Some(statusCode)
    case _ => None
  }

  /** The `(Data?, URLResponse?, Error?)` triple of a data task's completion handler. */
  datatype Reply = Reply(data: Option<Data>, response: Option<URLResponse>, error: Option<Error>)
}

/**
 * `MockURLSession`: an in-memory session answering every request with a
 * resource loaded from the bundle, a status code and header fields.
 */
module Mocks {
  import opened Primitives
  import opened Errors
  import opened HTTPStatuses
  import opened Transport
  import opened Requests

  /** `MockURLSessionDataTask`: a task whose identity is all the model needs. */
  class DataTask {
    constructor() {}
  }

  /** The URL of every mock response. */
  const MockHost: URL := "http://www.zx-ventures-ftw.com"

  /**
   * `mockStatus`: the code reported for a status, the first integer of the
   * class's range (0 for `noStatus`). Classifying it gives the status back,
   * and for each of the five classes no smaller code belongs to the class.
   */
  function MockStatus(status: HTTPStatus): (code: int)
    ensures Classify(Some(code)) == status
    ensures status != NoStatus ==> forall c :: Classify(Some(c)) == status ==> code <= c
  {
    match status
    case Info => 100
    case Success => 200
    case Redirect => 300
    case ClientError => 400
    case ServerError => 500
    case NoStatus => 0
  }

  /** The table of `mockStatus`, case by case. */
  lemma MockStatusTable()
    ensures MockStatus(Info) == 100 && MockStatus(Success) == 200 && MockStatus(Redirect) == 300
    ensures MockStatus(ClientError) == 400 && MockStatus(ServerError) == 500 && MockStatus(NoStatus) == 0
  {
  }

  class MockURLSession {
    /** The bytes of the bundle resource, `nil` when it cannot be loaded. */
    const resourceData: Option<Data>
    const statusCode: HTTPStatus
    const headerFields: Option<map<string, string>>
    const dataTask: DataTask

    /**
     * `init(mockResource:statusCode:headerFields:mockDataTask:)`: an omitted
     * status means `.success` and an omitted task a new mock task.
     */
    constructor(
      resourceData: Option<Data>,
      statusCode: Option<HTTPStatus> := None,
      headerFields: Option<map<string, string>> := None,
      mockDataTask: Option<DataTask> := None)
      ensures this.resourceData == resourceData && this.headerFields == headerFields
      ensures this.statusCode == (if statusCode.Some? then statusCode.value else Success)
      ensures mockDataTask.Some? ==> dataTask == mockDataTask.value
      ensures mockDataTask.None? ==> fresh(dataTask)
    {
      this.resourceData := resourceData;
      this.statusCode := if statusCode.Some? then statusCode.value else Success;
      this.headerFields := headerFields;
      if mockDataTask.Some? {
        dataTask := mockDataTask.value;
      } else {
        dataTask := new DataTask();
      }
    }

    /**
     * What every data task of this session reports: the resource with an
     * HTTP response for the mock host whose code is the first one of the
     * configured status's range, which classifies back as that status, and
     * which carries the configured header fields; or, when the resource cannot be
     * loaded, no data, no response and `notFound`.
     */
    function CannedReply(): (reply: Reply)
      ensures reply.data == resourceData
      ensures reply.error.Some? <==> resourceData.None?
      ensures reply.error.Some? ==> reply.error.value == Network(NotFound)
      ensures reply.response.Some? <==> resourceData.Some?
      ensures reply.response.Some? ==> reply.response.value.HTTPURLResponse? && reply.response.value.headerFields == headerFields
      ensures resourceData.Some? ==> Classify(StatusCode(reply.response)) == statusCode
      ensures resourceData.Some? ==> reply.response.value.statusCode == MockStatus(statusCode) && reply.response.value.url == MockHost
    {
      if resourceData.Some? then
        Reply(resourceData, Some(HTTPURLResponse(MockHost, MockStatus(statusCode), headerFields)), None)
      else
        Reply(None, None, Some(Network(NotFound)))
    }

    /**
     * `dataTask(with:completionHandler:)`: calls the handler once, before
     * returning, with the canned reply whatever the request, and returns the
     * stored task, the same object on every call.
     */
    method DataTaskWith(request: URLRequest) returns (reply: Reply, task: DataTask)
      ensures reply == CannedReply()
      ensures task == dataTask
    {
      reply := CannedReply();
      task := dataTask;
    }
  }
}

/**
 * `URLSessionType` as the library uses it: a platform session whose replies
 * are outside the model, or the in-memory mock.
 */
module Sessions {
  import opened Transport
  import opened Requests
  import opened Mocks

  datatype Session =
    | PlatformSession(respond: URLRequest -> Reply)
    | MockSession(mock: MockURLSession)

  /** The reply a session's data task hands to its completion handler for a request. */
  function SessionReply(session: Session, request: URLRequest): Reply {
    match session
    case PlatformSession(respond) => respond(request)
    case MockSession(mock) => mock.CannedReply()
  }
}
