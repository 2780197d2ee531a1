/**
 * `Networker`: loads an endpoint through a session and turns the data
 * task's reply into the endpoint's `Result`, and decides TLS server-trust
 * challenges, pinning through a `Credential` when one is configured.
 */
module Networking {
  import opened Primitives
  import opened Errors
  import opened Results
  import opened HTTPStatuses
  import opened Endpoints
  import opened Requests
  import opened Transport
  import opened Mocks
  import opened Sessions
  import opened Security
  import opened Credentials

  /** The class of the reply's status code; a missing or non-HTTP response counts as no code. */
  function ReplyStatus(reply: Reply): HTTPStatus {
    Classify(StatusCode(reply.response))
  }

  /**
   * The completion closure of `load`: without data, or with a status other
   * than `success`, the status's error; otherwise the endpoint's own parse
   * of the data. The reply's error is not consulted.
   */
  function Complete<T>(endpoint: Endpoint<T>, reply: Reply): Result<T> {
    var status := ReplyStatus(reply);
    if reply.data.None? || status != HTTPStatus.Success then Failure(Network(status.Error()))
    else endpoint.parse(reply.data.value)
  }

  /**
   * The outcome of `load` by case: the endpoint's parse is the outcome
   * exactly for data with a `success` status; every other reply fails with
   * the status's error, which is `unknown` for a 2xx reply without data.
   */
  lemma CompleteCases<T>(endpoint: Endpoint<T>, reply: Reply)
    ensures reply.data.Some? && ReplyStatus(reply) == HTTPStatus.Success ==> Complete(endpoint, reply) == endpoint.parse(reply.data.value)
    ensures ReplyStatus(reply) != HTTPStatus.Success ==> Complete(endpoint, reply) == Failure(Network(ReplyStatus(reply).Error()))
    ensures reply.data.None? ==> Complete(endpoint, reply) == Failure(Network(ReplyStatus(reply).Error()))
    ensures reply.data.None? && ReplyStatus(reply) == HTTPStatus.Success ==> Complete(endpoint, reply) == Failure(Network(Unknown))
  {
  }

  /** The transport error is ignored: the outcome depends on the data and the status code alone. */
  lemma CompleteIgnoresTransportError<T>(endpoint: Endpoint<T>, reply: Reply, error: Option<Error>)
    ensures Complete(endpoint, reply.(error := error)) == Complete(endpoint, reply)
  {
  }

  /**
   * Concrete replies: a 404 fails with `client`, a 503 with `server`, a 200
   * without data with `unknown`, a 200 with data is the endpoint's parse,
   * and a reply without a response (a transport failure) fails with `unknown`.
   */
  lemma CompleteExamples<T>(endpoint: Endpoint<T>, data: Data, headers: Option<map<string, string>>, error: Error)
    ensures Complete(endpoint, Reply(Some(data), Some(HTTPURLResponse(MockHost, 404, headers)), None)) == Failure(Network(Client))
    ensures Complete(endpoint, Reply(Some(data), Some(HTTPURLResponse(MockHost, 503, headers)), None)) == Failure(Network(Server))
    ensures Complete(endpoint, Reply(None, Some(HTTPURLResponse(MockHost, 200, headers)), None)) == Failure(Network(Unknown))
    ensures Complete(endpoint, Reply(Some(data), Some(HTTPURLResponse(MockHost, 200, headers)), None)) == endpoint.parse(data)
    ensures Complete(endpoint, Reply(None, None, Some(error))) == Failure(Network(Unknown))
  {
    ClassifyRanges(404);
    ClassifyRanges(503);
    ClassifyRanges(200);
  }

  class Networker {
    const credential: Option<Credential>
    const customSession: Option<Session>
    /** The platform session used when no custom session was injected. */
    const defaultSession: Session

    /**
     * `init(credential:session:)`. The platform session's replies are a
     * parameter: they come from the network.
     */
    constructor(platform: URLRequest -> Reply, credential: Option<Credential> := None, session: Option<Session> := None)
      ensures this.credential == credential && customSession == session
      ensures defaultSession == PlatformSession(platform)
    {
      this.credential := credential;
      customSession := session;
      defaultSession := PlatformSession(platform);
    }

    /** `session`: the injected session when there is one, the default session otherwise. */
    function ActiveSession(): (session: Session)
      ensures customSession.Some? ==> session == customSession.value
      ensures customSession.None? ==> session == defaultSession
    {
      if customSession.Some? then customSession.value else defaultSession
    }

    /**
     * `load(_:completion:)`: builds the request from the endpoint, runs one
     * data task on the active session, and completes once with the outcome
     * of that task's reply.
     */
    method Load<T>(endpoint: Endpoint<T>) returns (outcome: Result<T>, request: URLRequest)
      ensures BuiltFrom(endpoint, request)
      ensures outcome == Complete(endpoint, SessionReply(ActiveSession(), request))
    {
      request := FromEndpoint(endpoint);
      var reply: Reply;
      match ActiveSession() {
        case PlatformSession(respond) =>
          reply := respond(request);
        case MockSession(mock) =>
          var task;
          reply, task := mock.DataTaskWith(request);
      }
      outcome := Complete(endpoint, reply);
    }

    /**
     * `urlSession(_:didReceive:completionHandler:)`: cancel, with no
     * credential, when the challenge has no server trust or the trust no
     * leaf certificate; accept with the server credential when no
     * `Credential` is configured; otherwise whatever `pin` decides.
     */
    function DidReceive(challenge: Challenge): (decision: Decision)
      ensures challenge.protectionSpace.serverTrust.None? ==> decision == (CancelAuthenticationChallenge, None)
      ensures challenge.protectionSpace.serverTrust.Some? ==>
        var trust := challenge.protectionSpace.serverTrust.value;
        && (LeafCertificate(trust).None? ==> decision == (CancelAuthenticationChallenge, None))
        && (LeafCertificate(trust).Some? && credential.None? ==> decision == (UseCredential, Some(URLCredential(trust))))
        && (LeafCertificate(trust).Some? && credential.Some? ==>
              decision == credential.value.Pin(challenge, trust, LeafCertificate(trust).value, URLCredential(trust)))
    {
      match challenge.protectionSpace.serverTrust
      case None => (CancelAuthenticationChallenge, None)
      case Some(trust) =>
        match LeafCertificate(trust)
        case None => (CancelAuthenticationChallenge, None)
        case Some(serverCert) =>
          var serverCredential := URLCredential(trust);
          match credential
          case None => (UseCredential, Some(serverCredential))
          case Some(pinning) => pinning.Pin(challenge, trust, serverCert, serverCredential)
    }
  }

  /**
   * A networker with a mock session completes with the endpoint's parse of
   * the resource when the mock reports `success`, with `unknown` when the
   * resource is missing, and with the status's error for any other status.
   */
  lemma LoadFromMock<T>(networker: Networker, mock: MockURLSession, endpoint: Endpoint<T>, request: URLRequest)
    requires networker.customSession == Some(MockSession(mock))
    ensures mock.resourceData.Some? && mock.statusCode == HTTPStatus.Success ==>
      Complete(endpoint, SessionReply(networker.ActiveSession(), request)) == endpoint.parse(mock.resourceData.value)
    ensures mock.resourceData.None? ==>
      Complete(endpoint, SessionReply(networker.ActiveSession(), request)) == Failure(Network(Unknown))
    ensures mock.resourceData.Some? && mock.statusCode != HTTPStatus.Success ==>
      Complete(endpoint, SessionReply(networker.ActiveSession(), request)) == Failure(Network(mock.statusCode.Error()))
  {
    var reply := mock.CannedReply();
    assert SessionReply(networker.ActiveSession(), request) == reply;
    if mock.resourceData.None? {
      assert ReplyStatus(reply) == NoStatus;
    }
  }
}
