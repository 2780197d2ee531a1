/**
 * The older revision's `Networker`: the same session selection, a
 * `(T?, Error?)` completion instead of a `Result`, and certificate pinning
 * written inline against optional pinned bytes.
 */
module LegacyNetworking {
  import opened Primitives
  import opened Errors
  import opened Results
  import opened HTTPStatuses
  import opened Endpoints
  import opened Requests
  import opened Transport
  import opened Sessions
  import opened Security
  import opened Credentials
  import opened Networking

  /** The two arguments of the older completion handler: an optional item and an optional error. */
  type Completion<T> = (Option<T>, Option<Error>)

  /**
   * The completion closure of the older `load`: a status other than
   * `success` reports the status's error; otherwise the data, when present,
   * goes through the throwing parse, whose value or thrown error is
   * reported; a `success` without data reports neither.
   */
  function LegacyComplete<T>(endpoint: LegacyEndpoint<T>, reply: Reply): Completion<T> {
    var status := ReplyStatus(reply);
    if status != HTTPStatus.Success then (None, Some(Network(status.Error())))
    else if reply.data.None? then (None, None)
    else
      match endpoint.parse(reply.data.value)
      case Returns(item) => (item, None)
      case Throws(error) => (None, Some(error))
  }

  /** The older completion by case, including the `(nil, nil)` of a `success` without data. */
  lemma LegacyCompleteCases<T>(endpoint: LegacyEndpoint<T>, reply: Reply, data: Data)
    ensures ReplyStatus(reply) != HTTPStatus.Success ==> LegacyComplete(endpoint, reply) == (None, Some(Network(ReplyStatus(reply).Error())))
    ensures ReplyStatus(reply) == HTTPStatus.Success && reply.data.None? ==> LegacyComplete(endpoint, reply) == (None, None)
    ensures ReplyStatus(reply) == HTTPStatus.Success && reply.data == Some(data) && endpoint.parse(data).Returns? ==>
      LegacyComplete(endpoint, reply) == (endpoint.parse(data).value, None)
    ensures ReplyStatus(reply) == HTTPStatus.Success && reply.data == Some(data) && endpoint.parse(data).Throws? ==>
      LegacyComplete(endpoint, reply) == (None, Some(endpoint.parse(data).error))
  {
  }

  /** An older-revision parse that behaves like a newer one: a success returns its value, a failure throws its error. */
  function AsThrowing<T>(r: Result<T>): Throwing<Option<T>> {
    match r
    case Success(v) => Returns(Some(v))
    case Failure(e) => Throws(e)
  }

  /** A `Result` spread over the older completion's two arguments. */
  function AsCompletion<T>(r: Result<T>): Completion<T> {
    match r
    case Success(v) => (Some(v), None)
    case Failure(e) => (None, Some(e))
  }

  /**
   * For endpoints whose parses correspond, the two revisions report the
   * same outcome on every reply, except a `success` without data: the newer
   * one fails with `unknown` where the older one reports neither value nor
   * error.
   */
  lemma RevisionsAgreeOnCompletion<T>(endpoint: Endpoint<T>, legacy: LegacyEndpoint<T>, reply: Reply)
    requires forall data :: legacy.parse(data) == AsThrowing(endpoint.parse(data))
    ensures reply.data.None? && ReplyStatus(reply) == HTTPStatus.Success ==>
      Complete(endpoint, reply) == Failure(Network(Unknown)) && LegacyComplete(legacy, reply) == (None, None)
    ensures reply.data.Some? || ReplyStatus(reply) != HTTPStatus.Success ==>
      LegacyComplete(legacy, reply) == AsCompletion(Complete(endpoint, reply))
  {
    if reply.data.Some? && ReplyStatus(reply) == HTTPStatus.Success {
      assert legacy.parse(reply.data.value) == AsThrowing(endpoint.parse(reply.data.value));
    }
  }

  /**
   * The inline pinning of the older delegate: cancel without a credential
   * when there is no server trust or no leaf certificate, or when a pinned
   * certificate is configured and the trust does not evaluate as trusted or
   * the leaf's bytes differ from it; otherwise use the server credential.
   */
  function LegacyDecide(cert: Option<Data>, challenge: Challenge): (decision: Decision)
    ensures decision.0 == UseCredential <==>
      && challenge.protectionSpace.serverTrust.Some?
      && LeafCertificate(challenge.protectionSpace.serverTrust.value).Some?
      && (cert.Some? ==>
            && ServerIsTrusted(challenge.protectionSpace.serverTrust.value)
            && LeafCertificate(challenge.protectionSpace.serverTrust.value).value.bytes == cert.value)
    ensures decision.0 == UseCredential ==> decision.1 == Some(URLCredential(challenge.protectionSpace.serverTrust.value))
    ensures decision.0 != UseCredential ==> decision == (CancelAuthenticationChallenge, None)
  {
    match challenge.protectionSpace.serverTrust
    case None => (CancelAuthenticationChallenge, None)
    case Some(trust) =>
      match LeafCertificate(trust)
      case None => (CancelAuthenticationChallenge, None)
      case Some(serverCert) =>
        var credential := URLCredential(trust);
        match cert
        case None => (UseCredential, Some(credential))
        case Some(pinned) =>
          if ServerIsTrusted(trust) && serverCert.bytes == pinned then (UseCredential, Some(credential))
          else (CancelAuthenticationChallenge, None)
  }

  class LegacyNetworker {
    /** The pinned certificate bytes, if any. */
    const cert: Option<Data>
    const customSession: Option<Session>
    const defaultSession: Session

    /** `init(certificate:session:)`; the platform session's replies are a parameter. */
    constructor(platform: URLRequest -> Reply, cert: Option<Data> := None, session: Option<Session> := None)
      ensures this.cert == cert && customSession == session
      ensures defaultSession == PlatformSession(platform)
    {
      this.cert := cert;
      customSession := session;
      defaultSession := PlatformSession(platform);
    }

    /** `session`: the injected session when there is one, the default session otherwise. */
    function ActiveSession(): (session: Session)
      ensures customSession.Some? ==> session == customSession.value
      ensures customSession.None? ==> session == defaultSession
    {
      if customSession.Some? then customSession.value else defaultSession
    }

    /**
     * `load(_:completion:)`: builds the request without header fields, runs
     * one data task on the active session and completes once with the older
     * completion of its reply.
     */
    method Load<T>(endpoint: LegacyEndpoint<T>) returns (outcome: Completion<T>, request: URLRequest)
      ensures request == FromLegacyEndpoint(endpoint)
      ensures outcome == LegacyComplete(endpoint, SessionReply(ActiveSession(), request))
    {
      request := FromLegacyEndpoint(endpoint);
      var reply: Reply;
      match ActiveSession() {
        case PlatformSession(respond) =>
          reply := respond(request);
        case MockSession(mock) =>
          var task;
          reply, task := mock.DataTaskWith(request);
      }
      outcome := LegacyComplete(endpoint, reply);
    }

    /** `urlSession(_:didReceive:completionHandler:)`, pinning against `cert`. */
    function DidReceive(challenge: Challenge): (decision: Decision)
      ensures decision == LegacyDecide(cert, challenge)
    {
      LegacyDecide(cert, challenge)
    }
  }

  /**
   * A newer networker pinning with the documented certificate-pinning
   * `Credential` reaches the same disposition as an older one pinning the
   * same bytes, on every challenge. The credentials differ only on a
   * rejection: the newer revision still passes the server credential, the
   * older one passes none.
   */
  lemma PinningRevisionsAgree(networker: Networker, legacy: LegacyNetworker, data: Data, challenge: Challenge)
    requires networker.credential == Some(Credential(data, PinCertificate))
    requires legacy.cert == Some(data)
    ensures networker.DidReceive(challenge).0 == legacy.DidReceive(challenge).0
    ensures legacy.DidReceive(challenge).0 == UseCredential ==> networker.DidReceive(challenge) == legacy.DidReceive(challenge)
    ensures (legacy.DidReceive(challenge).0 != UseCredential && challenge.protectionSpace.serverTrust.Some?
             && LeafCertificate(challenge.protectionSpace.serverTrust.value).Some?) ==>
      networker.DidReceive(challenge).1 == Some(URLCredential(challenge.protectionSpace.serverTrust.value))
  {
  }

  /** Without pinning configured, the two revisions decide every challenge identically. */
  lemma UnpinnedRevisionsAgree(networker: Networker, legacy: LegacyNetworker, challenge: Challenge)
    requires networker.credential.None? && legacy.cert.None?
    ensures networker.DidReceive(challenge) == legacy.DidReceive(challenge)
  {
  }
}
