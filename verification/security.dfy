/**
 * The Security framework values a TLS server-trust challenge hands to the
 * library, as inputs: the server's certificate chain and the outcome of
 * evaluating the trust against the SSL policy for the challenged host.
 */
module Security {
  import opened Primitives

  /** A `SecCertificate`, known by the bytes `SecCertificateCopyData` returns. */
  datatype Certificate = Certificate(bytes: Data)

  /** `SecTrustResultType`. */
  datatype TrustResult = Invalid | Proceed | Deny | Unspecified | RecoverableTrustFailure | FatalTrustFailure | OtherError

  /**
   * A `SecTrust`: the certificate chain, leaf first, and the result
   * `SecTrustEvaluate` reports once the SSL policy for the host is set.
   */
  datatype ServerTrust = ServerTrust(chain: seq<Certificate>, evaluation: TrustResult)

  /** `SecTrustGetCertificateAtIndex(trust, 0)`: the leaf certificate, `nil` for an empty chain. */
  function LeafCertificate(trust: ServerTrust): (leaf: Option<Certificate>)
    ensures leaf.Some? <==> |trust.chain| > 0
    ensures leaf.Some? ==> leaf.value == trust.chain[0]
  {
    if |trust.chain| == 0 then None else Some(trust.chain[0])
  }

  /** The evaluation outcomes a pinning check accepts: `.unspecified` and `.proceed`. */
  predicate ServerIsTrusted(trust: ServerTrust) {
    trust.evaluation == Unspecified || trust.evaluation == Proceed
  }

  /** `URLProtectionSpace`: the challenged host and, for a TLS challenge, its server trust. */
  datatype ProtectionSpace = ProtectionSpace(host: string, serverTrust: Option<ServerTrust>)

  /** `URLAuthenticationChallenge`. */
  datatype Challenge = Challenge(protectionSpace: ProtectionSpace)

  /** `URLSession.AuthChallengeDisposition`. */
  datatype Disposition = UseCredential | PerformDefaultHandling | CancelAuthenticationChallenge | RejectProtectionSpace

  /** `URLCredential(trust:)`. */
  datatype URLCredential = URLCredential(trust: ServerTrust)

  /** The two arguments a delegate passes to the challenge's completion handler. */
  type Decision = (Disposition, Option<URLCredential>)
}
