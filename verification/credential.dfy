/**
 * `Credential`: locally hosted data to compare against the server's, and
 * the caller's procedure that decides a challenge from the server's trust,
 * its leaf certificate and that data.
 */
module Credentials {
  import opened Primitives
  import opened Security

  datatype Credential = Credential(
    data: Data,
    certify: (Challenge, ServerTrust, Certificate, Data) -> Disposition)
  {
    /**
     * `pin(challenge:serverTrust:serverCert:serverCredential:completion:)`:
     * one completion, whose disposition is exactly the `certify` verdict on
     * the stored data and whose credential is always the server credential,
     * even when the verdict is to cancel.
     */
    function Pin(challenge: Challenge, serverTrust: ServerTrust, serverCert: Certificate, serverCredential: URLCredential): (decision: Decision)
      ensures decision.0 == certify(challenge, serverTrust, serverCert, data)
      ensures decision.1 == Some(serverCredential)
    {
      (certify(challenge, serverTrust, serverCert, data), Some(serverCredential))
    }
  }

  /**
   * The certificate-pinning `certify` procedure of the type's documentation:
   * use the credential exactly when the trust evaluates as trusted and the
   * leaf certificate's bytes equal the hosted data; cancel otherwise.
   */
  function PinCertificate(challenge: Challenge, serverTrust: ServerTrust, serverCert: Certificate, data: Data): (d: Disposition)
    ensures d == UseCredential <==> ServerIsTrusted(serverTrust) && serverCert.bytes == data
    ensures d == UseCredential || d == CancelAuthenticationChallenge
  {
    if ServerIsTrusted(serverTrust) && serverCert.bytes == data then UseCredential else CancelAuthenticationChallenge
  }

  /** A certificate-pinning credential rejects every server whose leaf differs from the hosted bytes. */
  lemma PinningRejectsOtherCertificates(data: Data, challenge: Challenge, serverTrust: ServerTrust, serverCert: Certificate, serverCredential: URLCredential)
    requires serverCert.bytes != data
    ensures Credential(data, PinCertificate).Pin(challenge, serverTrust, serverCert, serverCredential) == (CancelAuthenticationChallenge, Some(serverCredential))
  {
  }
}
