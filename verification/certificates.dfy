/**
 * The server-certificate callback handed to the TLS options: it accepts the peer's
 * certificate exactly when the reported `SslPolicyErrors` value is `None`.
 */
module Certificates {

  /** The individual policy violations .NET reports. */
  datatype PolicyError =
    | RemoteCertificateNotAvailable
    | RemoteCertificateNameMismatch
    | RemoteCertificateChainErrors

  /** The `[Flags]` value `SslPolicyErrors`: `None` is 0, the violations are bits 1, 2 and 4. */
  newtype PolicyFlags = x: int | 0 <= x < 8

  const None: PolicyFlags := 0

  function Bit(e: PolicyError): PolicyFlags
  {
    match e
    case RemoteCertificateNotAvailable => 1
    case RemoteCertificateNameMismatch => 2
    case RemoteCertificateChainErrors => 4
  }

  /** The flags value that reports the given set of violations. */
  function Encode(errors: set<PolicyError>): PolicyFlags
  {
    (if RemoteCertificateNotAvailable in errors then 1 else 0)
    + (if RemoteCertificateNameMismatch in errors then 2 else 0)
    + (if RemoteCertificateChainErrors in errors then 4 else 0)
  }

  /** The violations a flags value reports. */
  function Decode(flags: PolicyFlags): set<PolicyError>
  {
    var f := flags as int;
    (if f % 2 == 1 then {RemoteCertificateNotAvailable} else {})
    + (if (f / 2) % 2 == 1 then {RemoteCertificateNameMismatch} else {})
    + (if (f / 4) % 2 == 1 then {RemoteCertificateChainErrors} else {})
  }

  lemma DecodeEncode(errors: set<PolicyError>)
    ensures Decode(Encode(errors)) == errors
  {
    forall e ensures e in Decode(Encode(errors)) <==> e in errors {
      match e
      case RemoteCertificateNotAvailable =>
      case RemoteCertificateNameMismatch =>
      case RemoteCertificateChainErrors =>
    }
  }

  lemma EncodeDecode(flags: PolicyFlags)
    ensures Encode(Decode(flags)) == flags
  {
  }

  /**
   * `ValidateServerCertificate`: accepts iff the reported value is `None`, that is iff no
   * violation at all is reported; any single violation rejects the server.
   */
  function ValidateServerCertificate(flags: PolicyFlags): (accept: bool)
    ensures accept <==> Decode(flags) == {}
    ensures forall e :: e in Decode(flags) ==> !accept
  {
    EncodeDecode(flags);
    flags == None
  }

  /** Stated over sets of violations: the server is accepted iff none is reported. */
  lemma AcceptedIffNoViolation(errors: set<PolicyError>)
    ensures ValidateServerCertificate(Encode(errors)) <==> errors == {}
  {
    DecodeEncode(errors);
  }
}
