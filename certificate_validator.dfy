/** SMKCertificateDefaultValidator: accept/reject rules for sender and server
    certificates against a fixed trust root. Protobuf serialisation and
    Ed25519 verification are supplied from outside as `SignatureScheme`. */
module CertificateValidation {
  import opened Common

  /** A public key; `keyData` is what the signature primitive takes. */
  datatype PublicKey = PublicKey(keyData: Bytes)

  /** The sender certificate's fields the validator reads, plus the signed
      payload it does not. */
  datatype SenderCertificate = SenderCertificate(senderRecipientId: string, senderDeviceId: uint32, signedPayload: Bytes)

  datatype ServerCertificate = ServerCertificate(keyId: uint32, key: PublicKey, signatureData: Bytes)

  /** `SMKCertificateError.invalidCertificate(description:)`, or an error a
      primitive threw and the validator passed on. */
  datatype CertificateError =
    | InvalidCertificate(description: string)
    | PrimitiveThrew(error: ThrownError)

  const MissingField: string := "Missing field."
  const SignatureVerificationFailed: string := "Server certificate signature verification failed."
  const RevokedCertificate: string := "Revoked certificate."

  /** The foreign primitives: the canonical encoding of (keyId, key) that the
      server signs, and `Ed25519.verifySignature(signature, publicKey, data)`.
      Both may throw. */
  datatype SignatureScheme = SignatureScheme(
    serialize: (uint32, PublicKey) -> Result<Bytes, ThrownError>,
    verifySignature: (Bytes, Bytes, Bytes) -> Result<bool, ThrownError>)

  /** `kRevokedCertificateIds`: no certificate is revoked. */
  const RevokedCertificateIds: set<uint32> := {}

  /** The validator: its only state is the trust root given at construction. */
  datatype Validator = Validator(trustRoot: PublicKey)

  /** Sender validation: rejected with "Missing field." exactly when the
      recipient id is empty or the device id is zero. `validationTime` is not
      consulted. */
  function ValidateSender(v: Validator, cert: SenderCertificate, validationTime: uint64): (r: Outcome<CertificateError>)
    ensures r.Fail? <==> |cert.senderRecipientId| == 0 || cert.senderDeviceId == 0
    ensures r.Fail? ==> r.error == InvalidCertificate(MissingField)
  {
    if |cert.senderRecipientId| == 0 || cert.senderDeviceId == 0 then Fail(InvalidCertificate(MissingField))
    else Pass
  }

  /** Server validation against a revocation set: serialise, verify the
      signature under the trust root, then consult the revocation set. */
  function ValidateServerWith(v: Validator, cert: ServerCertificate, scheme: SignatureScheme, revoked: set<uint32>): (r: Outcome<CertificateError>)
    ensures r.Pass? <==>
      && scheme.serialize(cert.keyId, cert.key).Success?
      && scheme.verifySignature(cert.signatureData, v.trustRoot.keyData, scheme.serialize(cert.keyId, cert.key).value) == Success(true)
      && cert.keyId !in revoked
  {
    match scheme.serialize(cert.keyId, cert.key)
    case Failure(e) => Fail(PrimitiveThrew(e))
    case Success(certificateData) =>
      match scheme.verifySignature(cert.signatureData, v.trustRoot.keyData, certificateData)
      case Failure(e) => Fail(PrimitiveThrew(e))
      case Success(false) => Fail(InvalidCertificate(SignatureVerificationFailed))
      case Success(true) =>
        if cert.keyId in revoked then Fail(InvalidCertificate(RevokedCertificate)) else Pass
  }

  /** `throwswrapped_validate(serverCertificate:)`, with the built-in
      revocation set. */
  function ValidateServer(v: Validator, cert: ServerCertificate, scheme: SignatureScheme): (r: Outcome<CertificateError>)
    ensures r.Pass? <==>
      && scheme.serialize(cert.keyId, cert.key).Success?
      && scheme.verifySignature(cert.signatureData, v.trustRoot.keyData, scheme.serialize(cert.keyId, cert.key).value) == Success(true)
  {
    ValidateServerWith(v, cert, scheme, RevokedCertificateIds)
  }

  /** The validation time never changes the verdict. */
  lemma SenderValidationIgnoresTime(v: Validator, cert: SenderCertificate, t1: uint64, t2: uint64)
    ensures ValidateSender(v, cert, t1) == ValidateSender(v, cert, t2)
  {
  }

  /** A certificate whose signature does not verify over the serialised
      (keyId, key) under the trust root fails with the signature error. */
  lemma BadSignatureRejected(v: Validator, cert: ServerCertificate, scheme: SignatureScheme, revoked: set<uint32>)
    requires scheme.serialize(cert.keyId, cert.key).Success?
    requires scheme.verifySignature(cert.signatureData, v.trustRoot.keyData, scheme.serialize(cert.keyId, cert.key).value) == Success(false)
    ensures ValidateServerWith(v, cert, scheme, revoked) == Fail(InvalidCertificate(SignatureVerificationFailed))
  {
  }

  /** The signature check comes first: a badly signed certificate reports the
      signature error even when its key id is revoked, and a revoked one is
      reported as revoked only once its signature verified. */
  lemma SignatureCheckedBeforeRevocation(v: Validator, cert: ServerCertificate, scheme: SignatureScheme, revoked: set<uint32>)
    requires cert.keyId in revoked
    ensures ValidateServerWith(v, cert, scheme, revoked) == Fail(InvalidCertificate(RevokedCertificate)) <==>
      && scheme.serialize(cert.keyId, cert.key).Success?
      && scheme.verifySignature(cert.signatureData, v.trustRoot.keyData, scheme.serialize(cert.keyId, cert.key).value) == Success(true)
  {
  }

  /** A correctly signed certificate whose key id is revoked fails with
      "Revoked certificate."; one that is not revoked passes. */
  lemma RevocationDecidesSignedCertificates(v: Validator, cert: ServerCertificate, scheme: SignatureScheme, revoked: set<uint32>)
    requires scheme.serialize(cert.keyId, cert.key).Success?
    requires scheme.verifySignature(cert.signatureData, v.trustRoot.keyData, scheme.serialize(cert.keyId, cert.key).value) == Success(true)
    ensures ValidateServerWith(v, cert, scheme, revoked) ==
      if cert.keyId in revoked then Fail(InvalidCertificate(RevokedCertificate)) else Pass
  {
  }

  /** With the built-in (empty) revocation set, no certificate is ever
      reported as revoked. */
  lemma NothingRevokedByDefault(v: Validator, cert: ServerCertificate, scheme: SignatureScheme)
    ensures ValidateServer(v, cert, scheme) != Fail(InvalidCertificate(RevokedCertificate))
  {
  }

  /** Errors a primitive throws reach the caller unchanged. */
  lemma PrimitiveErrorsPropagate(v: Validator, cert: ServerCertificate, scheme: SignatureScheme, revoked: set<uint32>)
    ensures scheme.serialize(cert.keyId, cert.key).Failure? ==>
      ValidateServerWith(v, cert, scheme, revoked) == Fail(PrimitiveThrew(scheme.serialize(cert.keyId, cert.key).error))
    ensures scheme.serialize(cert.keyId, cert.key).Success? &&
            scheme.verifySignature(cert.signatureData, v.trustRoot.keyData, scheme.serialize(cert.keyId, cert.key).value).Failure? ==>
      ValidateServerWith(v, cert, scheme, revoked) ==
        Fail(PrimitiveThrew(scheme.verifySignature(cert.signatureData, v.trustRoot.keyData, scheme.serialize(cert.keyId, cert.key).value).error))
  {
  }
}
