/**
  The scanner-side signer: sign a JSON object with the shared key and
  attach the signature under `sig` before posting it to the ingestor.
 */
module HmacPost {
  import opened Wrappers
  import opened Json
  import opened Canonical
  import opened Signature
  import Ingestor

  /** `compute_sig(obj, key)` followed by `payload['sig'] = sig`. */
  function Sign(mac: Hmac, key: string, obj: Payload): (r: Payload)
    ensures Get(r, SIG_KEY) == Some(Str(ComputeSig(mac, key, obj)))
    ensures SignedFields(r) == SignedFields(obj)
    ensures r != []
  {
    AttachSig(obj, ComputeSig(mac, key, obj))
  }

  /** The signature attached is the one the signed payload itself carries
      a valid signature for: recomputing over the signed payload gives it back. */
  lemma SignatureVerifiesOnSignedPayload(mac: Hmac, key: string, obj: Payload)
    ensures Get(Sign(mac, key, obj), SIG_KEY) == Some(Str(ComputeSig(mac, key, Sign(mac, key, obj))))
  {
    SigDependsOnlyOnSignedFields(mac, key, obj, Sign(mac, key, obj));
  }

  /** A payload signed with the ingestor's own key and MAC passes the
      ingestor's signature check, whatever order its items come in and
      whatever `sig` the object held before. */
  lemma ClientSignatureAccepted(service: Ingestor.IngestService, obj: Payload)
    ensures service.Authentic(Sign(service.mac, service.hmacKey, obj))
  {
    SignatureVerifiesOnSignedPayload(service.mac, service.hmacKey, obj);
  }

  /** Signing an already signed payload changes nothing. */
  lemma {:induction false} SignIdempotent(mac: Hmac, key: string, obj: Payload)
    ensures Sign(mac, key, Sign(mac, key, obj)) == Sign(mac, key, obj)
  {
    var once := Sign(mac, key, obj);
    SigDependsOnlyOnSignedFields(mac, key, obj, once);
    AttachSigIdempotent(obj, ComputeSig(mac, key, obj));
  }
}
