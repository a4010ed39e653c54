/**
  The request signature shared by the scanner-side signer and the ingestor:
  HMAC-SHA256 under a shared key over the canonical text of the payload,
  rendered as 64 lower-case hex digits.
 */
module Signature {
  import opened Json
  import opened Canonical

  const ZERO_DIGEST: seq<byte> := seq(32, _ => 0)

  /** A SHA-256 sized digest: 32 bytes. */
  type Digest = d: seq<byte> | |d| == 32 witness ZERO_DIGEST

  /** HMAC-SHA256 of a message under a key. The message is always printable
      ASCII here, so its UTF-8 encoding is the text itself. */
  type Hmac = (string, string) -> Digest

  /** `compute_sig`: the MAC of the canonical text, in hex. */
  function ComputeSig(mac: Hmac, key: string, p: Payload): (r: string)
    ensures |r| == 64
    ensures forall i :: 0 <= i < |r| ==> r[i] in "0123456789abcdef"
  {
    HexDigest(mac(key, CanonicalText(p)))
  }

  /** The signature covers the items other than `sig` and nothing else: it
      does not depend on the order the items arrive in, nor on any `sig`
      item already present. */
  lemma SigDependsOnlyOnSignedFields(mac: Hmac, key: string, p: Payload, q: Payload)
    requires SignedFields(p) == SignedFields(q)
    ensures ComputeSig(mac, key, p) == ComputeSig(mac, key, q)
  {
    CanonicalDeterminedBySignedFields(p, q);
  }
}
