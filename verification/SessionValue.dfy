/** What the session store keeps of a bearer value: a digest, or from older writers the value itself (internal/crypto/session_value.go). */
module SessionValue {
  import opened Text

  const DIGEST_PREFIX: Str := "sha256:"

  function HashSessionValue(sha: Str -> Str, value: Str): Str {
    if value == [] then [] else DIGEST_PREFIX + sha(value)
  }

  predicate VerifySessionValue(sha: Str -> Str, presented: Str, stored: Str) {
    if presented == [] || stored == [] then false
    else if HasPrefix(stored, DIGEST_PREFIX) then HashSessionValue(sha, presented) == stored
    else presented == stored
  }

  /** The alphabet of tokens: unpadded base64url, and the dots of a JWT. */
  predicate TokenByte(c: byte) {
    'a' <= c <= 'z' || 'A' <= c <= 'Z' || '0' <= c <= '9' || c == '-' || c == '_' || c == '.'
  }

  predicate TokenText(t: Str) { t != [] && forall i :: 0 <= i < |t| ==> TokenByte(t[i]) }

  /** A stored value that stands for the token, in either format. */
  predicate Represents(sha: Str -> Str, stored: Str, token: Str) {
    stored == token || stored == HashSessionValue(sha, token)
  }

  /** A token never carries the digest prefix, so the two formats cannot be confused. */
  lemma TokenIsNotDigest(sha: Str -> Str, token: Str, other: Str)
    requires TokenText(token)
    ensures !HasPrefix(token, DIGEST_PREFIX) && token != HashSessionValue(sha, other)
  {
    assert |token| >= 7 ==> token[..7][6] == token[6];
  }

  lemma DigestPrefixed(sha: Str -> Str, token: Str)
    requires token != []
    ensures HasPrefix(HashSessionValue(sha, token), DIGEST_PREFIX)
    ensures HashSessionValue(sha, token)[7..] == sha(token)
  {
  }

  /** Whichever format the token was stored in, exactly that token verifies. */
  lemma VerifyExact(sha: Str -> Str, presented: Str, token: Str, stored: Str)
    requires TokenText(token) && Represents(sha, stored, token)
    requires sha(presented) == sha(token) ==> presented == token
    ensures VerifySessionValue(sha, presented, stored) <==> presented == token
  {
    TokenIsNotDigest(sha, token, token);
    DigestPrefixed(sha, token);
    if presented != [] {
      DigestPrefixed(sha, presented);
    }
  }

  /** A stored value stands for one token only. */
  lemma RepresentsOne(sha: Str -> Str, stored: Str, a: Str, b: Str)
    requires TokenText(a) && TokenText(b) && Represents(sha, stored, a) && Represents(sha, stored, b)
    requires sha(a) == sha(b) ==> a == b
    ensures a == b
  {
    TokenIsNotDigest(sha, a, b);
    TokenIsNotDigest(sha, b, a);
    DigestPrefixed(sha, a);
    DigestPrefixed(sha, b);
  }
}
