/**
 * Credential generation: a P-256 key pair for VAPID (RFC 8292) whose raw
 * keys are zero-padded on the left to their fixed lengths and written in
 * base64url, and a 16-letter push token.  The key agreement library, the
 * standard base64 encoder and the random letter picks are inputs.
 */
module VapidHelper {
  import opened Common
  import opened Text
  import Base64

  /** The raw private scalar of a P-256 key. */
  const PRIVATE_KEY_LENGTH := 32
  /** The uncompressed point of a P-256 public key (section 2.3.3 of SEC 1). */
  const PUBLIC_KEY_LENGTH := 65
  const TOKEN_LENGTH := 16
  /** The letter at position `k` of the token alphabet: `A`-`Z`, then `a`-`z`. */
  function Letter(k: nat): (c: char)
    requires k < ALPHABET_SIZE
    ensures IsAsciiLetter(c)
  {
    if k < 26 then 'A' + k as char else 'a' + (k - 26) as char
  }

  const ALPHABET_SIZE := 52

  /** The generated credentials. */
  datatype Credentials = Credentials(publicKey: string, privateKey: string, pushToken: string)

  /** `Buffer.concat([Buffer.alloc(n - |key|), key])` when `key` is short. */
  function LeftPad(key: seq<Byte>, n: nat): (r: seq<Byte>)
    ensures |key| < n ==> |r| == n
    ensures |key| >= n ==> r == key
    ensures r[|r| - |key|..] == key
    ensures forall i :: 0 <= i < |r| - |key| ==> r[i] == 0
  {
    if |key| < n then seq(n - |key|, _ => 0 as Byte) + key else key
  }

  /** `generateVAPIDKeys`: both raw keys padded, then base64url-encoded. */
  function GenerateVapidKeys(publicKey: seq<Byte>, privateKey: seq<Byte>, encode: seq<Byte> -> string): (r: (string, string))
    ensures r.0 == Base64.EncodeBase64Url(LeftPad(publicKey, PUBLIC_KEY_LENGTH), encode)
    ensures r.1 == Base64.EncodeBase64Url(LeftPad(privateKey, PRIVATE_KEY_LENGTH), encode)
  {
    (Base64.EncodeBase64Url(LeftPad(publicKey, PUBLIC_KEY_LENGTH), encode),
     Base64.EncodeBase64Url(LeftPad(privateKey, PRIVATE_KEY_LENGTH), encode))
  }

  /** `generatePushToken`: one alphabet letter per random pick. */
  function GeneratePushToken(picks: seq<nat>): (r: string)
    requires |picks| == TOKEN_LENGTH && forall i :: 0 <= i < |picks| ==> picks[i] < ALPHABET_SIZE
    ensures |r| == TOKEN_LENGTH
    ensures forall i :: 0 <= i < |r| ==> IsAsciiLetter(r[i]) && r[i] == Letter(picks[i])
  {
    seq(|picks|, i requires 0 <= i < |picks| => Letter(picks[i]))
  }

  /** `generateUserCredentials`. */
  function GenerateUserCredentials(publicKey: seq<Byte>, privateKey: seq<Byte>, picks: seq<nat>,
                                   encode: seq<Byte> -> string): (r: Credentials)
    requires |picks| == TOKEN_LENGTH && forall i :: 0 <= i < |picks| ==> picks[i] < ALPHABET_SIZE
    ensures (r.publicKey, r.privateKey) == GenerateVapidKeys(publicKey, privateKey, encode)
    ensures r.pushToken == GeneratePushToken(picks)
    ensures '+' !in r.publicKey + r.privateKey && '/' !in r.publicKey + r.privateKey
  {
    var keys := GenerateVapidKeys(publicKey, privateKey, encode);
    Credentials(keys.0, keys.1, GeneratePushToken(picks))
  }

  // ------------------------------------------------------------- properties

  /** Padding never shortens a key and is undone by dropping the zeros it
      added; padding a padded key again changes nothing. */
  lemma PadIsIdempotent(key: seq<Byte>, n: nat)
    ensures |LeftPad(key, n)| == if |key| < n then n else |key|
    ensures LeftPad(LeftPad(key, n), n) == LeftPad(key, n)
  {
  }

  /** The position of a letter in the alphabet. */
  function LetterIndex(c: char): (k: nat)
    requires IsAsciiLetter(c)
    ensures k < ALPHABET_SIZE && Letter(k) == c
  {
    if 'A' <= c <= 'Z' then (c - 'A') as nat else 26 + (c - 'a') as nat
  }

  /** Every 16-letter string is a possible push token, and the alphabet holds
      exactly the ASCII letters. */
  lemma EveryLetterTokenReachable(token: string)
    requires |token| == TOKEN_LENGTH && forall i :: 0 <= i < |token| ==> IsAsciiLetter(token[i])
    ensures var picks := seq(|token|, i requires 0 <= i < |token| => LetterIndex(token[i]));
      GeneratePushToken(picks) == token
  {
  }
}
