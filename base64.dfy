/**
 * The base64url helpers: the URL- and filename-safe alphabet of section 5 of
 * RFC 4648 obtained from the standard one by character substitution, with
 * the padding dropped on encoding.  The standard codec they wrap is an input.
 */
module Base64 {
  import opened Common

  /** `s.replace(/from/g, to)`. */
  function Substitute(s: string, from: char, to: char): (r: string)
    ensures |r| == |s|
    ensures forall i :: 0 <= i < |s| ==> r[i] == (if s[i] == from then to else s[i])
  {
    seq(|s|, i requires 0 <= i < |s| => if s[i] == from then to else s[i])
  }

  /** `s.replace(/=+$/, '')`: the run of `=` at the end is cut. */
  function StripPadding(s: string): (r: string)
    ensures r <= s
    ensures r == [] || r[|r| - 1] != '='
    ensures forall i :: |r| <= i < |s| ==> s[i] == '='
  {
    if s != [] && s[|s| - 1] == '=' then StripPadding(s[..|s| - 1]) else s
  }

  /** The decode-side substitution: `-` becomes `+` and `_` becomes `/`. */
  function ToStandardAlphabet(s: string): string
  {
    Substitute(Substitute(s, '-', '+'), '_', '/')
  }

  /** The encode-side substitution: `/` becomes `_` and `+` becomes `-`. */
  function ToUrlAlphabet(s: string): string
  {
    Substitute(Substitute(s, '/', '_'), '+', '-')
  }

  /** `decodeBase64Url`: the codec is handed text without `-` or `_`, and
      standard-alphabet text reaches it unchanged. */
  function DecodeBase64Url(str: string, decode: string -> seq<Byte>): (r: seq<Byte>)
    ensures exists t :: '-' !in t && '_' !in t && r == decode(t)
    ensures '-' !in str && '_' !in str ==> r == decode(str)
  {
    var t := ToStandardAlphabet(str);
    StandardAfterDecodeSide(str);
    assert '-' !in str && '_' !in str ==> t == str;
    decode(t)
  }

  /** `encodeBase64Url`: no `+`, no `/` and no trailing `=` are left. */
  function EncodeBase64Url(arr: seq<Byte>, encode: seq<Byte> -> string): (r: string)
    ensures '+' !in r && '/' !in r
    ensures r == [] || r[|r| - 1] != '='
  {
    var u := ToUrlAlphabet(encode(arr));
    assert '+' !in u && '/' !in u;
    StripPadding(u)
  }

  // ------------------------------------------------------------- properties

  /** The decode side hands the codec only standard-alphabet text. */
  lemma StandardAfterDecodeSide(s: string)
    ensures '-' !in ToStandardAlphabet(s) && '_' !in ToStandardAlphabet(s)
    ensures forall i :: 0 <= i < |s| && s[i] != '-' && s[i] != '_' ==> ToStandardAlphabet(s)[i] == s[i]
  {
  }

  /** `decodeBase64Url` reads the URL-safe and the standard spelling of a text
      alike, and hands standard-alphabet text to the codec unchanged. */
  lemma DecodeReadsBothAlphabets(s: string, decode: string -> seq<Byte>)
    ensures DecodeBase64Url(s, decode) == DecodeBase64Url(ToStandardAlphabet(s), decode)
    ensures '-' !in s && '_' !in s ==> DecodeBase64Url(s, decode) == decode(s)
  {
    var t := ToStandardAlphabet(s);
    StandardAfterDecodeSide(s);
    assert ToStandardAlphabet(t) == t;
    if '-' !in s && '_' !in s {
      assert t == s;
    }
  }

  /** On standard-alphabet text, the decode-side substitution undoes the
      encode-side one. */
  lemma AlphabetRoundTrip(s: string)
    requires '-' !in s && '_' !in s
    ensures ToStandardAlphabet(ToUrlAlphabet(s)) == s
  {
  }

  /** Cutting the padding commutes with a substitution that leaves `=` alone. */
  lemma {:induction false} StripSubstitute(s: string, from: char, to: char)
    requires from != '=' && to != '='
    ensures StripPadding(Substitute(s, from, to)) == Substitute(StripPadding(s), from, to)
  {
    if s != [] && s[|s| - 1] == '=' {
      assert Substitute(s, from, to)[..|s| - 1] == Substitute(s[..|s| - 1], from, to);
      StripSubstitute(s[..|s| - 1], from, to);
    }
  }

  /** Encoding then decoding gives the standard codec its own output without
      the padding; so when the codec reads unpadded text back, the round trip
      is the identity. */
  lemma EncodeDecode(arr: seq<Byte>, encode: seq<Byte> -> string, decode: string -> seq<Byte>)
    requires '-' !in encode(arr) && '_' !in encode(arr)
    ensures DecodeBase64Url(EncodeBase64Url(arr, encode), decode) == decode(StripPadding(encode(arr)))
    ensures decode(StripPadding(encode(arr))) == arr ==> DecodeBase64Url(EncodeBase64Url(arr, encode), decode) == arr
  {
    var e := encode(arr);
    StripSubstitute(e, '/', '_');
    StripSubstitute(Substitute(e, '/', '_'), '+', '-');
    var stripped := StripPadding(e);
    assert '-' !in stripped && '_' !in stripped by {
      assert forall i :: 0 <= i < |stripped| ==> stripped[i] == e[i];
    }
    AlphabetRoundTrip(stripped);
  }
}
