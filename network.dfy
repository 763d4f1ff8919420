/**
 * `isLocalNetworkUrl`, the classifier meant to keep webhook calls away from
 * the server's own network: `localhost`, the private IPv4 ranges of section 3
 * of RFC 1918, IPv4 loopback and 169.254/16 link-local, and the IPv6 unique
 * local (RFC 4193) and link-local (section 2.5.6 of RFC 4291) prefixes.
 * The URL parser is an input that yields the hostname, or nothing when
 * `new URL` throws.
 */
module Network {
  import opened Common
  import opened Text

  /** `/^(\d{1,3}\.){3}\d{1,3}$/`: four `.`-separated groups of one to three
      ASCII digits, with no range check. */
  predicate IsIPv4Form(s: string)
  {
    var parts := Split(s, '.');
    |parts| == 4 && forall i :: 0 <= i < 4 ==> 1 <= |parts[i]| <= 3 && AllDigits(parts[i])
  }

  /** `/^([0-9a-fA-F]{1,4}:){7}[0-9a-fA-F]{1,4}$/`: eight `:`-separated groups
      of one to four hexadecimal digits; no `::` shorthand. */
  predicate IsIPv6Form(s: string)
  {
    var parts := Split(s, ':');
    |parts| == 8 && forall i :: 0 <= i < 8 ==> 1 <= |parts[i]| <= 4 && forall k :: 0 <= k < |parts[i]| ==> IsHexDigit(parts[i][k])
  }

  /** `isIPAddress`: true only for text made of hexadecimal digits, `.`
      and `:`, and never for text holding both `.` and `:`. */
  predicate IsIPAddress(s: string): (r: bool)
    ensures r ==> forall k :: 0 <= k < |s| ==> IsHexDigit(s[k]) || s[k] == '.' || s[k] == ':'
    ensures r ==> '.' !in s || ':' !in s
  {
    IPv4Alphabet(s);
    IPv6Alphabet(s);
    IsIPv4Form(s) || IsIPv6Form(s)
  }

  /** `parseInt(ipParts[1]) >= 16 && parseInt(ipParts[1]) <= 31`, where a
      missing part or NaN compares false. */
  predicate SecondInPrivate172(parts: seq<string>)
  {
    |parts| > 1 && ParseInt(parts[1]).Some? && 16 <= ParseInt(parts[1]).value <= 31
  }

  /** `ipParts[1] === v`; a missing part is `undefined`. */
  predicate SecondIs(parts: seq<string>, v: string)
  {
    |parts| > 1 && parts[1] == v
  }

  /** The checks on a parsed hostname, in the order the code makes them. */
  predicate HostIsLocal(hostname: string)
  {
    if hostname == "" then false
    else if LowerAscii(hostname) == "localhost" then true
    else if IsIPAddress(hostname) then
      var ipParts := Split(hostname, '.');
      var lower := LowerAscii(hostname);
      if ipParts[0] == "10" || (ipParts[0] == "172" && SecondInPrivate172(ipParts))
         || (ipParts[0] == "192" && SecondIs(ipParts, "168")) then true
      else if ipParts[0] == "127" then true
      else if ipParts[0] == "169" && SecondIs(ipParts, "254") then true
      else if hostname == "::1" then true
      else if StartsWith(lower, "fc") || StartsWith(lower, "fd") then true
      else StartsWith(lower, "fe80:")
    else false
  }

  /** `isLocalNetworkUrl`: false for a URL that does not parse, whatever the
      classifier would say of its text; a local URL's hostname is non-empty
      and is `localhost` or an address form. */
  predicate IsLocalNetworkUrl(url: string, hostnameOf: string -> Option<string>): (r: bool)
    ensures r ==> hostnameOf(url).Some? && hostnameOf(url).value != ""
    ensures r ==> LowerAscii(hostnameOf(url).value) == "localhost" || IsIPAddress(hostnameOf(url).value)
  {
    match hostnameOf(url)
    case None => false
    case Some(hostname) => HostIsLocal(hostname)
  }

  // ------------------------------------------------------------- properties

  /** A dotted quad holds only digits and dots. */
  lemma IPv4Alphabet(s: string)
    ensures IsIPv4Form(s) ==> forall k :: 0 <= k < |s| ==> IsDigit(s[k]) || s[k] == '.'
  {
    if IsIPv4Form(s) {
      var parts := Split(s, '.');
      JoinSplit(s, '.');
      forall k | 0 <= k < |s| && s[k] != '.' ensures IsDigit(s[k]) {
        JoinMembers(parts, '.', s[k]);
        var i :| 0 <= i < |parts| && s[k] in parts[i];
        var j :| 0 <= j < |parts[i]| && parts[i][j] == s[k];
      }
    }
  }

  /** An eight-group IPv6 form holds only hexadecimal digits and colons. */
  lemma IPv6Alphabet(s: string)
    ensures IsIPv6Form(s) ==> forall k :: 0 <= k < |s| ==> IsHexDigit(s[k]) || s[k] == ':'
  {
    if IsIPv6Form(s) {
      var parts := Split(s, ':');
      JoinSplit(s, ':');
      forall k | 0 <= k < |s| && s[k] != ':' ensures IsHexDigit(s[k]) {
        JoinMembers(parts, ':', s[k]);
        var i :| 0 <= i < |parts| && s[k] in parts[i];
        var j :| 0 <= j < |parts[i]| && parts[i][j] == s[k];
      }
    }
  }

  /** The first part of a split is a prefix of the string. */
  lemma SplitHead(s: string, sep: char)
    ensures Split(s, sep)[0] <= s
  {
  }

  /** `localhost` in any ASCII letter case is local. */
  lemma LocalhostAnyCase(hostname: string)
    requires LowerAscii(hostname) == "localhost"
    ensures HostIsLocal(hostname)
  {
  }

  /** A dotted quad is local exactly when its first group is 10 or 127, or it
      starts 192.168 or 169.254, or it is 172.N with 16 <= N <= 31.  The
      groups are compared as text, so `010.0.0.1` is not local. */
  lemma DottedQuad(hostname: string)
    requires IsIPv4Form(hostname)
    ensures var p := Split(hostname, '.');
      HostIsLocal(hostname) <==>
        || p[0] == "10" || p[0] == "127"
        || (p[0] == "172" && 16 <= DigitsValue(p[1]) <= 31)
        || (p[0] == "192" && p[1] == "168")
        || (p[0] == "169" && p[1] == "254")
  {
    var p := Split(hostname, '.');
    SplitHead(hostname, '.');
    assert hostname[0] == p[0][0] && IsDigit(hostname[0]);
    DigitFirst(hostname);
    ParseDigits(p[1]);
  }

  /** A hostname that starts with a digit is not `localhost` and reaches none
      of the IPv6 checks. */
  lemma DigitFirst(hostname: string)
    requires hostname != [] && IsDigit(hostname[0])
    ensures LowerAscii(hostname) != "localhost" && hostname != "::1"
    ensures var lower := LowerAscii(hostname);
      !StartsWith(lower, "fc") && !StartsWith(lower, "fd") && !StartsWith(lower, "fe80:")
  {
    var lower := LowerAscii(hostname);
    assert lower[0] == hostname[0];
    assert "localhost"[0] == 'l' && "::1"[0] == ':';
    assert forall k :: 1 <= k <= |lower| ==> lower[..k][0] == hostname[0];
  }

  /** `parseInt` of a run of digits is its decimal value. */
  lemma ParseDigits(s: string)
    requires s != [] && AllDigits(s)
    ensures ParseInt(s) == Some(DigitsValue(s) as int)
  {
    assert SkipWhitespace(s, 0) == 0;
    DigitRunEndAll(s, 0);
    assert s[0..|s|] == s;
  }

  /** Eight-group IPv6 addresses with a `fc`, `fd` or `fe80:` prefix (in any
      letter case) are local. */
  lemma IPv6Prefixes(hostname: string)
    requires IsIPv6Form(hostname)
    requires var lower := LowerAscii(hostname);
      StartsWith(lower, "fc") || StartsWith(lower, "fd") || StartsWith(lower, "fe80:")
    ensures HostIsLocal(hostname)
  {
  }

  /** The IPv6 loopback written `::1` is not an eight-group form, so the
      check for it is never reached and it counts as not local. */
  lemma IPv6LoopbackNotLocal()
    ensures !HostIsLocal("::1")
  {
    var s := "::1";
    assert s[0] == ':' && s[1] == ':' && s[2] == '1' && |s| == 3;
    assert IndexOf(s, ':') == 0 && IndexOf(s[1..], ':') == 0;
    assert ':' !in s[2..];
    assert Split(s[2..], ':') == ["1"];
    assert Split(s[1..], ':') == [""] + Split(s[2..], ':');
    assert |Split(s, ':')| == 3;
    assert '.' !in s;
    assert LowerAscii(s) != "localhost";
  }

  /** A hostname that is neither `localhost` nor an IP address form is not
      local; nor is the empty hostname, nor a URL that does not parse. */
  lemma OnlyAddressesAreLocal(url: string, hostnameOf: string -> Option<string>)
    ensures hostnameOf(url).None? ==> !IsLocalNetworkUrl(url, hostnameOf)
    ensures hostnameOf(url) == Some("") ==> !IsLocalNetworkUrl(url, hostnameOf)
    ensures (hostnameOf(url).Some? && LowerAscii(hostnameOf(url).value) != "localhost"
             && !IsIPAddress(hostnameOf(url).value)) ==> !IsLocalNetworkUrl(url, hostnameOf)
  {
  }
}
