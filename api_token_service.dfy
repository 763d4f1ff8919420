/**
 * `ApiTokenService`: API tokens are kept as the lowercase hexadecimal
 * SHA-256 digest of a fresh id.  The digest itself (`crypto.subtle.digest`
 * over the UTF-8 text) is an input, as are the fresh ids and the clock.
 */
module ApiTokenService {
  import opened Common
  import opened Store
  import opened Text
  import Table
  import Paging
  import SubscriptionApi

  /** The lowercase hexadecimal digit of a value below 16. */
  function HexDigit(n: int): (c: char)
    requires 0 <= n < 16
    ensures IsHexDigit(c) && !('A' <= c <= 'F')
  {
    if n < 10 then '0' + n as char else 'a' + (n - 10) as char
  }

  /** `b.toString(16).padStart(2, '0')`. */
  function HexByte(b: Byte): (r: string)
    ensures |r| == 2
  {
    [HexDigit(b as int / 16), HexDigit(b as int % 16)]
  }

  /** The digest bytes as text: two lowercase hexadecimal digits per byte. */
  function Hex(bytes: seq<Byte>): (r: string)
    ensures |r| == 2 * |bytes|
    ensures forall i :: 0 <= i < |bytes| ==> r[2 * i..2 * i + 2] == HexByte(bytes[i])
  {
    if bytes == [] then []
    else
      var rest := Hex(bytes[1..]);
      var r := HexByte(bytes[0]) + rest;
      assert forall i :: 1 <= i < |bytes| ==> r[2 * i..2 * i + 2] == rest[2 * (i - 1)..2 * (i - 1) + 2];
      r
  }

  /** `sha256(message)`: a 32-byte digest reads as 64 lowercase
      hexadecimal digits. */
  function Sha256(message: string, digest: string -> seq<Byte>): (r: string)
    ensures |r| == 2 * |digest(message)|
    ensures |digest(message)| == 32 ==>
      SubscriptionApi.IsValidSHA256(r) && forall i :: 0 <= i < |r| ==> !('A' <= r[i] <= 'F')
  {
    var bytes := digest(message);
    if |bytes| == 32 then DigestIsSha256Text(bytes); Hex(bytes) else Hex(bytes)
  }

  function HasToken(hash: string): ApiToken -> bool
  {
    (t: ApiToken) => t.token == hash
  }

  function OfUser(userEmail: string): ApiToken -> bool
  {
    (t: ApiToken) => t.userEmail == userEmail
  }

  function NotOfUser(userEmail: string): ApiToken -> bool
  {
    (t: ApiToken) => t.userEmail != userEmail
  }

  function NotId(id: string): ApiToken -> bool
  {
    (t: ApiToken) => t.id != id
  }

  /** Neither this token id of this user. */
  function NotTheToken(userEmail: string, id: string): ApiToken -> bool
  {
    (t: ApiToken) => !(t.id == id && t.userEmail == userEmail)
  }

  /** `createToken`: stores the digest of a fresh id under a new row and
      returns the digest, not the id it came from. */
  method CreateToken(db: Database, userEmail: string, name: string, expiresAt: Option<int>,
                     rawToken: string, rowId: string, digest: string -> seq<Byte>)
    returns (token: string)
    modifies db`apiTokens
    ensures token == Sha256(rawToken, digest)
    ensures db.apiTokens == old(db.apiTokens) + [ApiToken(rowId, userEmail, token, name, expiresAt)]
  {
    token := Sha256(rawToken, digest);
    db.apiTokens := db.apiTokens + [ApiToken(rowId, userEmail, token, name, expiresAt)];
  }

  /** `revokeToken` as written: `eq(id) && eq(email)` is evaluated by
      JavaScript before the query is built and yields its second operand, so
      the delete is filtered on the email alone. */
  method RevokeTokenAsWritten(db: Database, userEmail: string, tokenId: string)
    modifies db`apiTokens
    ensures db.apiTokens == Table.Where(old(db.apiTokens), NotOfUser(userEmail))
  {
    db.apiTokens := Table.Where(db.apiTokens, NotOfUser(userEmail));
  }

  /** `revokeToken` as intended: removes the user's token with that id and
      nothing else. */
  method RevokeToken(db: Database, userEmail: string, tokenId: string)
    modifies db`apiTokens
    ensures db.apiTokens == Table.Where(old(db.apiTokens), NotTheToken(userEmail, tokenId))
  {
    db.apiTokens := Table.Where(db.apiTokens, NotTheToken(userEmail, tokenId));
  }

  /** A row as `getTokens` reports it: `expiresAt` in whole seconds, `null`
      when there is none. */
  function InSeconds(t: ApiToken): (r: ApiToken)
    ensures r.(expiresAt := t.expiresAt) == t
    ensures t.expiresAt.None? <==> r.expiresAt.None?
    ensures t.expiresAt.Some? ==> r.expiresAt.value * 1000 <= t.expiresAt.value < r.expiresAt.value * 1000 + 1000
  {
    match t.expiresAt
    case None => t
    case Some(ms) => t.(expiresAt := Some(ms / 1000))
  }

  /** `getTokens`: one page of the user's rows in table order, and how many
      the user has. */
  method GetTokens(db: Database, userEmail: string, page: int, pageSize: int)
    returns (tokens: seq<ApiToken>, totalCount: nat)
    ensures var mine := Table.Where(db.apiTokens, OfUser(userEmail));
      && totalCount == |mine|
      && tokens == Seconds(Paging.Window(mine, pageSize, Paging.Offset(page, pageSize)))
  {
    var mine := Table.Where(db.apiTokens, OfUser(userEmail));
    tokens := Seconds(Paging.Window(mine, pageSize, Paging.Offset(page, pageSize)));
    totalCount := |mine|;
  }

  function Seconds(rows: seq<ApiToken>): (r: seq<ApiToken>)
    ensures |r| == |rows|
    ensures forall i :: 0 <= i < |rows| ==> r[i] == InSeconds(rows[i])
  {
    seq(|rows|, i requires 0 <= i < |rows| => InSeconds(rows[i]))
  }

  /** Whether a row's expiry lies before `now`. */
  predicate Expired(t: ApiToken, now: int)
  {
    t.expiresAt.Some? && t.expiresAt.value < now
  }

  /** `validateToken`: the first row whose stored digest is the digest of
      `token` decides.  No such row gives false; an expired one is deleted
      (with every row sharing its id) and gives false; otherwise true, and
      the table is left alone. */
  method ValidateToken(db: Database, token: string, now: int, digest: string -> seq<Byte>)
    returns (valid: bool)
    modifies db`apiTokens
    ensures var found := Table.First(old(db.apiTokens), HasToken(Sha256(token, digest)));
      && (valid <==> found.Some? && !Expired(found.value, now))
      && (found.Some? && Expired(found.value, now) ==> db.apiTokens == Table.Where(old(db.apiTokens), NotId(found.value.id)))
      && (!(found.Some? && Expired(found.value, now)) ==> db.apiTokens == old(db.apiTokens))
  {
    var hashed := Sha256(token, digest);
    var result := Table.First(db.apiTokens, HasToken(hashed));
    if result.None? {
      return false;
    }
    if Expired(result.value, now) {
      db.apiTokens := Table.Where(db.apiTokens, NotId(result.value.id));
      return false;
    }
    return true;
  }

  // ------------------------------------------------------------- properties

  /** A SHA-256 digest (32 bytes) renders as 64 hexadecimal digits, the form
      the subscription fingerprint check also accepts. */
  lemma DigestIsSha256Text(bytes: seq<Byte>)
    requires |bytes| == 32
    ensures SubscriptionApi.IsValidSHA256(Hex(bytes))
    ensures forall i :: 0 <= i < |Hex(bytes)| ==> !('A' <= Hex(bytes)[i] <= 'F')
  {
    var r := Hex(bytes);
    forall i | 0 <= i < |r|
      ensures IsHexDigit(r[i]) && !('A' <= r[i] <= 'F')
    {
      var k := i / 2;
      assert 0 <= k < |bytes| && 2 * k <= i < 2 * k + 2;
      assert r[2 * k..2 * k + 2] == HexByte(bytes[k]);
      assert r[i] == HexByte(bytes[k])[i - 2 * k];
    }
    assert |r| == 64;
  }

  /** Distinct digests give distinct texts. */
  lemma {:induction false} HexInjective(a: seq<Byte>, b: seq<Byte>)
    requires Hex(a) == Hex(b)
    ensures a == b
  {
    if a != [] {
      assert |b| == |a|;
      assert Hex(a)[0..2] == HexByte(a[0]) && Hex(b)[0..2] == HexByte(b[0]);
      HexByteInjective(a[0], b[0]);
      assert Hex(a)[2..] == Hex(a[1..]);
      assert Hex(b)[2..] == Hex(b[1..]);
      HexInjective(a[1..], b[1..]);
      assert a == [a[0]] + a[1..] && b == [b[0]] + b[1..];
    }
  }

  lemma HexByteInjective(x: Byte, y: Byte)
    requires HexByte(x) == HexByte(y)
    ensures x == y
  {
    assert HexDigit(x as int / 16) == HexDigit(y as int / 16);
    assert HexDigit(x as int % 16) == HexDigit(y as int % 16);
    assert x as int == (x as int / 16) * 16 + x as int % 16;
    assert y as int == (y as int / 16) * 16 + y as int % 16;
  }

  /** No two rows store the same digest. */
  predicate UniqueDigests(rows: seq<ApiToken>)
  {
    forall i, j :: 0 <= i < j < |rows| ==> rows[i].token != rows[j].token
  }

  /** With digests unique, a token validates exactly when some unexpired
      row holds its digest. */
  lemma ValidIffLiveRow(rows: seq<ApiToken>, token: string, now: int, digest: string -> seq<Byte>)
    requires UniqueDigests(rows)
    ensures var found := Table.First(rows, HasToken(Sha256(token, digest)));
      (found.Some? && !Expired(found.value, now)) <==>
      exists i :: 0 <= i < |rows| && rows[i].token == Sha256(token, digest) && !Expired(rows[i], now)
  {
    var h := Sha256(token, digest);
    var k := Table.FirstIndex(rows, HasToken(h));
    if k.Some? {
      assert Table.First(rows, HasToken(h)) == Some(rows[k.value]);
      assert forall i :: 0 <= i < k.value ==> !HasToken(h)(rows[i]);
      assert forall i :: 0 <= i < |rows| && rows[i].token == h ==> i == k.value;
    } else {
      assert forall i :: 0 <= i < |rows| ==> !HasToken(h)(rows[i]);
    }
  }

  /** The value `createToken` hands back is the stored digest; unless that
      digest happens to be its own digest, presenting it to `validateToken`
      looks up a different digest, so it does not find the new row. */
  lemma IssuedTokenIsNotItsOwnKey(rows: seq<ApiToken>, userEmail: string, name: string, expiresAt: Option<int>,
                                  rawToken: string, rowId: string, digest: string -> seq<Byte>)
    requires Sha256(Sha256(rawToken, digest), digest) != Sha256(rawToken, digest)
    requires forall i :: 0 <= i < |rows| ==> rows[i].token != Sha256(Sha256(rawToken, digest), digest)
    ensures var issued := Sha256(rawToken, digest);
      Table.First(rows + [ApiToken(rowId, userEmail, issued, name, expiresAt)], HasToken(Sha256(issued, digest))).None?
  {
  }

  /** As written, revoking removes every token of the user, whatever the id:
      with two tokens `a` and `b`, revoking `a` also removes `b`, which the
      intended filter keeps. */
  lemma RevokeAsWrittenRemovesSiblings(rows: seq<ApiToken>, userEmail: string, tokenId: string)
    ensures forall i :: 0 <= i < |Table.Where(rows, NotOfUser(userEmail))| ==>
      Table.Where(rows, NotOfUser(userEmail))[i].userEmail != userEmail
    ensures var two := [ApiToken("a", "u@x", "h1", "ci", None), ApiToken("b", "u@x", "h2", "laptop", None)];
      && Table.Where(two, NotOfUser("u@x")) == []
      && Table.Where(two, NotTheToken("u@x", "a")) == [two[1]]
  {
    var two := [ApiToken("a", "u@x", "h1", "ci", None), ApiToken("b", "u@x", "h2", "laptop", None)];
    assert two[1..] == [two[1]] && two[1..][1..] == [];
  }

  /** As intended, revoking removes exactly the user's row with that id:
      rows of other ids, and rows of other users even under the same id,
      stay in place. */
  lemma RevokeRemovesOnlyThatToken(rows: seq<ApiToken>, userEmail: string, tokenId: string)
    ensures var r := Table.Where(rows, NotTheToken(userEmail, tokenId));
      && (forall i :: 0 <= i < |r| ==> !(r[i].id == tokenId && r[i].userEmail == userEmail))
      && (forall i :: 0 <= i < |rows| && !(rows[i].id == tokenId && rows[i].userEmail == userEmail) ==> rows[i] in r)
  {
  }
}
