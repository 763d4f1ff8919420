/**
 * The `/api/api-token` handlers: `POST` issues a token with an expiry in
 * days (0 meaning the far-off fixed date), `GET` lists the user's tokens a
 * page at a time with the token text masked, `DELETE` revokes one.
 */
module ApiTokenApi {
  import opened Common
  import opened Store
  import opened Text
  import Table
  import Paging
  import ApiTokenService

  /** `new Date('2099-12-31')`: midnight UTC of that day, in milliseconds. */
  const MAX_EXPIRY_DATE := 4102358400000
  const MS_PER_DAY := 86400000
  const DEFAULT_PAGE_SIZE := "5"

  const NAME_REQUIRED := "Token name is required"
  const INVALID_EXPIRY := "Invalid expiration period. Minimum is 1 day."
  const INVALID_PAGING := "Invalid page or pageSize"
  const ID_REQUIRED := "Token ID is required"
  const REVOKED := "Token revoked successfully"

  /** `{ name, expiresIn }` as the request carries it. */
  datatype CreateBody = CreateBody(name: Option<string>, expiresIn: int)

  /** The payloads of the successful replies. */
  datatype TokenReply =
    | Issued(token: string)
    | TokenPage(tokens: seq<ApiToken>, currentPage: int, pageSize: int, totalPages: nat, totalCount: nat)
    | Revoked(message: string)

  /** `calculateExpiryDate`: 0 days is the fixed far date, fewer than one day
      is invalid, otherwise that many whole days after `now` (the runtime
      keeps UTC, so a day is always 86 400 000 ms). */
  function CalculateExpiryDate(expiresIn: int, now: int): (r: Option<int>)
    ensures expiresIn == 0 ==> r == Some(MAX_EXPIRY_DATE)
    ensures expiresIn != 0 && expiresIn < 1 ==> r.None?
    ensures expiresIn >= 1 ==> r.Some? && r.value - now == expiresIn * MS_PER_DAY && r.value > now
  {
    if expiresIn == 0 then Some(MAX_EXPIRY_DATE)
    else if expiresIn < 1 then None
    else Some(now + expiresIn * MS_PER_DAY)
  }

  /** `maskToken`: short tokens are shown whole; longer ones keep their first
      and last four characters and star the rest. */
  function MaskToken(token: string): (r: string)
    ensures |r| == |token|
    ensures |token| <= 8 ==> r == token
    ensures |token| > 8 ==>
      && r[..4] == token[..4]
      && r[|r| - 4..] == token[|token| - 4..]
      && forall i :: 4 <= i < |r| - 4 ==> r[i] == '*'
  {
    if |token| <= 8 then token
    else token[..4] + seq(|token| - 8, _ => '*') + token[|token| - 4..]
  }

  /** A listed row with its token text masked. */
  function Masked(rows: seq<ApiToken>): (r: seq<ApiToken>)
    ensures |r| == |rows|
    ensures forall i :: 0 <= i < |rows| ==> r[i] == rows[i].(token := MaskToken(rows[i].token))
  {
    seq(|rows|, i requires 0 <= i < |rows| => rows[i].(token := MaskToken(rows[i].token)))
  }

  /** `POST`: 401 without a session, 500 for a body that is not JSON, 400
      without a name or for an expiry below one day other than 0; otherwise
      201 with the stored digest, which is appended as the only new row. */
  method Post(db: Database, sessionEmail: Option<string>, body: Option<CreateBody>, now: int,
              rawToken: string, rowId: string, digest: string -> seq<Byte>)
    returns (reply: Reply<TokenReply>)
    modifies db`apiTokens
    ensures !Truthy(sessionEmail) ==> reply == Fail(401, UNAUTHORIZED)
    ensures Truthy(sessionEmail) && body.None? ==> reply == Fail(500, INTERNAL_SERVER_ERROR)
    ensures Truthy(sessionEmail) && body.Some? && !Truthy(body.value.name) ==> reply == Fail(400, NAME_REQUIRED)
    ensures (Truthy(sessionEmail) && body.Some? && Truthy(body.value.name)
             && CalculateExpiryDate(body.value.expiresIn, now).None?) ==> reply == Fail(400, INVALID_EXPIRY)
    ensures reply.status != 201 ==> db.apiTokens == old(db.apiTokens)
    ensures (Truthy(sessionEmail) && body.Some? && Truthy(body.value.name)
             && CalculateExpiryDate(body.value.expiresIn, now).Some?) ==> reply.status == 201
    ensures reply.status == 201 ==>
      && Truthy(sessionEmail) && body.Some? && Truthy(body.value.name)
      && CalculateExpiryDate(body.value.expiresIn, now).Some?
      && var hash := ApiTokenService.Sha256(rawToken, digest);
         && reply == Reply(201, Payload(Issued(hash)))
         && db.apiTokens == old(db.apiTokens)
              + [ApiToken(rowId, sessionEmail.value, hash, body.value.name.value, CalculateExpiryDate(body.value.expiresIn, now))]
  {
    if !Truthy(sessionEmail) {
      return Fail(401, UNAUTHORIZED);
    }
    if body.None? {
      return Fail(500, INTERNAL_SERVER_ERROR);
    }
    if !Truthy(body.value.name) {
      return Fail(400, NAME_REQUIRED);
    }
    var expiryDate := CalculateExpiryDate(body.value.expiresIn, now);
    if expiryDate.None? {
      return Fail(400, INVALID_EXPIRY);
    }
    var token := ApiTokenService.CreateToken(db, sessionEmail.value, body.value.name.value, expiryDate, rawToken, rowId, digest);
    reply := Reply(201, Payload(Issued(token)));
  }

  /** The query text of an absent or empty parameter is the default. */
  function OrDefault(param: Option<string>, default: string): string
  {
    if Truthy(param) then param.value else default
  }

  /** `GET`: 401 without a session; 400 when the page or page size is not a
      number or below 1; otherwise the page of the user's tokens, masked,
      with the page count `ceil(totalCount / pageSize)`. */
  method Get(db: Database, sessionEmail: Option<string>, pageParam: Option<string>, pageSizeParam: Option<string>)
    returns (reply: Reply<TokenReply>)
    ensures !Truthy(sessionEmail) ==> reply == Fail(401, UNAUTHORIZED)
    ensures Truthy(sessionEmail) ==>
      var page, size := ParseInt(OrDefault(pageParam, "1")), ParseInt(OrDefault(pageSizeParam, DEFAULT_PAGE_SIZE));
      && (page.None? || page.value < 1 || size.None? || size.value < 1 <==> reply == Fail(400, INVALID_PAGING))
      && (page.Some? && page.value >= 1 && size.Some? && size.value >= 1 ==>
            var mine := Table.Where(db.apiTokens, ApiTokenService.OfUser(sessionEmail.value));
            var shown := Paging.Window(mine, size.value, Paging.Offset(page.value, size.value));
            && reply.status == 200 && reply.body.Payload? && reply.body.value.TokenPage?
            && var listing := reply.body.value;
               && listing.tokens == Masked(ApiTokenService.Seconds(shown))
               && |listing.tokens| <= size.value
               && listing.currentPage == page.value && listing.pageSize == size.value
               && listing.totalCount == |mine|
               && listing.totalPages == Paging.PageCount(|mine|, size.value))
  {
    if !Truthy(sessionEmail) {
      return Fail(401, UNAUTHORIZED);
    }
    var page := ParseInt(OrDefault(pageParam, "1"));
    var size := ParseInt(OrDefault(pageSizeParam, DEFAULT_PAGE_SIZE));
    if page.None? || page.value < 1 || size.None? || size.value < 1 {
      return Fail(400, INVALID_PAGING);
    }
    var tokens, totalCount := ApiTokenService.GetTokens(db, sessionEmail.value, page.value, size.value);
    var totalPages := Paging.PageCount(totalCount, size.value);
    reply := Reply(200, Payload(TokenPage(Masked(tokens), page.value, size.value, totalPages, totalCount)));
  }

  /** `DELETE`: 401 without a session, 400 without an id; otherwise the
      user's token with that id is revoked (whether or not there was one). */
  method Delete(db: Database, sessionEmail: Option<string>, idParam: Option<string>)
    returns (reply: Reply<TokenReply>)
    modifies db`apiTokens
    ensures !Truthy(sessionEmail) ==> reply == Fail(401, UNAUTHORIZED)
    ensures Truthy(sessionEmail) && !Truthy(idParam) ==> reply == Fail(400, ID_REQUIRED)
    ensures reply.status != 200 ==> db.apiTokens == old(db.apiTokens)
    ensures Truthy(sessionEmail) && Truthy(idParam) ==>
      && reply == Reply(200, Payload(Revoked(REVOKED)))
      && db.apiTokens == Table.Where(old(db.apiTokens), ApiTokenService.NotTheToken(sessionEmail.value, idParam.value))
  {
    if !Truthy(sessionEmail) {
      return Fail(401, UNAUTHORIZED);
    }
    if !Truthy(idParam) {
      return Fail(400, ID_REQUIRED);
    }
    ApiTokenService.RevokeToken(db, sessionEmail.value, idParam.value);
    reply := Reply(200, Payload(Revoked(REVOKED)));
  }

  // ------------------------------------------------------------- properties

  /** Masking keeps what is visible: masking a masked token changes nothing. */
  lemma MaskIdempotent(token: string)
    ensures MaskToken(MaskToken(token)) == MaskToken(token)
  {
    var r := MaskToken(token);
    if |token| > 8 {
      var rr := MaskToken(r);
      assert forall i :: 0 <= i < |r| ==> rr[i] == r[i];
    }
  }

  /** Every expiry the handler accepts lies in the future or is the fixed
      date, and the two accepted shapes never collide for a present `now`. */
  lemma AcceptedExpiries(expiresIn: int, now: int)
    requires CalculateExpiryDate(expiresIn, now).Some?
    ensures expiresIn == 0 || expiresIn >= 1
    ensures expiresIn >= 1 ==> CalculateExpiryDate(expiresIn, now).value >= now + MS_PER_DAY
  {
  }
}
