/**
 * The approval endpoint (`POST /api/approval`): resolves a pending approval to
 * `approved` or `rejected`, authorised either by the temporary token stored
 * for it in the key-value namespace or by the session of the user who owns it.
 * The webhook's answer, the session and the live connections' write results
 * are inputs.
 */
module Approval {
  import opened Common
  import opened Store
  import opened Text
  import Table
  import Json
  import Stream
  import ApprovalProcessService

  /** The fields of the JSON body; `None` is a field that is missing. */
  datatype ResolveRequest = ResolveRequest(approvalId: Option<string>, state: Option<string>)

  /** How the caller was let in. */
  datatype Access = ByToken | BySession(email: string) | Denied(status: int, message: string)

  /** What the webhook `fetch` came to: a response, ok or not, or a thrown error. */
  datatype WebhookOutcome = Responded(ok: bool) | FetchFailed

  /** The one request the handler makes to the approval's webhook. */
  datatype WebhookCall = WebhookCall(url: string, body: string)

  datatype Resolved = Resolved(message: string, updatedApproval: ApprovalProcess)

  const INVALID_REQUEST := "Missing required parameters or invalid state"
  const NOT_FOUND_OR_NOT_AUTHORIZED := "Approval process not found or not authorized"
  const NOT_FOUND := "Approval process not found"
  const NOT_PENDING := "Cannot update a non-pending approval process"
  const WEBHOOK_FAILED := "Webhook call failed"
  const INTERNAL_ERROR := "Internal server error"
  const UPDATED := "Approval state updated and webhook called successfully"
  const STATE_CHANGED_EVENT := "approvalStateChanged"

  /** The request the handler accepts: a non-empty id and one of the two final states. */
  function Requested(body: ResolveRequest): (r: Option<(string, ApprovalState)>)
    ensures r.Some? <==>
      Truthy(body.approvalId) && body.state.Some? && body.state.value in {"approved", "rejected"}
    ensures r.Some? ==> r.value.0 == body.approvalId.value && r.value.1 != Pending
    ensures r.Some? ==> StateName(r.value.1) == body.state.value
  {
    if !Truthy(body.approvalId) || body.state.None? then None
    else if body.state.value == "approved" then Some((body.approvalId.value, Approved))
    else if body.state.value == "rejected" then Some((body.approvalId.value, Rejected))
    else None
  }

  /** `Authorization` with its first `Bearer ` taken out; a header that
      holds no `Bearer ` is used whole, as the token itself. */
  function BearerToken(authorization: Option<string>): (r: Option<string>)
    ensures r.None? <==> authorization.None?
    ensures r.Some? ==> |r.value| == |authorization.value| || |r.value| + |"Bearer "| == |authorization.value|
    ensures authorization.Some? && (forall k :: !OccursAt(authorization.value, "Bearer ", k)) ==> r == authorization
  {
    match authorization
    case None => None
    case Some(h) => Some(ReplaceFirst(h, "Bearer ", ""))
  }

  /** The token check: a non-empty bearer value equal to a non-empty stored
      token that has not yet expired at `now`. */
  predicate TokenMatches(kv: map<string, KvEntry>, approvalId: string, authorization: Option<string>, now: int)
  {
    var token := BearerToken(authorization);
    var stored := KvGet(kv, ApprovalTokenKey(approvalId), now);
    && Truthy(token)
    && Truthy(stored)
    && stored.value == token.value
  }

  /** The session check, reached when the token check fails. */
  function SessionAccess(rows: seq<ApprovalProcess>, approvalId: string, sessionEmail: Option<string>): (r: Access)
    ensures r.ByToken? == false
    ensures r == Denied(401, UNAUTHORIZED) <==> !Truthy(sessionEmail)
    ensures r.BySession? <==>
      && Truthy(sessionEmail)
      && Table.First(rows, ApprovalProcessService.HasId(approvalId)).Some?
      && Table.First(rows, ApprovalProcessService.HasId(approvalId)).value.userEmail == sessionEmail.value
    ensures r.BySession? ==> r.email == sessionEmail.value
    ensures r.Denied? && r.status != 401 ==> r == Denied(404, NOT_FOUND_OR_NOT_AUTHORIZED)
  {
    if !Truthy(sessionEmail) then Denied(401, UNAUTHORIZED)
    else
      match Table.First(rows, ApprovalProcessService.HasId(approvalId))
      case None => Denied(404, NOT_FOUND_OR_NOT_AUTHORIZED)
      case Some(p) =>
        if p.userEmail != sessionEmail.value then Denied(404, NOT_FOUND_OR_NOT_AUTHORIZED)
        else BySession(sessionEmail.value)
  }

  /** Both authorisation paths, token first. */
  function Authorize(kv: map<string, KvEntry>, rows: seq<ApprovalProcess>, approvalId: string,
                     authorization: Option<string>, sessionEmail: Option<string>, now: int): (r: Access)
    ensures r.ByToken? <==> TokenMatches(kv, approvalId, authorization, now)
    ensures !r.ByToken? ==> r == SessionAccess(rows, approvalId, sessionEmail)
  {
    if TokenMatches(kv, approvalId, authorization, now) then ByToken
    else SessionAccess(rows, approvalId, sessionEmail)
  }

  /** `{notificationId, approvalId, state}` of the updated record, sent both
      to the webhook and to the owner's live connections. */
  function StatePayload(p: ApprovalProcess): (j: Json.Json)
    ensures j.JObj? && |j.members| == 3
    ensures j.members[0] == Json.Member("notificationId", Json.JStr(p.notificationId))
    ensures j.members[1] == Json.Member("approvalId", Json.JStr(p.id))
    ensures j.members[2] == Json.Member("state", Json.JStr(StateName(p.state)))
  {
    Json.JObj([
      Json.Member("notificationId", Json.JStr(p.notificationId)),
      Json.Member("approvalId", Json.JStr(p.id)),
      Json.Member("state", Json.JStr(StateName(p.state)))])
  }

  /** The handler.  Order as in the code: validate, authorise, re-read,
      require `pending`, persist, call the webhook, and only then tell the
      owner's live connections, on the session path only.  The token is never
      deleted. */
  method Post(db: Database, registry: Stream.Registry, body: Option<ResolveRequest>,
              authorization: Option<string>, sessionEmail: Option<string>, now: int,
              webhook: WebhookOutcome, writeOk: Stream.WriterId -> bool)
    returns (reply: Reply<Resolved>, call: Option<WebhookCall>, ghost order: seq<string>)
    modifies db`approvalProcesses, registry
    ensures db.kv == old(db.kv)
    // a body that is not JSON makes `request.json()` throw
    ensures body.None? ==> reply == Fail(500, INTERNAL_ERROR) && call.None?
    ensures body.Some? && Requested(body.value).None? ==> reply == Fail(400, INVALID_REQUEST) && call.None?
    ensures body.Some? && Requested(body.value).Some? ==>
      var (id, state) := Requested(body.value).value;
      var access := Authorize(old(db.kv), old(db.approvalProcesses), id, authorization, sessionEmail, now);
      var current := Table.First(old(db.approvalProcesses), ApprovalProcessService.HasId(id));
      && (access.Denied? ==> reply == Fail(access.status, access.message) && call.None?)
      && (!access.Denied? && current.None? ==> reply == Fail(404, NOT_FOUND) && call.None?)
      && (!access.Denied? && current.Some? && current.value.state != Pending ==>
            reply == Fail(400, NOT_PENDING) && call.None?)
      && (!access.Denied? && current.Some? && current.value.state == Pending ==>
            var updated := current.value.(state := state, updatedAt := now);
            && db.approvalProcesses == ApprovalProcessService.WithState(old(db.approvalProcesses), id, state, now)
            && call == Some(WebhookCall(updated.webhookUrl, Json.Stringify(StatePayload(updated))))
            && (webhook == FetchFailed ==> reply == Fail(500, INTERNAL_ERROR))
            && (webhook == Responded(false) ==> reply == Fail(500, WEBHOOK_FAILED))
            && (webhook == Responded(true) ==> reply == Reply(200, Payload(Resolved(UPDATED, updated))))
            && (webhook == Responded(true) && access.BySession? ==>
                  Stream.Sent(old(registry.clients), old(registry.written), old(registry.closed),
                              registry.clients, registry.written, registry.closed,
                              access.email, Stream.JsonFrame(STATE_CHANGED_EVENT, StatePayload(updated)),
                              writeOk, order)))
    // the table changes only when the webhook is reached
    ensures call.None? ==> db.approvalProcesses == old(db.approvalProcesses)
    // the live connections hear of it only on a successful session-path resolve
    ensures !(reply.status == 200 && body.Some? && Requested(body.value).Some? &&
              Authorize(old(db.kv), old(db.approvalProcesses), Requested(body.value).value.0,
                        authorization, sessionEmail, now).BySession?) ==>
      registry.clients == old(registry.clients) && registry.written == old(registry.written) &&
      registry.closed == old(registry.closed)
  {
    order := [];
    call := None;
    if body.None? {
      return Fail(500, INTERNAL_ERROR), call, order;
    }
    var requested := Requested(body.value);
    if requested.None? {
      return Fail(400, INVALID_REQUEST), call, order;
    }
    var (approvalId, state) := requested.value;
    var access := CheckAccess(db, approvalId, authorization, sessionEmail, now);
    if access.Denied? {
      return Fail(access.status, access.message), call, order;
    }
    reply, call, order := Resolve(db, registry, approvalId, state, access, now, webhook, writeOk);
  }

  /** Lines 20-61 of the handler: the token check, then the session check. */
  method CheckAccess(db: Database, approvalId: string, authorization: Option<string>, sessionEmail: Option<string>,
                     now: int)
    returns (access: Access)
    ensures access == Authorize(db.kv, db.approvalProcesses, approvalId, authorization, sessionEmail, now)
  {
    var accessToken := BearerToken(authorization);
    if Truthy(accessToken) {
      var storedToken := KvGet(db.kv, ApprovalTokenKey(approvalId), now);
      if Truthy(storedToken) && storedToken.value == accessToken.value {
        return ByToken;
      }
    }
    var userEmail := sessionEmail;
    if !Truthy(userEmail) {
      return Denied(401, UNAUTHORIZED);
    }
    var owned := ApprovalProcessService.GetApprovalProcessById(db, approvalId);
    if owned.None? || owned.value.userEmail != userEmail.value {
      return Denied(404, NOT_FOUND_OR_NOT_AUTHORIZED);
    }
    return BySession(userEmail.value);
  }

  /** Lines 63-125 of the handler, once the caller is let in. */
  method Resolve(db: Database, registry: Stream.Registry, approvalId: string, state: ApprovalState, access: Access,
                 now: int, webhook: WebhookOutcome, writeOk: Stream.WriterId -> bool)
    returns (reply: Reply<Resolved>, call: Option<WebhookCall>, ghost order: seq<string>)
    requires state != Pending && !access.Denied?
    modifies db`approvalProcesses, registry
    ensures var current := Table.First(old(db.approvalProcesses), ApprovalProcessService.HasId(approvalId));
      && (current.None? ==> reply == Fail(404, NOT_FOUND) && call.None?)
      && (current.Some? && current.value.state != Pending ==> reply == Fail(400, NOT_PENDING) && call.None?)
      && (current.Some? && current.value.state == Pending ==>
            var updated := current.value.(state := state, updatedAt := now);
            && db.approvalProcesses == ApprovalProcessService.WithState(old(db.approvalProcesses), approvalId, state, now)
            && call == Some(WebhookCall(updated.webhookUrl, Json.Stringify(StatePayload(updated))))
            && (webhook == FetchFailed ==> reply == Fail(500, INTERNAL_ERROR))
            && (webhook == Responded(false) ==> reply == Fail(500, WEBHOOK_FAILED))
            && (webhook == Responded(true) ==> reply == Reply(200, Payload(Resolved(UPDATED, updated))))
            && (webhook == Responded(true) && access.BySession? ==>
                  Stream.Sent(old(registry.clients), old(registry.written), old(registry.closed),
                              registry.clients, registry.written, registry.closed,
                              access.email, Stream.JsonFrame(STATE_CHANGED_EVENT, StatePayload(updated)),
                              writeOk, order)))
    ensures call.None? ==> db.approvalProcesses == old(db.approvalProcesses)
    ensures !(reply.status == 200 && access.BySession?) ==>
      registry.clients == old(registry.clients) && registry.written == old(registry.written) &&
      registry.closed == old(registry.closed)
  {
    order := [];
    call := None;
    var approvalProcess := ApprovalProcessService.GetApprovalProcessById(db, approvalId);
    if approvalProcess.None? {
      return Fail(404, NOT_FOUND), call, order;
    }
    if approvalProcess.value.state != Pending {
      return Fail(400, NOT_PENDING), call, order;
    }
    var result := ApprovalProcessService.UpdateApprovalProcessState(db, approvalId, state, now);
    if result.Thrown? {
      // the row was just read as pending, so this is unreachable in one sequential run
      return Fail(500, INTERNAL_ERROR), call, order;
    }
    var updated := result.value;
    var payload := StatePayload(updated);
    call := Some(WebhookCall(updated.webhookUrl, Json.Stringify(payload)));
    if webhook == FetchFailed {
      return Fail(500, INTERNAL_ERROR), call, order;
    }
    if !webhook.ok {
      return Fail(500, WEBHOOK_FAILED), call, order;
    }
    if access.BySession? {
      order := registry.SendSSEvent(access.email, STATE_CHANGED_EVENT, payload, writeOk);
    }
    reply := Reply(200, Payload(Resolved(UPDATED, updated)));
  }

  // ------------------------------------------------------------- properties

  /** The service worker sends `Bearer <token>`; the handler reads back
      exactly `<token>`. */
  lemma BearerRoundTrip(token: string)
    ensures BearerToken(Some("Bearer " + token)) == Some(token)
  {
    ReplaceFirstAtStart("Bearer ", token);
  }

  /** A token that does not match is no worse than none: the caller falls
      through to the session check. */
  lemma WrongTokenFallsThrough(kv: map<string, KvEntry>, rows: seq<ApprovalProcess>, approvalId: string,
                               authorization: Option<string>, sessionEmail: Option<string>, now: int)
    requires !TokenMatches(kv, approvalId, authorization, now)
    ensures Authorize(kv, rows, approvalId, authorization, sessionEmail, now) ==
            Authorize(kv, rows, approvalId, None, sessionEmail, now)
  {
  }

  /** The token path does not depend on who is signed in, or on who owns the
      approval. */
  lemma TokenIgnoresSession(kv: map<string, KvEntry>, rows1: seq<ApprovalProcess>, rows2: seq<ApprovalProcess>,
                            approvalId: string, authorization: Option<string>,
                            s1: Option<string>, s2: Option<string>, now: int)
    requires TokenMatches(kv, approvalId, authorization, now)
    ensures Authorize(kv, rows1, approvalId, authorization, s1, now) == ByToken
    ensures Authorize(kv, rows2, approvalId, authorization, s2, now) == ByToken
  {
  }

  /** Without a stored token for the approval, only its owner's session gets in. */
  lemma NoTokenOnlyOwner(kv: map<string, KvEntry>, rows: seq<ApprovalProcess>, approvalId: string,
                         authorization: Option<string>, sessionEmail: Option<string>, now: int)
    requires ApprovalTokenKey(approvalId) !in kv
    ensures var a := Authorize(kv, rows, approvalId, authorization, sessionEmail, now);
      !a.Denied? ==>
        (a.BySession? && Truthy(sessionEmail) &&
         exists i :: 0 <= i < |rows| && rows[i].id == approvalId && rows[i].userEmail == sessionEmail.value)
  {
    var a := Authorize(kv, rows, approvalId, authorization, sessionEmail, now);
    if !a.Denied? {
      var k := Table.FirstIndex(rows, ApprovalProcessService.HasId(approvalId));
      assert rows[k.value].id == approvalId;
    }
  }

  /** The token a push stores opens the token path for 300 seconds and no
      longer: from then on only the owner's session gets in. */
  lemma TokenLivesFiveMinutes(kv: map<string, KvEntry>, rows: seq<ApprovalProcess>, approvalId: string,
                              token: string, written: int, now: int, sessionEmail: Option<string>)
    requires token != ""
    ensures var kv' := kv[ApprovalTokenKey(approvalId) := KvEntry(token, written + TOKEN_TTL_MS)];
      var a := Authorize(kv', rows, approvalId, Some("Bearer " + token), sessionEmail, now);
      && (now < written + TOKEN_TTL_MS ==> a == ByToken)
      && (now >= written + TOKEN_TTL_MS ==> a == SessionAccess(rows, approvalId, sessionEmail))
  {
    BearerRoundTrip(token);
  }
}
