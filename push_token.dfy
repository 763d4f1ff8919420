/**
 * The `/api/push-token` handlers: `GET` returns the user's push token,
 * generating one when none is stored; `POST` with `{ action: "reset" }`
 * rotates it.
 */
module PushTokenApi {
  import opened Common
  import opened Store
  import Table
  import PushTokenService

  const GENERATE_FAILED := "Failed to generate push token"
  const RESET_FAILED := "Failed to reset push token"
  const INVALID_ACTION := "Invalid action"

  /** `{ pushToken }`. */
  datatype TokenBody = TokenBody(pushToken: string)

  /** The stored token as `getPushToken` would report it. */
  function Stored(rows: seq<UserCredentials>, userEmail: string): Option<string>
  {
    match Table.First(rows, PushTokenService.HasEmail(userEmail))
    case None => None
    case Some(c) => Some(c.pushToken)
  }

  /** `ensurePushToken`: a stored (non-empty) token is returned as it is and
      nothing changes; otherwise the token is reset, and a reset that yields
      nothing throws. */
  method EnsurePushToken(db: Database, userEmail: string, newToken: string, getFails: bool, resetFails: bool)
    returns (r: Result<string>)
    modifies db`userCredentials
    ensures var got := if getFails then None else Stored(old(db.userCredentials), userEmail);
      && (Truthy(got) ==> r == Ok(got.value) && db.userCredentials == old(db.userCredentials))
      && (!Truthy(got) ==>
            var reset := !resetFails && Stored(old(db.userCredentials), userEmail).Some? && newToken != "";
            && (resetFails ==> db.userCredentials == old(db.userCredentials))
            && (!resetFails ==> db.userCredentials == PushTokenService.Rotated(old(db.userCredentials), userEmail, newToken))
            && (reset ==> r == Ok(newToken))
            && (!reset ==> r == Thrown(GENERATE_FAILED)))
  {
    var pushToken := PushTokenService.GetPushToken(db, userEmail, getFails);
    assert !getFails ==> pushToken == Stored(db.userCredentials, userEmail);
    if !Truthy(pushToken) {
      pushToken := PushTokenService.ResetPushToken(db, userEmail, newToken, resetFails);
      if !Truthy(pushToken) {
        return Thrown(GENERATE_FAILED);
      }
    }
    r := Ok(pushToken.value);
  }

  /** `GET`: 401 without a session, 500 when no token could be made, else
      200 with the token. */
  method Get(db: Database, sessionEmail: Option<string>, newToken: string, getFails: bool, resetFails: bool)
    returns (reply: Reply<TokenBody>)
    modifies db`userCredentials
    ensures !Truthy(sessionEmail) ==> reply == Fail(401, UNAUTHORIZED) && db.userCredentials == old(db.userCredentials)
    ensures Truthy(sessionEmail) ==>
      var got := if getFails then None else Stored(old(db.userCredentials), sessionEmail.value);
      && (Truthy(got) ==> reply == Reply(200, Payload(TokenBody(got.value))) && db.userCredentials == old(db.userCredentials))
      && (!Truthy(got) ==>
            var reset := !resetFails && Stored(old(db.userCredentials), sessionEmail.value).Some? && newToken != "";
            && (reply == if reset then Reply(200, Payload(TokenBody(newToken))) else Fail(500, INTERNAL_SERVER_ERROR))
            && (resetFails ==> db.userCredentials == old(db.userCredentials))
            && (!resetFails ==>
                  db.userCredentials == PushTokenService.Rotated(old(db.userCredentials), sessionEmail.value, newToken)))
  {
    if !Truthy(sessionEmail) {
      return Fail(401, UNAUTHORIZED);
    }
    var r := EnsurePushToken(db, sessionEmail.value, newToken, getFails, resetFails);
    match r
    case Ok(token) => reply := Reply(200, Payload(TokenBody(token)));
    case Thrown(_) => reply := Fail(500, INTERNAL_SERVER_ERROR);
  }

  /** `POST`: 401 without a session, 500 for a body that is not JSON, 400 for
      any action but `reset` (all with nothing changed); otherwise the token
      is rotated and returned, or 500 when there was no row to rotate. */
  method Post(db: Database, sessionEmail: Option<string>, action: Option<Option<string>>, newToken: string, resetFails: bool)
    returns (reply: Reply<TokenBody>)
    modifies db`userCredentials
    ensures !Truthy(sessionEmail) ==> reply == Fail(401, UNAUTHORIZED)
    ensures Truthy(sessionEmail) && action.None? ==> reply == Fail(500, INTERNAL_SERVER_ERROR)
    ensures Truthy(sessionEmail) && action.Some? && action.value != Some("reset") ==> reply == Fail(400, INVALID_ACTION)
    ensures !(Truthy(sessionEmail) && action == Some(Some("reset")) && !resetFails) ==> db.userCredentials == old(db.userCredentials)
    ensures Truthy(sessionEmail) && action == Some(Some("reset")) ==>
      var reset := !resetFails && Stored(old(db.userCredentials), sessionEmail.value).Some? && newToken != "";
      && (!resetFails ==> db.userCredentials == PushTokenService.Rotated(old(db.userCredentials), sessionEmail.value, newToken))
      && reply == if reset then Reply(200, Payload(TokenBody(newToken))) else Fail(500, RESET_FAILED)
  {
    if !Truthy(sessionEmail) {
      return Fail(401, UNAUTHORIZED);
    }
    if action.None? {
      return Fail(500, INTERNAL_SERVER_ERROR);
    }
    if action.value != Some("reset") {
      return Fail(400, INVALID_ACTION);
    }
    var newPushToken := PushTokenService.ResetPushToken(db, sessionEmail.value, newToken, resetFails);
    if !Truthy(newPushToken) {
      return Fail(500, RESET_FAILED);
    }
    reply := Reply(200, Payload(TokenBody(newPushToken.value)));
  }

  // ------------------------------------------------------------- properties

  /** Once a user has a row, ensuring twice gives the same token: the first
      call stores or keeps one, the second finds it. */
  lemma EnsureIsStable(rows: seq<UserCredentials>, userEmail: string, newToken: string)
    requires exists i :: 0 <= i < |rows| && rows[i].email == userEmail
    requires newToken != ""
    ensures var after := if Truthy(Stored(rows, userEmail)) then rows else PushTokenService.Rotated(rows, userEmail, newToken);
      && Truthy(Stored(after, userEmail))
      && Stored(after, userEmail).value == (if Truthy(Stored(rows, userEmail)) then Stored(rows, userEmail).value else newToken)
  {
    if !Truthy(Stored(rows, userEmail)) {
      PushTokenService.ReadAfterRotate(rows, userEmail, newToken);
    }
  }
}
