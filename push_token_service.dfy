/**
 * `PushTokenService`: reads and rotates the push token kept on a user's
 * credentials row.  The freshly generated token and whether the store call
 * fails are inputs; failures are swallowed and reported as `null`.
 */
module PushTokenService {
  import opened Common
  import opened Store
  import Table

  function HasEmail(userEmail: string): UserCredentials -> bool
  {
    (c: UserCredentials) => c.email == userEmail
  }

  function WithPushToken(token: string): UserCredentials -> UserCredentials
  {
    (c: UserCredentials) => c.(pushToken := token)
  }

  /** The table after `update ... set pushToken where email`. */
  function Rotated(rows: seq<UserCredentials>, userEmail: string, token: string): seq<UserCredentials>
  {
    Table.UpdateWhere(rows, HasEmail(userEmail), WithPushToken(token))
  }

  /** `getPushToken`: the token of the user's row, `null` when there is no
      row or the call fails.  An empty stored token is returned as it is. */
  method GetPushToken(db: Database, userEmail: string, fails: bool) returns (token: Option<string>)
    ensures fails ==> token.None?
    ensures !fails ==> (token.Some? <==> exists i :: 0 <= i < |db.userCredentials| && db.userCredentials[i].email == userEmail)
    ensures !fails && token.Some? ==>
      exists i :: 0 <= i < |db.userCredentials| && db.userCredentials[i].email == userEmail
        && db.userCredentials[i].pushToken == token.value
        && forall j :: 0 <= j < i ==> db.userCredentials[j].email != userEmail
  {
    if fails {
      return None;
    }
    var k := Table.FirstIndex(db.userCredentials, HasEmail(userEmail));
    if k.None? {
      return None;
    }
    token := Some(db.userCredentials[k.value].pushToken);
  }

  /** `resetPushToken`: every row of the user gets the new token and nothing
      else changes; the new token comes back iff such a row exists.  No row
      is ever created.  A failing call changes nothing and gives `null`. */
  method ResetPushToken(db: Database, userEmail: string, newToken: string, fails: bool) returns (token: Option<string>)
    modifies db`userCredentials
    ensures fails ==> token.None? && db.userCredentials == old(db.userCredentials)
    ensures !fails ==> db.userCredentials == Rotated(old(db.userCredentials), userEmail, newToken)
    ensures !fails ==> (token.Some? <==> exists i :: 0 <= i < |old(db.userCredentials)| && old(db.userCredentials)[i].email == userEmail)
    ensures token.Some? ==> token.value == newToken
  {
    if fails {
      return None;
    }
    var updated := Table.First(db.userCredentials, HasEmail(userEmail));
    db.userCredentials := Rotated(db.userCredentials, userEmail, newToken);
    if updated.Some? {
      token := Some(newToken);
    } else {
      token := None;
    }
  }

  // ------------------------------------------------------------- properties

  /** A rotation touches only the push token of the user's rows: the table
      keeps its length, the keys, ids and timestamps of every row, and every
      other user's row whole. */
  lemma RotationKeepsKeys(rows: seq<UserCredentials>, userEmail: string, token: string)
    ensures var r := Rotated(rows, userEmail, token);
      && |r| == |rows|
      && (forall i :: 0 <= i < |rows| ==> r[i].(pushToken := rows[i].pushToken) == rows[i])
      && (forall i :: 0 <= i < |rows| && rows[i].email == userEmail ==> r[i].pushToken == token)
      && (forall i :: 0 <= i < |rows| && rows[i].email != userEmail ==> r[i] == rows[i])
  {
  }

  /** After a rotation, the token read back for that user is the new one. */
  lemma ReadAfterRotate(rows: seq<UserCredentials>, userEmail: string, token: string)
    requires exists i :: 0 <= i < |rows| && rows[i].email == userEmail
    ensures var r := Rotated(rows, userEmail, token);
      && Table.First(r, HasEmail(userEmail)).Some?
      && Table.First(r, HasEmail(userEmail)).value.pushToken == token
  {
    var r := Rotated(rows, userEmail, token);
    Table.FirstIndexAgree(rows, r, HasEmail(userEmail));
  }
}
