/**
 * The `/api/vapid-keys` handler: returns the signed-in user's public key and
 * push token, creating the credentials row on first use.  The freshly
 * generated credentials, the row id and the clock are inputs.
 */
module VapidKeysApi {
  import opened Common
  import opened Store
  import Table
  import VapidHelper
  import PushTokenService

  /** `{ publicKey, pushToken }`: the reply has no place for the private key. */
  datatype PublicCredentials = PublicCredentials(publicKey: string, pushToken: string)

  /** The credentials table after the lookup and the row the reply is built
      from: the user's first row when there is one, else a new row made from
      the generated credentials and appended. */
  function GetOrCreate(rows: seq<UserCredentials>, userEmail: string, generated: VapidHelper.Credentials,
                       rowId: string, now: int): (r: (seq<UserCredentials>, UserCredentials))
    ensures r.1.email == userEmail && r.1 in r.0
    ensures (exists i :: 0 <= i < |rows| && rows[i].email == userEmail) ==> r.0 == rows
    ensures (forall i :: 0 <= i < |rows| ==> rows[i].email != userEmail) ==>
      && r.0 == rows + [r.1]
      && r.1 == UserCredentials(rowId, userEmail, generated.publicKey, generated.privateKey, generated.pushToken, now, now)
  {
    match Table.First(rows, PushTokenService.HasEmail(userEmail))
    case Some(c) => (rows, c)
    case None =>
      var c := UserCredentials(rowId, userEmail, generated.publicKey, generated.privateKey, generated.pushToken, now, now);
      (rows + [c], c)
  }

  /** `GET`: 401 without a session; otherwise 200 with the public key and
      push token of the user's credentials, created if missing. */
  method Get(db: Database, sessionEmail: Option<string>, generated: VapidHelper.Credentials, rowId: string, now: int)
    returns (reply: Reply<PublicCredentials>)
    modifies db`userCredentials
    ensures !Truthy(sessionEmail) ==> reply == Fail(401, UNAUTHORIZED) && db.userCredentials == old(db.userCredentials)
    ensures Truthy(sessionEmail) ==>
      var r := GetOrCreate(old(db.userCredentials), sessionEmail.value, generated, rowId, now);
      && db.userCredentials == r.0
      && reply == Reply(200, Payload(PublicCredentials(r.1.publicKey, r.1.pushToken)))
  {
    if !Truthy(sessionEmail) {
      return Fail(401, UNAUTHORIZED);
    }
    var r := GetOrCreate(db.userCredentials, sessionEmail.value, generated, rowId, now);
    db.userCredentials := r.0;
    reply := Reply(200, Payload(PublicCredentials(r.1.publicKey, r.1.pushToken)));
  }

  // ------------------------------------------------------------- properties

  /** A second request finds what the first one stored or found: the same
      row, the table unchanged, whatever credentials it generated. */
  lemma GetOrCreateIsStable(rows: seq<UserCredentials>, userEmail: string,
                            g1: VapidHelper.Credentials, id1: string, t1: int,
                            g2: VapidHelper.Credentials, id2: string, t2: int)
    ensures var first := GetOrCreate(rows, userEmail, g1, id1, t1);
      var second := GetOrCreate(first.0, userEmail, g2, id2, t2);
      second == first
  {
    var first := GetOrCreate(rows, userEmail, g1, id1, t1);
    var k := Table.FirstIndex(rows, PushTokenService.HasEmail(userEmail));
    if k.None? {
      Table.FirstIndexAgree(rows + [first.1], rows + [first.1], PushTokenService.HasEmail(userEmail));
      assert Table.FirstIndex(first.0, PushTokenService.HasEmail(userEmail)) == Some(|rows|) by {
        FirstIndexOfAppended(rows, first.1, PushTokenService.HasEmail(userEmail));
      }
    }
  }

  /** The first match in `rows + [x]` is `x` when no row of `rows` matches. */
  lemma {:induction false} FirstIndexOfAppended<R>(rows: seq<R>, x: R, p: R -> bool)
    requires forall i :: 0 <= i < |rows| ==> !p(rows[i])
    requires p(x)
    ensures Table.FirstIndex(rows + [x], p) == Some(|rows|)
  {
    if rows == [] {
      assert rows + [x] == [x];
    } else {
      assert (rows + [x])[1..] == rows[1..] + [x];
      FirstIndexOfAppended(rows[1..], x, p);
    }
  }

  /** A request never changes a row that was already there, and adds at most
      one row, for that user only when the user had none. */
  lemma GetOrCreateOnlyAppends(rows: seq<UserCredentials>, userEmail: string, generated: VapidHelper.Credentials,
                               rowId: string, now: int)
    ensures var r := GetOrCreate(rows, userEmail, generated, rowId, now);
      && rows <= r.0 && |r.0| <= |rows| + 1
      && (|r.0| == |rows| + 1 ==> r.0[|rows|].email == userEmail)
  {
  }
}
