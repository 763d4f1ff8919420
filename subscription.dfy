/**
 * The `/api/subscription` handlers: `PUT` stores a device's Web Push
 * subscription for the signed-in user (updating the row of that user and
 * device fingerprint, or inserting one), `DELETE` removes it.  The session
 * email, the parsed request body, the clock and the new row id are inputs.
 */
module SubscriptionApi {
  import opened Common
  import opened Store
  import opened Text
  import Json
  import Table

  const INVALID_DATA := "Missing or invalid subscription data or device fingerprint"
  const INVALID_FINGERPRINT := "Invalid device fingerprint format"
  const MISSING_FINGERPRINT := "Missing device fingerprint"
  const NOT_FOUND := "Subscription not found"
  const INTERNAL_ERROR := "Internal server error"

  /** `{ subscription?, deviceFingerprint? }` as the request carries it. */
  datatype PutBody = PutBody(subscription: Option<Json.Json>, deviceFingerprint: Option<string>)

  /** The payloads of the successful replies. */
  datatype Done =
    | Updated(updatedAt: int)
    | Created(createdAt: int)
    | Deleted(deletedId: string)

  /** `/^[a-f0-9]{64}$/i`: exactly 64 hexadecimal digits of either case, so
      a valid fingerprint is ASCII text of 64 bytes. */
  predicate IsValidSHA256(hash: string): (b: bool)
    ensures b ==> forall i :: 0 <= i < |hash| ==> hash[i] as int < 0x80
    ensures b ==> Utf8Length(hash) == 64
  {
    |hash| == 64 && forall i :: 0 <= i < |hash| ==> IsHexDigit(hash[i])
  }

  /** A body value that is truthy and of `typeof` "object": an object or an array. */
  predicate IsObject(j: Option<Json.Json>)
  {
    j.Some? && (j.value.JObj? || j.value.JArr?)
  }

  function HasKey(userEmail: string, fingerprint: string): Subscription -> bool
  {
    (s: Subscription) => s.userEmail == userEmail && s.deviceFingerprint == fingerprint
  }

  function NotKey(userEmail: string, fingerprint: string): Subscription -> bool
  {
    (s: Subscription) => !(s.userEmail == userEmail && s.deviceFingerprint == fingerprint)
  }

  /** No two rows share a (user, fingerprint) pair. */
  predicate UniqueKeys(rows: seq<Subscription>)
  {
    forall i, j :: 0 <= i < j < |rows| ==>
      !(rows[i].userEmail == rows[j].userEmail && rows[i].deviceFingerprint == rows[j].deviceFingerprint)
  }

  /** The table after a valid `PUT`: the rows of that user and device get the
      new subscription text and update time, or one row is appended when there
      are none. */
  function Upsert(rows: seq<Subscription>, userEmail: string, fingerprint: string, text: string, id: string, now: int): seq<Subscription>
  {
    if Table.First(rows, HasKey(userEmail, fingerprint)).Some? then
      Table.UpdateWhere(rows, HasKey(userEmail, fingerprint), (s: Subscription) => s.(subscription := text, updatedAt := now))
    else
      rows + [Subscription(id, userEmail, fingerprint, text, now, now)]
  }

  /** `PUT`: 401 without a session, 500 when the body is not JSON, 400 for a
      missing or non-object subscription or a missing or malformed
      fingerprint (all with the table untouched); otherwise 200 when the
      device was known and 201 when a row was inserted. */
  method Put(db: Database, sessionEmail: Option<string>, body: Option<PutBody>, id: string, now: int)
    returns (reply: Reply<Done>)
    modifies db`subscriptions
    ensures !Truthy(sessionEmail) ==> reply == Fail(401, UNAUTHORIZED)
    ensures Truthy(sessionEmail) && body.None? ==> reply == Fail(500, INTERNAL_ERROR)
    ensures Truthy(sessionEmail) && body.Some? && (!IsObject(body.value.subscription) || !Truthy(body.value.deviceFingerprint))
      ==> reply == Fail(400, INVALID_DATA)
    ensures (Truthy(sessionEmail) && body.Some? && IsObject(body.value.subscription) && Truthy(body.value.deviceFingerprint)
             && !IsValidSHA256(body.value.deviceFingerprint.value)) ==> reply == Fail(400, INVALID_FINGERPRINT)
    ensures reply.status != 200 && reply.status != 201 ==> db.subscriptions == old(db.subscriptions)
    ensures (Truthy(sessionEmail) && body.Some? && IsObject(body.value.subscription) && Truthy(body.value.deviceFingerprint)
             && IsValidSHA256(body.value.deviceFingerprint.value)) ==> reply.status == 200 || reply.status == 201
    ensures reply.status == 200 || reply.status == 201 ==>
      && Truthy(sessionEmail) && body.Some? && IsObject(body.value.subscription)
      && Truthy(body.value.deviceFingerprint) && IsValidSHA256(body.value.deviceFingerprint.value)
      && var user, fp := sessionEmail.value, body.value.deviceFingerprint.value;
         var known := Table.First(old(db.subscriptions), HasKey(user, fp)).Some?;
         && db.subscriptions == Upsert(old(db.subscriptions), user, fp, Json.Stringify(body.value.subscription.value), id, now)
         && reply == (if known then Reply(200, Payload(Updated(now))) else Reply(201, Payload(Created(now))))
  {
    if !Truthy(sessionEmail) {
      return Fail(401, UNAUTHORIZED);
    }
    if body.None? {
      return Fail(500, INTERNAL_ERROR);
    }
    var subscription, fingerprint := body.value.subscription, body.value.deviceFingerprint;
    if !IsObject(subscription) || !Truthy(fingerprint) {
      return Fail(400, INVALID_DATA);
    }
    if !IsValidSHA256(fingerprint.value) {
      return Fail(400, INVALID_FINGERPRINT);
    }
    var user, fp := sessionEmail.value, fingerprint.value;
    var text := Json.Stringify(subscription.value);
    var existing := Table.First(db.subscriptions, HasKey(user, fp));
    db.subscriptions := Upsert(db.subscriptions, user, fp, text, id, now);
    if existing.Some? {
      reply := Reply(200, Payload(Updated(now)));
    } else {
      reply := Reply(201, Payload(Created(now)));
    }
  }

  /** `DELETE`: 401 without a session, 500 when the body is not JSON, 400 for
      a missing or malformed fingerprint, 404 when the user has no row for
      that device; otherwise every such row goes and the first one's id is
      returned.  Rows of other users and other devices are kept in order. */
  method Delete(db: Database, sessionEmail: Option<string>, body: Option<Option<string>>)
    returns (reply: Reply<Done>)
    modifies db`subscriptions
    ensures !Truthy(sessionEmail) ==> reply == Fail(401, UNAUTHORIZED)
    ensures Truthy(sessionEmail) && body.None? ==> reply == Fail(500, INTERNAL_ERROR)
    ensures Truthy(sessionEmail) && body.Some? && !Truthy(body.value) ==> reply == Fail(400, MISSING_FINGERPRINT)
    ensures Truthy(sessionEmail) && body.Some? && Truthy(body.value) && !IsValidSHA256(body.value.value)
      ==> reply == Fail(400, INVALID_FINGERPRINT)
    ensures reply.status != 200 ==> db.subscriptions == old(db.subscriptions)
    ensures Truthy(sessionEmail) && body.Some? && Truthy(body.value) && IsValidSHA256(body.value.value) ==>
      var found := Table.First(old(db.subscriptions), HasKey(sessionEmail.value, body.value.value));
      && (found.None? ==> reply == Fail(404, NOT_FOUND))
      && (found.Some? ==>
            && reply == Reply(200, Payload(Deleted(found.value.id)))
            && db.subscriptions == Table.Where(old(db.subscriptions), NotKey(sessionEmail.value, body.value.value)))
  {
    if !Truthy(sessionEmail) {
      return Fail(401, UNAUTHORIZED);
    }
    if body.None? {
      return Fail(500, INTERNAL_ERROR);
    }
    var fingerprint := body.value;
    if !Truthy(fingerprint) {
      return Fail(400, MISSING_FINGERPRINT);
    }
    if !IsValidSHA256(fingerprint.value) {
      return Fail(400, INVALID_FINGERPRINT);
    }
    var user, fp := sessionEmail.value, fingerprint.value;
    var result := Table.First(db.subscriptions, HasKey(user, fp));
    if result.None? {
      Table.WhereAll(db.subscriptions, NotKey(user, fp));
    }
    db.subscriptions := Table.Where(db.subscriptions, NotKey(user, fp));
    if result.Some? {
      reply := Reply(200, Payload(Deleted(result.value.id)));
    } else {
      reply := Fail(404, NOT_FOUND);
    }
  }

  // ------------------------------------------------------------- properties

  /** The fingerprint check ignores letter case, as the `/i` flag makes it:
      a fingerprint passes exactly when its lowercase form does. */
  lemma FingerprintCaseInsensitive(hash: string)
    ensures IsValidSHA256(hash) <==> IsValidSHA256(LowerAscii(hash))
  {
    var lower := LowerAscii(hash);
    forall i | 0 <= i < |hash| ensures IsHexDigit(hash[i]) <==> IsHexDigit(lower[i]) {
      assert lower[i] == ToLowerAscii(hash[i]);
    }
    if IsValidSHA256(lower) {
      assert forall i :: 0 <= i < |hash| ==> IsHexDigit(lower[i]);
    }
  }

  /** An upsert never duplicates a device: a table without duplicate
      (user, fingerprint) pairs keeps that property, and afterwards holds
      exactly one row for the device, carrying the new subscription text. */
  lemma UpsertKeepsKeysUnique(rows: seq<Subscription>, userEmail: string, fingerprint: string, text: string, id: string, now: int)
    requires UniqueKeys(rows)
    ensures var r := Upsert(rows, userEmail, fingerprint, text, id, now);
      && UniqueKeys(r)
      && (exists k :: 0 <= k < |r| && r[k].userEmail == userEmail && r[k].deviceFingerprint == fingerprint && r[k].subscription == text)
  {
    var r := Upsert(rows, userEmail, fingerprint, text, id, now);
    var found := Table.FirstIndex(rows, HasKey(userEmail, fingerprint));
    if found.Some? {
      assert Table.First(rows, HasKey(userEmail, fingerprint)).Some?;
      var k := found.value;
      assert r[k].subscription == text && HasKey(userEmail, fingerprint)(rows[k]);
    } else {
      assert Table.First(rows, HasKey(userEmail, fingerprint)).None?;
      var k := |rows|;
      assert r[k].subscription == text;
      forall i, j | 0 <= i < j < |r|
        ensures !(r[i].userEmail == r[j].userEmail && r[i].deviceFingerprint == r[j].deviceFingerprint)
      {
        if j == |rows| {
          assert !HasKey(userEmail, fingerprint)(rows[i]);
        }
      }
    }
  }

  /** An upsert leaves every row of another user or another device as it was,
      in the same place. */
  lemma UpsertKeepsOtherRows(rows: seq<Subscription>, userEmail: string, fingerprint: string, text: string, id: string, now: int)
    ensures var r := Upsert(rows, userEmail, fingerprint, text, id, now);
      && |rows| <= |r| <= |rows| + 1
      && forall i :: 0 <= i < |rows| && !(rows[i].userEmail == userEmail && rows[i].deviceFingerprint == fingerprint)
           ==> r[i] == rows[i]
  {
  }

  /** A delete removes exactly the rows of that user and device. */
  lemma DeleteRemovesOnlyThatDevice(rows: seq<Subscription>, userEmail: string, fingerprint: string)
    ensures var r := Table.Where(rows, NotKey(userEmail, fingerprint));
      && (forall i :: 0 <= i < |r| ==> !(r[i].userEmail == userEmail && r[i].deviceFingerprint == fingerprint))
      && (forall i :: 0 <= i < |rows| && !(rows[i].userEmail == userEmail && rows[i].deviceFingerprint == fingerprint)
            ==> rows[i] in r)
  {
  }
}
