/**
 * The publish endpoint `POST /api/push`: a client holding a user's push token
 * sends Markdown content with an optional front-matter header; the handler
 * stores the notification (and, for `type: approval-process`, an approval
 * with a temporary access token), sends the Web Push message to every device
 * subscription of the user, removes the subscriptions the push service
 * reports as gone (status 410), and tells the user's open pages.
 *
 * The outside world is input: the URL parser, the new ids and the
 * temporary token, the clock, whether a stored subscription is valid JSON,
 * what the push service answers for each subscription, whether a deletion
 * fails, and whether each live connection accepts a write.
 */
module Push {
  import opened Common
  import opened Store
  import opened Text
  import Json
  import Table
  import FrontMatter
  import Stream
  import ApprovalProcessService
  import SubscriptionService

  /** The largest message, in UTF-8 bytes, a push may carry. */
  const MAX_MESSAGE_SIZE := 4096

  const INVALID_INPUT := "Invalid input parameters"
  const INVALID_PUSH_TOKEN := "Invalid push token"
  const ICON_NOT_HTTPS := "Icon URL must use HTTPS protocol"
  const INVALID_ICON := "Invalid icon URL"
  const WEBHOOK_REQUIRED := "Webhook URL is required for approval process"
  const TOO_LARGE := "Message size exceeds 4KB limit"

  const APPROVAL_TYPE := "approval-process"
  const NEW_NOTIFICATION_EVENT := "newNotification"
  const DEFAULT_TOPIC := "Default"
  const PUSH_TTL := 60
  const URGENCY := "normal"

  /** `{ pushToken, content }` as the request carries it. */
  datatype PushBody = PushBody(pushToken: Option<string>, content: Option<string>)

  /** What `new URL(...)` yields that the handler looks at. */
  datatype Url = Url(protocol: string, hostname: string)

  /** The ids the handler obtains: the notification's row id, the approval's
      row id and the temporary access token. */
  datatype Fresh = Fresh(notificationId: string, approvalId: string, tempToken: string)

  /** The push service's answer to one send: an HTTP status, or an error
      thrown while building or sending the request. */
  datatype SendOutcome = Responded(status: int) | SendThrown(message: string)

  /** One `webPushService.sendNotification` call. */
  datatype PushRequest = PushRequest(subscription: string, data: string, ttl: int, topic: string, urgency: string)

  datatype FailedPush = FailedPush(subscriptionId: string, reason: string)

  /** The two 200 answers. */
  datatype Outcome =
    | PartiallyFailed(failedPushes: seq<FailedPush>)
    | Published(notificationId: string, approvalId: Option<string>)

  /** The request either ends before anything is stored, or goes on with the
      owner of the push token, the parsed header and the content without it. */
  datatype Screened =
    | Refused(reply: Reply<Outcome>)
    | Admitted(user: UserCredentials, header: map<string, string>, content: string)

  // ------------------------------------------------------------ validation

  /** `header[key]`, which is `undefined` for a missing key. */
  function Lookup(header: map<string, string>, key: string): Option<string>
  {
    if key in header then Some(header[key]) else None
  }

  predicate IsApproval(header: map<string, string>)
  {
    Lookup(header, "type") == Some(APPROVAL_TYPE)
  }

  /** `header.topic || 'Default'`. */
  function Topic(header: map<string, string>): (t: string)
    ensures t != ""
  {
    var topic := Lookup(header, "topic");
    if Truthy(topic) then topic.value else DEFAULT_TOPIC
  }

  function HasPushToken(token: string): UserCredentials -> bool
  {
    (c: UserCredentials) => c.pushToken == token
  }

  /** The user the push token belongs to. */
  function Owner(creds: seq<UserCredentials>, token: string): Option<UserCredentials>
  {
    Table.First(creds, HasPushToken(token))
  }

  /** An absent or empty icon, or one that parses to an `https:` URL. */
  predicate IconAcceptable(header: map<string, string>, parseUrl: string -> Option<Url>)
  {
    var icon := Lookup(header, "icon_url");
    !Truthy(icon) || (parseUrl(icon.value).Some? && parseUrl(icon.value).value.protocol == "https:")
  }

  /** The header checks, icon first, then the webhook of an approval. */
  function Rejection(header: map<string, string>, parseUrl: string -> Option<Url>): (r: Option<string>)
    ensures r.None? <==> IconAcceptable(header, parseUrl) && (IsApproval(header) ==> Truthy(Lookup(header, "webhook_url")))
    ensures !IconAcceptable(header, parseUrl) ==> r == Some(INVALID_ICON) || r == Some(ICON_NOT_HTTPS)
    ensures IconAcceptable(header, parseUrl) && r.Some? ==> r == Some(WEBHOOK_REQUIRED) && IsApproval(header)
  {
    var icon := Lookup(header, "icon_url");
    if Truthy(icon) && parseUrl(icon.value).None? then Some(INVALID_ICON)
    else if Truthy(icon) && parseUrl(icon.value).value.protocol != "https:" then Some(ICON_NOT_HTTPS)
    else if IsApproval(header) && !Truthy(Lookup(header, "webhook_url")) then Some(WEBHOOK_REQUIRED)
    else None
  }

  /** Everything the handler checks before it stores anything, in its order:
      the body, the token, then the header.  A request is admitted exactly
      when its body carries a push token and content, the token belongs to a
      user, and the header passes; it then carries that user, the header of
      the trimmed content and the content without it. */
  function Screen(body: Option<PushBody>, creds: seq<UserCredentials>, parseUrl: string -> Option<Url>): (r: Screened)
    ensures r.Admitted? <==>
      && body.Some? && Truthy(body.value.pushToken) && Truthy(body.value.content)
      && Owner(creds, body.value.pushToken.value).Some?
      && Rejection(FrontMatter.HeaderOf(Trim(body.value.content.value)), parseUrl).None?
    ensures r.Admitted? ==>
      && r.user in creds && r.user.pushToken == body.value.pushToken.value
      && r.header == FrontMatter.HeaderOf(Trim(body.value.content.value))
      && r.content == FrontMatter.StripHeader(Trim(body.value.content.value))
    ensures r.Refused? ==> r.reply.status == 400 || r.reply.status == 401 || r.reply.status == 500
  {
    if body.None? then Refused(Fail(500, INTERNAL_SERVER_ERROR))
    else if !Truthy(body.value.pushToken) || !Truthy(body.value.content) then Refused(Fail(400, INVALID_INPUT))
    else match Owner(creds, body.value.pushToken.value)
      case None => Refused(Fail(401, INVALID_PUSH_TOKEN))
      case Some(user) =>
        var trimmed := Trim(body.value.content.value);
        var header := FrontMatter.HeaderOf(trimmed);
        match Rejection(header, parseUrl)
        case Some(m) => Refused(Fail(400, m))
        case None => Admitted(user, header, FrontMatter.StripHeader(trimmed))
  }

  // ------------------------------------------------------- stored and sent

  /** The row inserted for the notification. */
  function NewNotification(id: string, userEmail: string, header: map<string, string>, content: string, now: int): (n: Notification)
    ensures n.id == id && n.userEmail == userEmail && n.content == content
  {
    Notification(id, content, Lookup(header, "title"), Lookup(header, "category"), Lookup(header, "group"),
                 userEmail, Lookup(header, "icon_url"), Lookup(header, "type"), now, now)
  }

  /** A nullable column as JSON. */
  function Nullable(s: Option<string>): Json.Json
  {
    if s.Some? then Json.JStr(s.value) else Json.JNull
  }

  /** The members only an approval message carries. */
  function ApprovalMembers(approval: bool, issued: Fresh, withToken: bool): seq<Json.Member>
  {
    if !approval then []
    else [Json.Member("approvalState", Json.JStr(StateName(Pending))), Json.Member("approvalId", Json.JStr(issued.approvalId))]
         + (if withToken then [Json.Member("tempAccessToken", Json.JStr(issued.tempToken))] else [])
  }

  /** The push message: the notification, its approval fields when it is an
      approval, and the send time. */
  function Message(n: Notification, approval: bool, issued: Fresh, now: int): (j: Json.Json)
    ensures j.JObj?
    ensures Json.Member("body", Json.JStr(n.content)) in j.members
    ensures approval <==> Json.Member("tempAccessToken", Json.JStr(issued.tempToken)) in j.members
  {
    var members := [Json.Member("id", Json.JStr(n.id)), Json.Member("title", Nullable(n.title)),
                    Json.Member("body", Json.JStr(n.content)), Json.Member("category", Nullable(n.category)),
                    Json.Member("group", Nullable(n.group)), Json.Member("iconUrl", Nullable(n.iconUrl)),
                    Json.Member("type", Nullable(n.notificationType))];
    var tail := [Json.Member("createdAt", Json.JNum(now))];
    var r := members + ApprovalMembers(approval, issued, true) + tail;
    assert r[2] == Json.Member("body", Json.JStr(n.content));
    assert approval ==> r[|members| + 2] == Json.Member("tempAccessToken", Json.JStr(issued.tempToken));
    assert !approval ==> r == members + tail;
    Json.JObj(r)
  }

  /** The data of the `newNotification` event: the stored row's columns (its
      timestamps left out) and, for an approval, its state and id. */
  function EventData(n: Notification, approval: bool, issued: Fresh): (j: Json.Json)
    ensures j.JObj?
    ensures approval <==> Json.Member("approvalId", Json.JStr(issued.approvalId)) in j.members
  {
    var members := [Json.Member("id", Json.JStr(n.id)), Json.Member("content", Json.JStr(n.content)),
                    Json.Member("title", Nullable(n.title)), Json.Member("category", Nullable(n.category)),
                    Json.Member("group", Nullable(n.group)), Json.Member("userEmail", Json.JStr(n.userEmail)),
                    Json.Member("iconUrl", Nullable(n.iconUrl)), Json.Member("type", Nullable(n.notificationType))];
    var r := members + ApprovalMembers(approval, issued, false);
    assert approval ==> r[|members| + 1] == Json.Member("approvalId", Json.JStr(issued.approvalId));
    assert !approval ==> r == members;
    Json.JObj(r)
  }

  function OfUser(userEmail: string): Subscription -> bool
  {
    (s: Subscription) => s.userEmail == userEmail
  }

  /** The sends for the given subscriptions, in order. */
  function Requests(rows: seq<Subscription>, message: string, topic: string): (r: seq<PushRequest>)
    ensures |r| == |rows|
    ensures forall i :: 0 <= i < |rows| ==> r[i] == PushRequest(rows[i].subscription, message, PUSH_TTL, topic, URGENCY)
  {
    seq(|rows|, i requires 0 <= i < |rows| => PushRequest(rows[i].subscription, message, PUSH_TTL, topic, URGENCY))
  }

  function Unparsable(parses: string -> bool): Subscription -> bool
  {
    (s: Subscription) => !parses(s.subscription)
  }

  predicate Parsable(rows: seq<Subscription>, parses: string -> bool)
  {
    forall i :: 0 <= i < |rows| ==> parses(rows[i].subscription)
  }

  /** The subscriptions the loop reaches: all of them, or those before the
      first whose stored text is not JSON (`JSON.parse` throws outside the
      per-subscription `try`, which ends the whole request). */
  function Attempted(rows: seq<Subscription>, parses: string -> bool): (r: seq<Subscription>)
    ensures r <= rows
    ensures Parsable(r, parses)
    ensures r == rows <==> Parsable(rows, parses)
  {
    match Table.FirstIndex(rows, Unparsable(parses))
    case None => rows
    case Some(k) => rows[..k]
  }

  /** A send fails unless the push service answers with a 2xx status. */
  predicate Failed(o: SendOutcome)
  {
    o.SendThrown? || !(200 <= o.status <= 299)
  }

  /** The message of the error the send throws. */
  function Reason(o: SendOutcome): string
  {
    match o
    case Responded(status) => "HTTP error! status: " + IntToString(status)
    case SendThrown(message) => message
  }

  /** A failure whose error carries `statusCode` 410 Gone. */
  predicate Gone(o: SendOutcome)
  {
    o == Responded(410)
  }

  /** The failures the loop records, in order. */
  function Failures(rows: seq<Subscription>, outcome: Subscription -> SendOutcome): seq<FailedPush>
  {
    if rows == [] then []
    else
      var last := rows[|rows| - 1];
      Failures(rows[..|rows| - 1], outcome)
        + (if Failed(outcome(last)) then [FailedPush(last.id, Reason(outcome(last)))] else [])
  }

  /** The subscription ids the loop queues for removal, in order. */
  function Expired(rows: seq<Subscription>, outcome: Subscription -> SendOutcome): seq<string>
  {
    if rows == [] then []
    else
      var last := rows[|rows| - 1];
      Expired(rows[..|rows| - 1], outcome) + (if Gone(outcome(last)) then [last.id] else [])
  }

  /** The subscriptions table after the removal pass, each deletion failing
      or not as `storageFails` says. */
  function WithoutAll(rows: seq<Subscription>, ids: seq<string>, storageFails: string -> bool): seq<Subscription>
  {
    if ids == [] then rows
    else
      var before := WithoutAll(rows, ids[..|ids| - 1], storageFails);
      var id := ids[|ids| - 1];
      if storageFails(id) then before else SubscriptionService.WithoutId(before, id)
  }

  /** The answer once every subscription was tried. */
  function Answer(n: Notification, approval: bool, issued: Fresh, failed: seq<FailedPush>): Outcome
  {
    if failed != [] then PartiallyFailed(failed)
    else Published(n.id, if approval && issued.approvalId != "" then Some(issued.approvalId) else None)
  }

  // --------------------------------------------------------------- handler

  /** `POST /api/push`. */
  method Post(db: Database, registry: Stream.Registry, body: Option<PushBody>, issued: Fresh, now: int,
              parseUrl: string -> Option<Url>, parses: string -> bool, outcome: Subscription -> SendOutcome,
              storageFails: string -> bool, writeOk: Stream.WriterId -> bool)
    returns (reply: Reply<Outcome>, sends: seq<PushRequest>, ghost order: seq<string>)
    modifies db`pushNotifications, db`approvalProcesses, db`kv, db`subscriptions, registry
    ensures var s := Screen(body, old(db.userCredentials), parseUrl);
      s.Refused? ==>
        && reply == s.reply && sends == []
        && db.pushNotifications == old(db.pushNotifications) && db.approvalProcesses == old(db.approvalProcesses)
        && db.kv == old(db.kv) && db.subscriptions == old(db.subscriptions)
        && registry.clients == old(registry.clients) && registry.written == old(registry.written)
        && registry.closed == old(registry.closed)
    ensures var s := Screen(body, old(db.userCredentials), parseUrl);
      s.Admitted? ==>
        var approval := IsApproval(s.header);
        var n := NewNotification(issued.notificationId, s.user.email, s.header, s.content, now);
        var message := Json.Stringify(Message(n, approval, issued, now));
        var rows := Table.Where(old(db.subscriptions), OfUser(s.user.email));
        && db.pushNotifications == old(db.pushNotifications) + [n]
        && (approval ==>
              && db.approvalProcesses == old(db.approvalProcesses)
                   + [ApprovalProcessService.NewProcess(issued.approvalId, s.user.email, n.id, s.header["webhook_url"], now)]
              && db.kv == old(db.kv)[ApprovalTokenKey(issued.approvalId) := KvEntry(issued.tempToken, now + TOKEN_TTL_MS)])
        && (!approval ==> db.approvalProcesses == old(db.approvalProcesses) && db.kv == old(db.kv))
        && (Utf8Length(message) > MAX_MESSAGE_SIZE ==> reply == Fail(400, TOO_LARGE) && sends == [])
        && (Utf8Length(message) <= MAX_MESSAGE_SIZE ==> sends == Requests(Attempted(rows, parses), message, Topic(s.header)))
        && (Utf8Length(message) <= MAX_MESSAGE_SIZE && !Parsable(rows, parses) ==> reply == Fail(500, INTERNAL_SERVER_ERROR))
        && (Utf8Length(message) > MAX_MESSAGE_SIZE || !Parsable(rows, parses) ==>
              && db.subscriptions == old(db.subscriptions)
              && registry.clients == old(registry.clients) && registry.written == old(registry.written)
              && registry.closed == old(registry.closed))
        && (Utf8Length(message) <= MAX_MESSAGE_SIZE && Parsable(rows, parses) ==>
              && db.subscriptions == WithoutAll(old(db.subscriptions), Expired(rows, outcome), storageFails)
              && Stream.Sent(old(registry.clients), old(registry.written), old(registry.closed),
                             registry.clients, registry.written, registry.closed,
                             s.user.email, Stream.JsonFrame(NEW_NOTIFICATION_EVENT, EventData(n, approval, issued)),
                             writeOk, order)
              && reply == Reply(200, Payload(Answer(n, approval, issued, Failures(rows, outcome)))))
  {
    sends, order := [], [];
    if body.None? {
      return Fail(500, INTERNAL_SERVER_ERROR), sends, order;
    }
    if !Truthy(body.value.pushToken) || !Truthy(body.value.content) {
      return Fail(400, INVALID_INPUT), sends, order;
    }
    var user := Table.First(db.userCredentials, HasPushToken(body.value.pushToken.value));
    if user.None? {
      return Fail(401, INVALID_PUSH_TOKEN), sends, order;
    }
    var trimmed := Trim(body.value.content.value);
    var header := FrontMatter.ParseMarkdownHeader(trimmed);
    var content := FrontMatter.StripHeader(trimmed);
    var icon := Lookup(header, "icon_url");
    if Truthy(icon) {
      var url := parseUrl(icon.value);
      if url.None? {
        return Fail(400, INVALID_ICON), sends, order;
      }
      if url.value.protocol != "https:" {
        return Fail(400, ICON_NOT_HTTPS), sends, order;
      }
    }
    if IsApproval(header) && !Truthy(Lookup(header, "webhook_url")) {
      return Fail(400, WEBHOOK_REQUIRED), sends, order;
    }
    reply, sends, order := Publish(db, registry, user.value, header, content, issued, now, parses, outcome, storageFails, writeOk);
  }

  /** Everything after validation: store, build the message, check its size,
      send, remove the gone subscriptions, tell the open pages, answer. */
  method Publish(db: Database, registry: Stream.Registry, user: UserCredentials, header: map<string, string>,
                 content: string, issued: Fresh, now: int, parses: string -> bool,
                 outcome: Subscription -> SendOutcome, storageFails: string -> bool, writeOk: Stream.WriterId -> bool)
    returns (reply: Reply<Outcome>, sends: seq<PushRequest>, ghost order: seq<string>)
    requires IsApproval(header) ==> "webhook_url" in header
    modifies db`pushNotifications, db`approvalProcesses, db`kv, db`subscriptions, registry
    ensures var approval := IsApproval(header);
      var n := NewNotification(issued.notificationId, user.email, header, content, now);
      var message := Json.Stringify(Message(n, approval, issued, now));
      var rows := Table.Where(old(db.subscriptions), OfUser(user.email));
      && db.pushNotifications == old(db.pushNotifications) + [n]
      && (approval ==>
            && db.approvalProcesses == old(db.approvalProcesses)
                 + [ApprovalProcessService.NewProcess(issued.approvalId, user.email, n.id, header["webhook_url"], now)]
            && db.kv == old(db.kv)[ApprovalTokenKey(issued.approvalId) := KvEntry(issued.tempToken, now + TOKEN_TTL_MS)])
      && (!approval ==> db.approvalProcesses == old(db.approvalProcesses) && db.kv == old(db.kv))
      && (Utf8Length(message) > MAX_MESSAGE_SIZE ==> reply == Fail(400, TOO_LARGE) && sends == [])
      && (Utf8Length(message) <= MAX_MESSAGE_SIZE ==> sends == Requests(Attempted(rows, parses), message, Topic(header)))
      && (Utf8Length(message) <= MAX_MESSAGE_SIZE && !Parsable(rows, parses) ==> reply == Fail(500, INTERNAL_SERVER_ERROR))
      && (Utf8Length(message) > MAX_MESSAGE_SIZE || !Parsable(rows, parses) ==>
            && db.subscriptions == old(db.subscriptions)
            && registry.clients == old(registry.clients) && registry.written == old(registry.written)
            && registry.closed == old(registry.closed))
      && (Utf8Length(message) <= MAX_MESSAGE_SIZE && Parsable(rows, parses) ==>
            && db.subscriptions == WithoutAll(old(db.subscriptions), Expired(rows, outcome), storageFails)
            && Stream.Sent(old(registry.clients), old(registry.written), old(registry.closed),
                           registry.clients, registry.written, registry.closed,
                           user.email, Stream.JsonFrame(NEW_NOTIFICATION_EVENT, EventData(n, approval, issued)),
                           writeOk, order)
            && reply == Reply(200, Payload(Answer(n, approval, issued, Failures(rows, outcome)))))
  {
    sends, order := [], [];
    var approval := IsApproval(header);
    var notification := Persist(db, user, header, content, issued, now);
    var message := Json.Stringify(Message(notification, approval, issued, now));
    if Utf8Length(message) > MAX_MESSAGE_SIZE {
      return Fail(400, TOO_LARGE), sends, order;
    }
    var rows := Table.Where(db.subscriptions, OfUser(user.email));
    var parsed, failed, expired;
    parsed, sends, failed, expired := FanOut(rows, message, Topic(header), parses, outcome);
    if !parsed {
      return Fail(500, INTERNAL_SERVER_ERROR), sends, order;
    }
    RemoveExpired(db, expired, storageFails);
    order := registry.SendSSEvent(user.email, NEW_NOTIFICATION_EVENT, EventData(notification, approval, issued), writeOk);
    reply := Reply(200, Payload(Answer(notification, approval, issued, failed)));
  }

  /** The inserts: the notification, and for an approval (in one
      transaction) its approval row and the temporary token in the KV store,
      readable for 300 seconds from `now`. */
  method Persist(db: Database, user: UserCredentials, header: map<string, string>, content: string, issued: Fresh, now: int)
    returns (notification: Notification)
    requires IsApproval(header) ==> "webhook_url" in header
    modifies db`pushNotifications, db`approvalProcesses, db`kv
    ensures notification == NewNotification(issued.notificationId, user.email, header, content, now)
    ensures db.pushNotifications == old(db.pushNotifications) + [notification]
    ensures IsApproval(header) ==>
      && db.approvalProcesses == old(db.approvalProcesses)
           + [ApprovalProcessService.NewProcess(issued.approvalId, user.email, notification.id, header["webhook_url"], now)]
      && db.kv == old(db.kv)[ApprovalTokenKey(issued.approvalId) := KvEntry(issued.tempToken, now + TOKEN_TTL_MS)]
    ensures !IsApproval(header) ==> db.approvalProcesses == old(db.approvalProcesses) && db.kv == old(db.kv)
  {
    notification := NewNotification(issued.notificationId, user.email, header, content, now);
    db.pushNotifications := db.pushNotifications + [notification];
    if IsApproval(header) {
      var approval := ApprovalProcessService.AddApprovalProcess(db, issued.approvalId, user.email, notification.id,
                                                                header["webhook_url"], now);
      db.kv := db.kv[ApprovalTokenKey(approval.id) := KvEntry(issued.tempToken, now + TOKEN_TTL_MS)];
    }
  }

  /** The send loop: every subscription is tried in turn and a failure stops
      only its own send; failures are recorded with their reason and the 410
      ones queued for removal.  A stored subscription that is not JSON ends
      the loop (and the request). */
  method FanOut(rows: seq<Subscription>, message: string, topic: string, parses: string -> bool,
                outcome: Subscription -> SendOutcome)
    returns (parsed: bool, sends: seq<PushRequest>, failed: seq<FailedPush>, expired: seq<string>)
    ensures parsed <==> Parsable(rows, parses)
    ensures sends == Requests(Attempted(rows, parses), message, topic)
    ensures parsed ==> failed == Failures(rows, outcome) && expired == Expired(rows, outcome)
  {
    sends, failed, expired := [], [], [];
    var i := 0;
    while i < |rows|
      invariant 0 <= i <= |rows|
      invariant Parsable(rows[..i], parses)
      invariant sends == Requests(rows[..i], message, topic)
      invariant failed == Failures(rows[..i], outcome)
      invariant expired == Expired(rows[..i], outcome)
    {
      var sub := rows[i];
      if !parses(sub.subscription) {
        AttemptedStops(rows, parses, i);
        return false, sends, failed, expired;
      }
      FanOutStep(rows, i, message, topic, parses, outcome);
      sends := sends + [PushRequest(sub.subscription, message, PUSH_TTL, topic, URGENCY)];
      var result := outcome(sub);
      if Failed(result) {
        failed := failed + [FailedPush(sub.id, Reason(result))];
        if Gone(result) {
          expired := expired + [sub.id];
        }
      }
      i := i + 1;
    }
    assert rows[..i] == rows;
    parsed := true;
  }

  /** One more subscription reached: its send, failure and 410 are appended. */
  lemma FanOutStep(rows: seq<Subscription>, i: nat, message: string, topic: string, parses: string -> bool,
                   outcome: Subscription -> SendOutcome)
    requires i < |rows| && Parsable(rows[..i], parses) && parses(rows[i].subscription)
    ensures Parsable(rows[..i + 1], parses)
    ensures Requests(rows[..i + 1], message, topic)
         == Requests(rows[..i], message, topic) + [PushRequest(rows[i].subscription, message, PUSH_TTL, topic, URGENCY)]
    ensures Failures(rows[..i + 1], outcome)
         == Failures(rows[..i], outcome) + (if Failed(outcome(rows[i])) then [FailedPush(rows[i].id, Reason(outcome(rows[i])))] else [])
    ensures Expired(rows[..i + 1], outcome)
         == Expired(rows[..i], outcome) + (if Gone(outcome(rows[i])) then [rows[i].id] else [])
  {
    var next := rows[..i + 1];
    assert next[..i] == rows[..i] && next[i] == rows[i];
  }

  /** A subscription that is not JSON ends the sends just before it. */
  lemma AttemptedStops(rows: seq<Subscription>, parses: string -> bool, i: nat)
    requires i < |rows| && Parsable(rows[..i], parses) && !parses(rows[i].subscription)
    ensures Attempted(rows, parses) == rows[..i]
    ensures !Parsable(rows, parses)
  {
    assert forall j :: 0 <= j < i ==> rows[..i][j] == rows[j];
    assert Table.FirstIndex(rows, Unparsable(parses)) == Some(i);
  }

  /** The removal pass: each queued id is deleted in turn; a deletion that
      fails is only logged. */
  method RemoveExpired(db: Database, ids: seq<string>, storageFails: string -> bool)
    modifies db`subscriptions
    ensures db.subscriptions == WithoutAll(old(db.subscriptions), ids, storageFails)
  {
    var i := 0;
    while i < |ids|
      invariant 0 <= i <= |ids|
      invariant db.subscriptions == WithoutAll(old(db.subscriptions), ids[..i], storageFails)
    {
      var deleted := SubscriptionService.DeleteSubscriptionById(db, ids[i], storageFails(ids[i]));
      assert ids[..i + 1][..i] == ids[..i];
      i := i + 1;
    }
    assert ids[..i] == ids;
  }

  // ------------------------------------------------------------- properties

  function IsFailing(outcome: Subscription -> SendOutcome): Subscription -> bool
  {
    (s: Subscription) => Failed(outcome(s))
  }

  function IsGone(outcome: Subscription -> SendOutcome): Subscription -> bool
  {
    (s: Subscription) => Gone(outcome(s))
  }

  /** The failures of the subscriptions that fail, each with its reason. */
  function FailuresOf(failing: seq<Subscription>, outcome: Subscription -> SendOutcome): (r: seq<FailedPush>)
    ensures |r| == |failing|
  {
    seq(|failing|, i requires 0 <= i < |failing| => FailedPush(failing[i].id, Reason(outcome(failing[i]))))
  }

  function Ids(rows: seq<Subscription>): (r: seq<string>)
    ensures |r| == |rows|
  {
    seq(|rows|, i requires 0 <= i < |rows| => rows[i].id)
  }

  /** Each failing subscription is recorded exactly once, in table order,
      with the message of its error; the delivered ones are not recorded. */
  lemma {:induction false} FailuresAreFailingOnes(rows: seq<Subscription>, outcome: Subscription -> SendOutcome)
    ensures Failures(rows, outcome) == FailuresOf(Table.Where(rows, IsFailing(outcome)), outcome)
  {
    if rows != [] {
      var init, last := rows[..|rows| - 1], rows[|rows| - 1];
      assert rows == init + [last];
      FailuresAreFailingOnes(init, outcome);
      Table.WhereAppend(init, [last], IsFailing(outcome));
      assert Table.Where([last], IsFailing(outcome)) == if Failed(outcome(last)) then [last] else [];
      FailuresOfAppend(Table.Where(init, IsFailing(outcome)), Table.Where([last], IsFailing(outcome)), outcome);
    }
  }

  lemma FailuresOfAppend(a: seq<Subscription>, b: seq<Subscription>, outcome: Subscription -> SendOutcome)
    ensures FailuresOf(a + b, outcome) == FailuresOf(a, outcome) + FailuresOf(b, outcome)
  {
    assert forall i :: 0 <= i < |b| ==> (a + b)[|a| + i] == b[i];
  }

  lemma IdsAppend(a: seq<Subscription>, b: seq<Subscription>)
    ensures Ids(a + b) == Ids(a) + Ids(b)
  {
    assert forall i :: 0 <= i < |b| ==> (a + b)[|a| + i] == b[i];
  }

  /** The queued ids are the ids of the subscriptions answered with 410, in
      table order. */
  lemma {:induction false} ExpiredAreGoneOnes(rows: seq<Subscription>, outcome: Subscription -> SendOutcome)
    ensures Expired(rows, outcome) == Ids(Table.Where(rows, IsGone(outcome)))
  {
    if rows != [] {
      var init, last := rows[..|rows| - 1], rows[|rows| - 1];
      assert rows == init + [last];
      ExpiredAreGoneOnes(init, outcome);
      Table.WhereAppend(init, [last], IsGone(outcome));
      assert Table.Where([last], IsGone(outcome)) == if Gone(outcome(last)) then [last] else [];
      IdsAppend(Table.Where(init, IsGone(outcome)), Table.Where([last], IsGone(outcome)));
    }
  }

  /** The ids of recorded failures. */
  function FailedIds(failed: seq<FailedPush>): (r: seq<string>)
    ensures |r| == |failed|
  {
    seq(|failed|, i requires 0 <= i < |failed| => failed[i].subscriptionId)
  }

  /** Only failed sends are queued for removal: every queued id is the id of
      a recorded failure. */
  lemma {:induction false} ExpiredAreFailed(rows: seq<Subscription>, outcome: Subscription -> SendOutcome)
    ensures forall id :: id in Expired(rows, outcome) ==> id in FailedIds(Failures(rows, outcome))
  {
    if rows != [] {
      var init, last := rows[..|rows| - 1], rows[|rows| - 1];
      ExpiredAreFailed(init, outcome);
      var f0 := Failures(init, outcome);
      var extra := if Failed(outcome(last)) then [FailedPush(last.id, Reason(outcome(last)))] else [];
      assert Failures(rows, outcome) == f0 + extra;
      assert Expired(rows, outcome) == Expired(init, outcome) + (if Gone(outcome(last)) then [last.id] else []);
      assert FailedIds(f0 + extra) == FailedIds(f0) + FailedIds(extra);
      forall id | id in Expired(rows, outcome)
        ensures id in FailedIds(Failures(rows, outcome))
      {
        if id !in Expired(init, outcome) {
          assert FailedIds(extra)[0] == last.id;
        }
      }
    }
  }

  /** The request succeeds outright iff every send was answered with a 2xx
      status. */
  lemma {:induction false} NoFailuresIffAllDelivered(rows: seq<Subscription>, outcome: Subscription -> SendOutcome)
    ensures Failures(rows, outcome) == [] <==> forall i :: 0 <= i < |rows| ==> !Failed(outcome(rows[i]))
  {
    if rows != [] {
      var init := rows[..|rows| - 1];
      NoFailuresIffAllDelivered(init, outcome);
      assert forall i :: 0 <= i < |init| ==> init[i] == rows[i];
    }
  }

  /** After the removal pass, no subscription whose deletion succeeded is
      left, and every subscription whose id was not queued is still there. */
  lemma {:induction false} RemovalPass(rows: seq<Subscription>, ids: seq<string>, storageFails: string -> bool)
    ensures forall i, k ::
              0 <= i < |WithoutAll(rows, ids, storageFails)| && 0 <= k < |ids| && !storageFails(ids[k]) ==>
              WithoutAll(rows, ids, storageFails)[i].id != ids[k]
    ensures forall i :: 0 <= i < |rows| && rows[i].id !in ids ==> rows[i] in WithoutAll(rows, ids, storageFails)
    ensures forall i :: 0 <= i < |WithoutAll(rows, ids, storageFails)| ==> WithoutAll(rows, ids, storageFails)[i] in rows
  {
    if ids != [] {
      var init, id := ids[..|ids| - 1], ids[|ids| - 1];
      RemovalPass(rows, init, storageFails);
      var before := WithoutAll(rows, init, storageFails);
      var r := WithoutAll(rows, ids, storageFails);
      assert r == if storageFails(id) then before else SubscriptionService.WithoutId(before, id);
      forall i, k | 0 <= i < |r| && 0 <= k < |ids| && !storageFails(ids[k])
        ensures r[i].id != ids[k]
      {
        assert r[i] in before;
        var j :| 0 <= j < |before| && before[j] == r[i];
        if k < |init| {
          assert ids[k] == init[k];
        }
      }
      forall i | 0 <= i < |rows| && rows[i].id !in ids
        ensures rows[i] in r
      {
        forall k | 0 <= k < |init|
          ensures init[k] != rows[i].id
        {
          assert ids[k] == init[k];
        }
      }
    }
  }

  /** The checks come in the handler's order: an unknown token is refused
      only for a well-formed body, a missing webhook only for a known token and
      an acceptable icon, and an admitted request has a known user and a
      header that passes both checks. */
  lemma ScreenOrder(body: Option<PushBody>, creds: seq<UserCredentials>, parseUrl: string -> Option<Url>)
    ensures var s := Screen(body, creds, parseUrl);
      && (s.Refused? && s.reply.status == 401 ==>
            body.Some? && Truthy(body.value.pushToken) && Truthy(body.value.content)
            && Owner(creds, body.value.pushToken.value).None?)
      && (s.Refused? && s.reply.body == Error(WEBHOOK_REQUIRED) ==>
            body.Some? && Owner(creds, body.value.pushToken.value).Some?
            && IconAcceptable(FrontMatter.HeaderOf(Trim(body.value.content.value)), parseUrl))
      && (s.Admitted? ==>
            && s.user in creds && Rejection(s.header, parseUrl).None?
            && (IsApproval(s.header) ==> Truthy(Lookup(s.header, "webhook_url"))))
  {
  }
}
