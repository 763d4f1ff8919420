/**
 * The service worker's decisions: how a received push is shown (body, icon,
 * actions, the data kept for a click), what a click does (approve or reject
 * directly with the temporary token while it is fresh, otherwise open the
 * application with query parameters), the request the direct update sends,
 * and the byte conversion of decoded base64 text.  Decryption, `JSON.parse`,
 * `atob`, the clock and the outcome of `fetch` are inputs.
 */
module ServiceWorker {
  import opened Common
  import opened Store
  import opened Text
  import Json
  import Approval
  import Push

  /** The temporary token's lifetime, and how long before its end a click
      stops using it. */
  const TOKEN_TTL := 5 * 60 * 1000
  const TOKEN_EXPIRY_THRESHOLD := 30 * 1000
  const DEFAULT_ICON := "/icon.png"
  const ENCRYPTED_FALLBACK := "This is an encrypted notification. Please click the notification to view the details."
  const APPROVAL_TYPE := "approval-process"
  const ENCRYPTED_TYPE := "encrypted"

  /** A button on the shown notification. */
  datatype NotificationAction = NotificationAction(action: string, title: string)

  const APPROVAL_ACTIONS := [NotificationAction("reject", "Reject"), NotificationAction("approve", "Approve")]
  const DETAIL_ACTIONS := [NotificationAction("detail", "View Details")]

  /** `options.data`: the fields of the push kept for a click; `None` is
      `undefined`. */
  datatype ClickData = ClickData(
    id: Option<Json.Json>,
    category: Option<Json.Json>,
    group: Option<Json.Json>,
    notificationType: Option<Json.Json>,
    approvalId: Option<Json.Json>,
    createdAt: Option<Json.Json>,
    tempAccessToken: Option<Json.Json>)

  /** The arguments of `showNotification`. */
  datatype Shown = Shown(title: Option<Json.Json>, body: Option<Json.Json>, icon: Json.Json,
                         data: ClickData, actions: seq<NotificationAction>)

  /** The `fetch` of `updateApprovalState`: a `POST` to `/api/approval` with
      this `Authorization` header and JSON body. */
  datatype ApprovalCall = ApprovalCall(authorization: string, body: Json.Json)

  /** What a click ends in: a direct update that succeeded and closed the
      notification, one that failed and opened the page instead, or the page
      opened (and the notification closed) without one.  The page is always
      `/` with the listed query parameters. */
  datatype ClickOutcome =
    | Updated(call: ApprovalCall)
    | UpdateFailed(call: ApprovalCall, params: seq<(string, string)>)
    | Opened(params: seq<(string, string)>)

  /** `obj[key]` on a parsed JSON value: the last member with that key (as
      `JSON.parse` keeps the last duplicate), `undefined` for a missing key
      or a value that is not an object. */
  function Field(j: Json.Json, key: string): Option<Json.Json>
  {
    if j.JObj? then LastValue(j.members, key) else None
  }

  function LastValue(members: seq<Json.Member>, key: string): (r: Option<Json.Json>)
    ensures r.None? <==> forall i :: 0 <= i < |members| ==> members[i].key != key
  {
    if members == [] then None
    else if members[|members| - 1].key == key then Some(members[|members| - 1].value)
    else LastValue(members[..|members| - 1], key)
  }

  /** JavaScript truthiness of a JSON value (or `undefined`). */
  predicate JsTruthy(v: Option<Json.Json>)
  {
    match v
    case None => false
    case Some(j) =>
      match j
      case JNull => false
      case JBool(b) => b
      case JNum(n) => n != 0
      case JStr(s) => s != ""
      case _ => true
  }

  /** `String(v)`, as `URLSearchParams.set` and template literals apply it. */
  function JsText(v: Option<Json.Json>): string
  {
    match v
    case None => "undefined"
    case Some(j) => JsonText(j)
  }

  function JsonText(j: Json.Json): string
    decreases j
  {
    match j
    case JNull => "null"
    case JBool(b) => if b then "true" else "false"
    case JNum(n) => IntToString(n)
    case JStr(s) => s
    case JObj(_) => "[object Object]"
    case JArr(items) =>
      Join(seq(|items|, i requires 0 <= i < |items| => if items[i].JNull? then "" else JsonText(items[i])), ",")
  }

  /** `Number(v)` for the values a push carries as `createdAt`; `None` is `NaN`. */
  function JsNumber(v: Option<Json.Json>): Option<int>
  {
    match v
    case Some(JNum(n)) => Some(n)
    case Some(JNull) => Some(0)
    case _ => None
  }

  /** The body of an encrypted push: the decrypted text when the payload's
      `extraInfo` parses to something with a truthy `nonce` and decryption
      succeeds, the fixed fallback text otherwise. */
  function EncryptedBody(data: Json.Json, parse: string -> Option<Json.Json>,
                         decrypt: (Option<Json.Json>, Json.Json) -> Option<string>): (body: string)
    ensures body == ENCRYPTED_FALLBACK || exists nonce :: decrypt(Field(data, "content"), nonce) == Some(body)
  {
    var extraInfo := if JsTruthy(Field(data, "extraInfo")) then parse(JsText(Field(data, "extraInfo"))) else Some(Json.JObj([]));
    if extraInfo.None? || extraInfo.value.JNull? then ENCRYPTED_FALLBACK
    else
      var nonce := Field(extraInfo.value, "nonce");
      if !JsTruthy(nonce) then ENCRYPTED_FALLBACK
      else match decrypt(Field(data, "content"), nonce.value)
        case None => ENCRYPTED_FALLBACK
        case Some(text) => text
  }

  /** The `push` handler: what is shown for a payload. */
  function PushOptions(data: Json.Json, parse: string -> Option<Json.Json>,
                       decrypt: (Option<Json.Json>, Json.Json) -> Option<string>): (r: Shown)
    ensures r.actions == if Field(data, "type") == Some(Json.JStr(APPROVAL_TYPE)) then APPROVAL_ACTIONS else DETAIL_ACTIONS
    ensures r.icon == if JsTruthy(Field(data, "iconUrl")) then Field(data, "iconUrl").value else Json.JStr(DEFAULT_ICON)
    ensures Field(data, "type") != Some(Json.JStr(ENCRYPTED_TYPE)) ==> r.body == Field(data, "body")
    ensures r.data.tempAccessToken == Field(data, "tempAccessToken") && r.data.approvalId == Field(data, "approvalId")
  {
    var icon := if JsTruthy(Field(data, "iconUrl")) then Field(data, "iconUrl").value else Json.JStr(DEFAULT_ICON);
    var clickData := ClickData(Field(data, "id"), Field(data, "category"), Field(data, "group"), Field(data, "type"),
                               Field(data, "approvalId"), Field(data, "createdAt"), Field(data, "tempAccessToken"));
    var body := if Field(data, "type") == Some(Json.JStr(ENCRYPTED_TYPE))
                then Some(Json.JStr(EncryptedBody(data, parse, decrypt)))
                else Field(data, "body");
    var actions := if Field(data, "type") == Some(Json.JStr(APPROVAL_TYPE)) then APPROVAL_ACTIONS else DETAIL_ACTIONS;
    Shown(Field(data, "title"), body, icon, clickData, actions)
  }

  /** The state a click action asks for: `approved` for `approve`, and
      `rejected` for anything else. */
  function ActionState(action: string): (state: string)
    ensures state == "approved" <==> action == "approve"
    ensures state == "approved" || state == "rejected"
  {
    if action == "approve" then "approved" else "rejected"
  }

  /** `updateApprovalState`: the request it sends (a non-ok answer makes it
      throw). */
  function UpdateApprovalState(approvalId: Option<Json.Json>, action: string, token: Option<Json.Json>): (call: ApprovalCall)
    ensures call.authorization == "Bearer " + JsText(token)
    ensures Field(call.body, "state") == Some(Json.JStr(ActionState(action)))
    ensures Field(call.body, "approvalId") == approvalId
  {
    var idMember := if approvalId.Some? then [Json.Member("approvalId", approvalId.value)] else [];
    var members := idMember + [Json.Member("state", Json.JStr(ActionState(action)))];
    assert LastValue(members[..|members| - 1], "approvalId") == approvalId;
    ApprovalCall("Bearer " + JsText(token), Json.JObj(members))
  }

  /** Whether a click approves or rejects directly: an approval, a known
      creation time less than 270 s ago, and one of the two decision buttons. */
  predicate DirectUpdate(data: ClickData, action: string, now: int)
  {
    && data.notificationType == Some(Json.JStr(APPROVAL_TYPE))
    && JsNumber(data.createdAt).Some?
    && now - JsNumber(data.createdAt).value < TOKEN_TTL - TOKEN_EXPIRY_THRESHOLD
    && (action == "approve" || action == "reject")
  }

  /** The query parameters of the page a click opens. */
  function OpenParams(data: ClickData, action: string): seq<(string, string)>
  {
    (if data.notificationType == Some(Json.JStr(APPROVAL_TYPE))
     then [("approvalId", JsText(data.approvalId)), ("action", action)] else [])
    + (if action == "detail" || action == ""
       then [("notificationId", JsText(data.id)), ("category", JsText(data.category)), ("group", JsText(data.group))]
       else [])
  }

  /** The `notificationclick` handler.  `updateOk` is whether the direct
      update's `fetch` answered ok. */
  function Click(data: ClickData, action: string, now: int, updateOk: bool): (r: ClickOutcome)
    ensures DirectUpdate(data, action, now) <==> !r.Opened?
    ensures !r.Opened? ==> r.call == UpdateApprovalState(data.approvalId, action, data.tempAccessToken)
    ensures r.UpdateFailed? ==> !updateOk && r.params == [("approvalId", JsText(data.approvalId)), ("action", action)]
    ensures r.Updated? ==> updateOk
    ensures r.Opened? ==> r.params == OpenParams(data, action)
  {
    if DirectUpdate(data, action, now) then
      var call := UpdateApprovalState(data.approvalId, action, data.tempAccessToken);
      if updateOk then Updated(call)
      else UpdateFailed(call, [("approvalId", JsText(data.approvalId)), ("action", action)])
    else
      Opened(OpenParams(data, action))
  }

  /** `base64ToUint8Array`: one byte per character of the decoded text, the
      character code reduced modulo 256 as a `Uint8Array` stores it. */
  method Base64ToUint8Array(base64: string, atob: string -> string) returns (bytes: array<Byte>)
    ensures fresh(bytes)
    ensures bytes.Length == |atob(base64)|
    ensures forall i :: 0 <= i < bytes.Length ==> bytes[i] as int == atob(base64)[i] as int % 256
  {
    var binaryString := atob(base64);
    var len := |binaryString|;
    bytes := new Byte[len];
    var i := 0;
    while i < len
      invariant 0 <= i <= len
      invariant forall k :: 0 <= k < i ==> bytes[k] as int == binaryString[k] as int % 256
    {
      bytes[i] := (binaryString[i] as int % 256) as Byte;
      i := i + 1;
    }
  }

  // ------------------------------------------------------------- properties

  /** The direct update is exactly the request the approval endpoint accepts
      through its token path: the bearer value is the token the push carried,
      and the body names the approval and the state the button stands for. */
  lemma DirectUpdateIsAccepted(approvalId: string, token: string, action: string)
    requires approvalId != "" && (action == "approve" || action == "reject")
    ensures var call := UpdateApprovalState(Some(Json.JStr(approvalId)), action, Some(Json.JStr(token)));
      && Approval.BearerToken(Some(call.authorization)) == Some(token)
      && Approval.Requested(Approval.ResolveRequest(Some(approvalId), Some(ActionState(action))))
         == Some((approvalId, if action == "approve" then Approved else Rejected))
  {
    Approval.BearerRoundTrip(token);
  }

  /** A click that is not a direct update never sends a request, and a page
      opened for a detail click of a plain notification names it. */
  lemma DetailClickNamesNotification(data: ClickData, now: int, updateOk: bool)
    requires data.notificationType != Some(Json.JStr(APPROVAL_TYPE))
    ensures Click(data, "detail", now, updateOk)
      == Opened([("notificationId", JsText(data.id)), ("category", JsText(data.category)), ("group", JsText(data.group))])
  {
  }

  /** Past the window, even a decision button only opens the page, with the
      decision in the query. */
  lemma LateDecisionOpensPage(data: ClickData, action: string, now: int, updateOk: bool)
    requires data.notificationType == Some(Json.JStr(APPROVAL_TYPE))
    requires action == "approve" || action == "reject"
    requires JsNumber(data.createdAt).Some? && now - JsNumber(data.createdAt).value >= 270000
    ensures Click(data, action, now, updateOk) == Opened([("approvalId", JsText(data.approvalId)), ("action", action)])
  {
  }

  /** The last value under a key when a later member never reuses it. */
  lemma {:induction false} LastValueAt(members: seq<Json.Member>, key: string, k: nat)
    requires k < |members| && members[k].key == key
    requires forall i :: k < i < |members| ==> members[i].key != key
    ensures LastValue(members, key) == Some(members[k].value)
  {
    if k != |members| - 1 {
      LastValueAt(members[..|members| - 1], key, k);
    }
  }

  /** The server's push message for an approval is shown with the reject
      and approve buttons and keeps the temporary token for the click; any
      other message gets the single detail button. */
  lemma ServerMessageActions(n: Notification, approval: bool, issued: Push.Fresh, now: int,
                             parse: string -> Option<Json.Json>,
                             decrypt: (Option<Json.Json>, Json.Json) -> Option<string>)
    requires approval <==> n.notificationType == Some(APPROVAL_TYPE)
    ensures var shown := PushOptions(Push.Message(n, approval, issued, now), parse, decrypt);
      && shown.actions == (if approval then APPROVAL_ACTIONS else DETAIL_ACTIONS)
      && (approval ==> shown.data.tempAccessToken == Some(Json.JStr(issued.tempToken)))
  {
    var m := Push.Message(n, approval, issued, now);
    var ms := m.members;
    assert ms[6] == Json.Member("type", Push.Nullable(n.notificationType));
    forall i | 6 < i < |ms| ensures ms[i].key != "type" { }
    LastValueAt(ms, "type", 6);
    if approval {
      assert ms[9] == Json.Member("tempAccessToken", Json.JStr(issued.tempToken));
      forall i | 9 < i < |ms| ensures ms[i].key != "tempAccessToken" { }
      LastValueAt(ms, "tempAccessToken", 9);
    }
  }

  /** The server never puts `extraInfo` in a push message, so an encrypted
      notification it sends is always shown with the fallback text, whatever
      the decryption would have given. */
  lemma EncryptedServerMessageShowsFallback(n: Notification, approval: bool, issued: Push.Fresh, now: int,
                                            parse: string -> Option<Json.Json>,
                                            decrypt: (Option<Json.Json>, Json.Json) -> Option<string>)
    requires !approval && n.notificationType == Some(ENCRYPTED_TYPE)
    ensures PushOptions(Push.Message(n, approval, issued, now), parse, decrypt).body == Some(Json.JStr(ENCRYPTED_FALLBACK))
  {
    var m := Push.Message(n, approval, issued, now);
    var ms := m.members;
    assert forall i :: 0 <= i < |ms| ==> ms[i].key != "extraInfo";
    assert ms[6] == Json.Member("type", Push.Nullable(n.notificationType));
    LastValueAt(ms, "type", 6);
  }
}
