/**
 * The records of the relational store (one datatype per table row) and the
 * store itself: one object whose tables the services read and rewrite, plus
 * the key-value namespace that holds the temporary approval tokens.
 * Timestamps are milliseconds since the epoch.
 */
module Store {
  import opened Common

  datatype ApprovalState = Pending | Approved | Rejected

  /** The text the state has in rows, in JSON and in requests. */
  function StateName(s: ApprovalState): string
  {
    match s
    case Pending => "pending"
    case Approved => "approved"
    case Rejected => "rejected"
  }

  datatype ApprovalProcess = ApprovalProcess(
    id: string,
    notificationId: string,
    webhookUrl: string,
    userEmail: string,
    state: ApprovalState,
    createdAt: int,
    updatedAt: int)

  datatype Notification = Notification(
    id: string,
    content: string,
    title: Option<string>,
    category: Option<string>,
    group: Option<string>,
    userEmail: string,
    iconUrl: Option<string>,
    notificationType: Option<string>,
    createdAt: int,
    updatedAt: int)

  datatype Subscription = Subscription(
    id: string,
    userEmail: string,
    deviceFingerprint: string,
    subscription: string,
    createdAt: int,
    updatedAt: int)

  datatype UserCredentials = UserCredentials(
    id: string,
    email: string,
    publicKey: string,
    privateKey: string,
    pushToken: string,
    createdAt: int,
    updatedAt: int)

  datatype ApiToken = ApiToken(
    id: string,
    userEmail: string,
    token: string,
    name: string,
    expiresAt: Option<int>)

  /** A value of the KV namespace and the time (ms) from which reads no
      longer see it. */
  datatype KvEntry = KvEntry(value: string, expiresAt: int)

  /** The `expirationTtl` of the temporary approval token: 300 seconds. */
  const TOKEN_TTL_MS := 300 * 1000

  /** `KV.get(key)` at time `now`: the stored value until it expires, then `null`. */
  function KvGet(kv: map<string, KvEntry>, key: string, now: int): (r: Option<string>)
    ensures r.Some? <==> key in kv && now < kv[key].expiresAt
    ensures r.Some? ==> r.value == kv[key].value
  {
    if key in kv && now < kv[key].expiresAt then Some(kv[key].value) else None
  }

  /** The key under which the temporary token of an approval is kept. */
  function ApprovalTokenKey(approvalId: string): string
  {
    "approval_token:" + approvalId
  }

  class Database {
    var userCredentials: seq<UserCredentials>
    var pushNotifications: seq<Notification>
    var subscriptions: seq<Subscription>
    var approvalProcesses: seq<ApprovalProcess>
    var apiTokens: seq<ApiToken>
    /** The KV namespace; each entry carries the end of its time to live. */
    var kv: map<string, KvEntry>

    constructor ()
      ensures userCredentials == [] && pushNotifications == [] && subscriptions == []
      ensures approvalProcesses == [] && apiTokens == [] && kv == map[]
    {
      userCredentials, pushNotifications, subscriptions := [], [], [];
      approvalProcesses, apiTokens, kv := [], [], map[];
    }
  }
}
