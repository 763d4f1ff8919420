# alphapush in Dafny

A model of the server side of alphapush, a Web Push notification service
with an approval workflow, together with the decision logic of its service
worker. A client that holds a user's push token publishes Markdown content
with an optional front-matter header. The server stores the notification and
sends it to every subscribed device of the user. It removes the
subscriptions the push service reports as gone and tells the user's open
pages over Server-Sent Events.

A notification of type `approval-process` also creates a pending approval
and a temporary token. The approval is resolved once, to `approved` or
`rejected`, by the token holder or by the owner's session. The resolution
is reported to the approval's webhook.

Around this core sit the subscription table, the SSRF hostname classifier,
API tokens, push tokens, VAPID credentials, the notification listing and
the base64url helpers.

The store is one `Store.Database` object. Each table is a sequence of rows
in insertion order. `.get()` is the first matching row, `.all()` is the
matching rows in table order, and `update`/`delete` touch every matching
row. The key-value namespace of temporary tokens is a map field whose
entries carry their expiry: the token is written with a 300-second time to
live, and a read sees it only until then.

Handlers and services are methods on the store. Each states the reply it
produces and the whole new state of the tables it may modify. Pure rules
(the front-matter reader, the classifier, masking, paging, the service
worker's decisions) are functions.

Everything outside the process is an input:

- the session;
- the parsed request body;
- the clock and fresh ids;
- the URL parser and `JSON.parse` success;
- the push service's and webhook's answers;
- the live connections' write results;
- the store failures the code swallows (the push-token lookup, the removal of a stale subscription);
- the SHA-256 digest, the standard base64 codec and random picks;
- decryption.

Timestamps are milliseconds since the epoch.

Some choices of the code that a reader might not expect, which the model
follows as written:

- The approval handler persists the new state *before* calling the webhook,
  so a failed webhook leaves the approval resolved.
- It never deletes the temporary token.
- The publish handler does not call the SSRF classifier on `webhook_url`.
- The schema file lacks `iconUrl`, `type`, the approval table and the API
  token table. The model keeps the columns the code writes.

Some behaviours of the code that the model reproduces and states as lemmas:

- `createToken` hands out the stored digest, while `validateToken` digests
  its input again. The value a user receives therefore does not find its
  own row (`ApiTokenService.IssuedTokenIsNotItsOwnKey`).
- The server never sends `extraInfo` in a push message, so an encrypted
  notification is always shown with the fallback text
  (`ServiceWorker.EncryptedServerMessageShowsFallback`).
- The IPv6 loopback `::1` is not one of the eight-group forms the classifier
  recognises, so it is not local (`Network.IPv6LoopbackNotLocal`).
- On a reconnect, the stream handler closes the superseded writer only when
  that writer's `closed` promise rejects, that is, only once its stream has
  errored. A superseded stream that is still open is dropped from the
  registry without being closed (`Stream.SupersededOpenWriterIsOrphaned`).
  `cleanup` closes its own writer under the same condition.
- An `Authorization` header without `Bearer ` is used whole as the token
  (`Approval.BearerToken`).

## Model

| member | source | states |
|---|---|---|
| FrontMatter.ParseMarkdownHeader | src/pages/api/push.ts:20-37 | the result is the field map of the header block, or empty when the trimmed content does not open with a `---` line closed by a later `---` line |
| FrontMatter.MatchHeader | src/pages/api/push.ts:22 | a match starts with `---`, then only whitespace up to the newline that opens the captured text, which ends at a newline followed by whitespace and `---`, with no earlier closing inside it |
| FrontMatter.LineField | src/pages/api/push.ts:30-33 | a line contributes a field only under a non-empty key other than `__proto__`, which a plain object ignores |
| FrontMatter.AssignLines | src/pages/api/push.ts:28-34 | the loop over the header lines yields the fields of their contributions applied in order |
| FrontMatter.LastLineWins | src/pages/api/push.ts:28-34 | the last line contributing a key decides its value; later duplicates overwrite earlier ones |
| FrontMatter.FieldFromLine | src/pages/api/push.ts:28-34 | every field of the result is the contribution of some header line |
| FrontMatter.LineKey | src/pages/api/push.ts:29-33 | a line that contributes a field holds a `:`; its key is exactly the trimmed text before the first `:`, is non-empty, holds no `:` and has no whitespace at either end |
| FrontMatter.LineValue | src/pages/api/push.ts:29-33 | the value a line contributes is the text after its first `:`, split on `:`, each piece trimmed, rejoined with `:` and trimmed |
| FrontMatter.ValueKeepsColons | src/pages/api/push.ts:29-33 | a value with no whitespace after the first `:`, such as an `https://` URL, is kept whole, colons included |
| FrontMatter.HeaderKeys | src/pages/api/push.ts:28-34 | every key is non-empty, holds no `:` and has no surrounding whitespace |
| FrontMatter.StrictClosing | src/pages/api/push.ts:22-65 | wherever the stripping pattern closes, the parsing pattern closes too |
| FrontMatter.HeaderKeptWithoutBreak | src/pages/api/push.ts:22-65 | when the reading pattern matches but no line break follows its closing `---` (a header-only message), the header text is read and the cutting pattern does not match, so the content is the whole trimmed message |
| FrontMatter.StripHeader | src/pages/api/push.ts:65 | the content is no longer than the input and is already trimmed; without a header block it is the trimmed input |
| Push.Topic | src/pages/api/push.ts:186-188 | the topic is never empty; `Default` stands in |
| Push.Rejection | src/pages/api/push.ts:67-104 | no rejection iff the icon is absent, empty or an `https:` URL and an approval has a `webhook_url`; the icon is checked first |
| Push.ScreenOrder | src/pages/api/push.ts:45-104 | the checks come in the code's order: body, push token, icon, webhook |
| Push.Screen | src/pages/api/push.ts:45-104 | a request is admitted iff its body has a push token and content, the token belongs to a user and the header passes; it then carries that user, the header and the content without it; a refusal is 400, 401 or 500 |
| Push.NewNotification | src/pages/api/push.ts:84-92 | the stored row carries the given id, owner and content |
| Push.Message | src/pages/api/push.ts:159-171 | the push message is an object with the content as `body`, and holds the temporary token iff the notification is an approval |
| Push.EventData | src/pages/api/push.ts:213-217 | the live event holds the approval id iff the notification is an approval |
| Push.Requests | src/pages/api/push.ts:185-189 | one send per subscription, in order, each with the message, a TTL of 60, the topic and `normal` urgency |
| Push.Attempted | src/pages/api/push.ts:181-183 | the sends reach every subscription up to the first whose stored text is not JSON |
| Push.Post | src/pages/api/push.ts:41-256 | a refused request changes nothing and sends nothing; otherwise the rows are stored, a message over 4096 bytes gets 400 before any send, every reached subscription is sent to, the gone ones are removed, the open pages are told, and the answer lists the failures or confirms |
| Push.Publish | src/pages/api/push.ts:106-249 | the same effects for a request that passed the checks |
| Push.Persist | src/pages/api/push.ts:106-131 | the notification row is appended; for an approval, one pending approval row and the temporary token under `approval_token:<id>`, expiring 300 seconds after `now` |
| Push.FanOut | src/pages/api/push.ts:181-201 | the loop records exactly the failures and the 410 ids of the subscriptions it reaches, in order |
| Push.RemoveExpired | src/pages/api/push.ts:204-211 | each queued id is deleted in turn; a failed deletion is skipped |
| Push.FailuresAreFailingOnes | src/pages/api/push.ts:190-196 | each failing subscription is recorded exactly once, in table order, with its reason; the delivered ones are not |
| Push.ExpiredAreGoneOnes | src/pages/api/push.ts:197-199 | the queued ids are exactly the ids of the subscriptions answered with 410, in table order |
| Push.ExpiredAreFailed | src/pages/api/push.ts:190-199 | every queued id is a recorded failure |
| Push.NoFailuresIffAllDelivered | src/pages/api/push.ts:219-249 | the answer is `success: true` iff every reached send was delivered |
| Push.RemovalPass | src/pages/api/push.ts:204-211 | after the pass, no queued id whose deletion succeeded remains, unqueued rows are kept, and no row is added |
| Approval.Requested | src/pages/api/approval.ts:13-18 | a request is accepted iff it has a non-empty id and a state of `approved` or `rejected` |
| Approval.SessionAccess | src/pages/api/approval.ts:34-54 | no session gives 401; an absent approval or one of another user gives 404 |
| Approval.Authorize | src/pages/api/approval.ts:20-54 | the token path (a bearer value equal to the stored token while it has not expired) first, then the session path |
| Approval.StatePayload | src/pages/api/approval.ts:88-92 | the payload is exactly `{notificationId, approvalId, state}` of the updated record |
| Approval.Post | src/pages/api/approval.ts:11-133 | 500 for a body that is not JSON and 400 for invalid input, with no webhook call and the table unchanged; 401 or 404 from the access check, 404 for a missing row and 400 for a non-pending one, likewise; otherwise the state is persisted before the webhook, a failed webhook gives 500 with the state already stored, and the live event goes out only on the session path; the token store never changes |
| Approval.CheckAccess | src/pages/api/approval.ts:20-61 | the access decision equals `Authorize` over the stored, unexpired token and the rows |
| Approval.Resolve | src/pages/api/approval.ts:63-125 | a missing approval gives 404 and a non-pending one 400, both with no webhook call and the table unchanged; otherwise its state and update time change, then the webhook is called |
| Approval.BearerRoundTrip | src/pages/api/approval.ts:24 | `Bearer <token>` reads back as `<token>` |
| Approval.WrongTokenFallsThrough | src/pages/api/approval.ts:24-34 | a token that does not match is the same as no token |
| Approval.TokenIgnoresSession | src/pages/api/approval.ts:24-31 | the token path does not depend on the session or the owner |
| Approval.NoTokenOnlyOwner | src/pages/api/approval.ts:34-54 | without a stored token only the owner's session gets in |
| Approval.TokenLivesFiveMinutes | src/pages/api/approval.ts:24-31 | the token a push stores opens the token path for 300 seconds after it is written, and from then on only the session path is left |
| Approval.BearerToken | src/pages/api/approval.ts:24 | no header gives no token; a header holding no `Bearer ` is the token as it is; otherwise the token is the header with 7 characters fewer |
| Store.KvGet | src/pages/api/approval.ts:27 | `KV.get` returns the stored value while its time to live lasts, and null afterwards or for a missing key |
| ApprovalProcessService.NewProcess | src/services/approvalProcessService.ts:21-30 | a new approval is pending and holds the given user, notification and webhook |
| ApprovalProcessService.AddApprovalProcess | src/services/approvalProcessService.ts:16-37 | one pending row is appended and returned |
| ApprovalProcessService.GetApprovalProcessById | src/services/approvalProcessService.ts:95-104 | read-only; the first row with that id or none |
| ApprovalProcessService.GetApprovalProcessByNotificationId | src/services/approvalProcessService.ts:80-93 | read-only; the first row of that notification in table order (what `.get()` returns), so a returned row is a stored row of that notification; none iff no row has that notification |
| ApprovalProcessService.UpdateApprovalProcessState | src/services/approvalProcessService.ts:39-63 | throws for an unknown id or a non-pending row, changing nothing; otherwise sets the state and update time |
| ApprovalProcessService.WithState | src/services/approvalProcessService.ts:51-56 | only the rows with that id change |
| ApprovalProcessService.FirstAfterUpdate | src/services/approvalProcessService.ts:51-60 | the returned row is the found row with the new state and time |
| ApprovalProcessService.ResolvedIsFinal | src/services/approvalProcessService.ts:47-56 | after an update, the row an update looks up holds the new state, so it is no longer pending |
| ApprovalProcessService.UpdateTwice | src/services/approvalProcessService.ts:39-63 | when a first update succeeds, a second one throws `Cannot update a non-pending approval process` and the table stays as the first left it; when the first throws, the second throws the same and nothing changes |
| ApprovalProcessService.UpdateKeepsRecord | src/services/approvalProcessService.ts:51-56 | an update keeps every row's id, owner, notification, webhook and creation time |
| ApprovalProcessService.DeleteApprovalProcessByNotificationId | src/services/approvalProcessService.ts:65-78 | every row of that notification goes, the others stay in order |
| ApprovalProcessService.DeleteRemovesOnlyThatNotification | src/services/approvalProcessService.ts:67-70 | exactly that notification's rows are removed |
| Stream.Registered | src/pages/api/stream.ts:64-83 | connecting gives the device the new writer, adds the user when absent, and leaves every other entry as it was |
| Stream.Removed | src/pages/api/stream.ts:89-95 | the device's entry goes, the user's entry goes once it is empty, and no other entry changes |
| Stream.Evicted | src/pages/api/stream.ts:15-21 | a broadcast keeps exactly the devices whose write succeeded |
| Stream.Registry.SendSSEvent | src/pages/api/stream.ts:10-23 | nothing happens for an unknown user; otherwise one frame goes to each device, and the failed devices lose their entries and their writers are closed, while an emptied user entry stays |
| Stream.Registry.WriteAll | src/pages/api/stream.ts:15-21 | every device gets the frame exactly once |
| Stream.Registry.Register | src/pages/api/stream.ts:64-85 | the device holds the new writer; the superseded writer is closed only when its `closed` promise rejects; `connected` is written to the new writer |
| Stream.Registry.Cleanup | src/pages/api/stream.ts:87-108 | the device entry goes, and the user entry when it becomes empty; the connection's writer is closed exactly when its `closed` promise rejects; nothing is written |
| Stream.ClosedIfRejected | src/pages/api/stream.ts:96-107 | a writer is closed exactly when its `closed` promise rejects, and no other writer is |
| Stream.SupersededOpenWriterIsOrphaned | src/pages/api/stream.ts:69-83 | a reconnect while the old stream is open leaves the old writer in no entry and not closed |
| Stream.Get | src/pages/api/stream.ts:25-85 | 401 without a session; 400 without a fingerprint or for one of another user's subscription, with the registry unchanged; otherwise the writer is registered, `connected` is written, and the superseded writer is closed only when its `closed` promise rejects |
| Stream.CleanupIdempotent | src/pages/api/stream.ts:89-95 | cleaning up twice is cleaning up once |
| Stream.CleanupAbsentDevice | src/pages/api/stream.ts:89-95 | cleaning up an absent device changes nothing |
| Stream.ReconnectSupersedes | src/pages/api/stream.ts:64-83 | after a reconnect the device has exactly one entry, the new writer; others are untouched |
| Stream.StaleCleanupRemovesNewerWriter | src/pages/api/stream.ts:83-95 | the superseded connection's cleanup also removes the newer writer |
| Stream.FrameLines | src/pages/api/stream.ts:13 | a frame reads back as exactly the event and data fields of one event |
| Stream.JsonFrameLines | src/pages/api/stream.ts:13 | JSON data never breaks the frame |
| SubscriptionApi.Put | src/pages/api/subscription.ts:13-91 | 401, 500, then 400 for bad data or fingerprint, with the table unchanged; a request passing every check gets 200, updating the device's rows, or 201, appending one row |
| SubscriptionApi.IsValidSHA256 | src/pages/api/subscription.ts:8-11 | `/^[a-f0-9]{64}$/i`: exactly 64 characters, each a hexadecimal digit of either case; a text that passes is ASCII and so 64 bytes long |
| SubscriptionApi.FingerprintCaseInsensitive | src/pages/api/subscription.ts:8-11 | `isValidSHA256` accepts 64 hexadecimal digits in either letter case: a text passes iff its lowercase form does |
| SubscriptionApi.Delete | src/pages/api/subscription.ts:93-151 | 401, 500, 400 missing or invalid fingerprint; 404 when the device has no row; otherwise exactly its rows go |
| SubscriptionApi.UpsertKeepsKeysUnique | src/pages/api/subscription.ts:44-83 | an upsert never duplicates a (user, fingerprint) pair and leaves one row with the new text |
| SubscriptionApi.UpsertKeepsOtherRows | src/pages/api/subscription.ts:47-54 | rows of other users or devices stay in place |
| SubscriptionApi.DeleteRemovesOnlyThatDevice | src/pages/api/subscription.ts:124-128 | exactly the (user, fingerprint) rows are removed |
| SubscriptionService.DeleteSubscriptionById | src/services/subscriptionService.ts:13-26 | true iff a row with that id existed and the call succeeded; afterwards no such row remains; a failure changes nothing and gives false |
| SubscriptionService.WithoutId | src/services/subscriptionService.ts:15-19 | no row with the id remains and every other row is kept |
| SubscriptionService.WithoutIdIdempotent | src/services/subscriptionService.ts:15-19 | deleting an id twice is deleting it once |
| SubscriptionService.WithoutIdKeepsOthers | src/services/subscriptionService.ts:17 | rows with other ids are unchanged, in order |
| Network.DottedQuad | src/utils/network.ts:25-41 | a dotted quad is local iff its first group is 10 or 127, or it starts 192.168, 169.254 or 172.N with 16 ≤ N ≤ 31 |
| Network.LocalhostAnyCase | src/utils/network.ts:16-18 | `localhost` in any letter case is local |
| Network.OnlyAddressesAreLocal | src/utils/network.ts:6-64 | an unparsable URL, an empty hostname and a hostname that is neither localhost nor an address form are not local |
| Network.IsLocalNetworkUrl | src/utils/network.ts:6-64 | a local URL parses, and its hostname is non-empty and is `localhost` or an address form |
| Network.IsIPAddress | src/utils/network.ts:71-78 | an address form holds only hexadecimal digits, `.` and `:`, and never both `.` and `:` |
| Network.IPv4Alphabet | src/utils/network.ts:73 | a dotted quad holds only digits and dots |
| Network.IPv6Alphabet | src/utils/network.ts:75 | an eight-group IPv6 form holds only hexadecimal digits and colons |
| Network.IPv6Prefixes | src/utils/network.ts:49-56 | eight-group addresses starting `fc`, `fd` or `fe80:` are local |
| Network.IPv6LoopbackNotLocal | src/utils/network.ts:44-46 | `::1` is not an eight-group form, so it is not local |
| Network.ParseDigits | src/utils/network.ts:27 | `parseInt` of a digit run is its decimal value |
| Base64.Substitute | src/utils/base64.ts:4 | every occurrence of the character is replaced and nothing else changes |
| Base64.StripPadding | src/utils/base64.ts:8 | the whole trailing run of `=` is removed and nothing more |
| Base64.EncodeBase64Url | src/utils/base64.ts:7-9 | the result has no `+`, no `/` and no trailing `=` |
| Base64.StandardAfterDecodeSide | src/utils/base64.ts:4 | the decoder is given no `-` or `_`; other characters pass unchanged |
| Base64.DecodeBase64Url | src/utils/base64.ts:3-5 | the standard codec is handed text with `-` turned into `+` and `_` into `/`, so it never sees `-` or `_`; text already in the standard alphabet reaches it unchanged |
| Base64.DecodeReadsBothAlphabets | src/utils/base64.ts:3-5 | `decodeBase64Url` decodes the URL-safe and the standard spelling of a text alike, and passes standard-alphabet text to the codec unchanged |
| Base64.AlphabetRoundTrip | src/utils/base64.ts:3-9 | on standard-alphabet text the decode-side substitution undoes the encode-side one |
| Base64.EncodeDecode | src/utils/base64.ts:3-9 | decoding an encoding gives the codec its own output minus the padding, hence the bytes back when the codec accepts unpadded text |
| ApiTokenService.Hex | src/services/apiTokenService.ts:11-12 | two characters per byte, each pair the byte's hex rendering |
| ApiTokenService.DigestIsSha256Text | src/services/apiTokenService.ts:8-13 | 32 digest bytes give 64 lowercase hexadecimal digits |
| ApiTokenService.Sha256 | src/services/apiTokenService.ts:8-13 | two characters per digest byte; a 32-byte digest gives 64 lowercase hexadecimal digits, a valid fingerprint text |
| ApiTokenService.HexInjective | src/services/apiTokenService.ts:12 | different digests give different texts |
| ApiTokenService.CreateToken | src/services/apiTokenService.ts:22-33 | the digest of the fresh id is stored in one appended row and returned |
| ApiTokenService.RevokeToken | src/services/apiTokenService.ts:35-40 | removes the user's rows with that id and nothing else |
| ApiTokenService.RevokeRemovesOnlyThatToken | src/services/apiTokenService.ts:35-40 | no such row remains; other ids, and other users' rows with the same id, are kept |
| ApiTokenService.GetTokens | src/services/apiTokenService.ts:42-70 | the page of the user's rows from offset (page−1)·size and their count |
| ApiTokenService.InSeconds | src/services/apiTokenService.ts:66 | expiry becomes whole seconds, rounded down, or stays null; the other columns are kept |
| ApiTokenService.ValidateToken | src/services/apiTokenService.ts:72-89 | true iff the first row with the input's digest exists and is not expired; an expired one is deleted by id; otherwise nothing changes |
| ApiTokenService.ValidIffLiveRow | src/services/apiTokenService.ts:73-88 | with unique digests, valid iff some unexpired row holds the digest |
| ApiTokenService.IssuedTokenIsNotItsOwnKey | src/services/apiTokenService.ts:22-77 | the returned digest, presented again, looks up its own digest and misses its row |
| ApiTokenApi.CalculateExpiryDate | src/pages/api/api-token.ts:6-18 | 0 gives 2099-12-31; any other value below 1 gives null; otherwise now plus that many days |
| ApiTokenApi.MaskToken | src/pages/api/api-token.ts:20-24 | the length is kept; up to 8 characters are shown whole; otherwise the first and last 4 are kept and the rest are `*` |
| ApiTokenApi.MaskIdempotent | src/pages/api/api-token.ts:20-24 | masking a masked token changes nothing |
| ApiTokenApi.AcceptedExpiries | src/pages/api/api-token.ts:8-18 | an accepted period is 0 or at least one day ahead |
| ApiTokenApi.Post | src/pages/api/api-token.ts:26-71 | 401, 500, 400 without a name or for a bad period, with no row added; a request passing every check gets 201 with the stored digest, and exactly one row is appended |
| ApiTokenApi.Get | src/pages/api/api-token.ts:73-129 | 400 iff the page or size is NaN or below 1; otherwise the user's page, masked, at most size rows, with totalPages = ceil(count / size) |
| ApiTokenApi.Delete | src/pages/api/api-token.ts:131-167 | over the corrected `revokeToken` of the Findings table: 401, 400 without an id; otherwise 200 and only that token of the user goes |
| Paging.PageCount | src/pages/api/api-token.ts:100 | the fewest pages of the given size that hold all the items |
| Paging.TotalPages | src/pages/api/notifications.ts:49 | `Math.ceil(count / size)` as JSON writes it: null for size 0 |
| Paging.Window | src/pages/api/notifications.ts:38-39 | `LIMIT`/`OFFSET`: at most limit items, starting at the offset |
| Paging.EveryItemOnItsPage | src/pages/api/notifications.ts:30-49 | item k is on page k / size + 1 at position k mod size, and that page is counted |
| Paging.PagesPastTheEndAreEmpty | src/pages/api/notifications.ts:30-39 | pages past the counted ones are empty |
| Notifications.SortNewestFirst | src/pages/api/notifications.ts:37 | the rows, as a permutation, in descending creation time |
| Notifications.TiesKeepTableOrder | src/pages/api/notifications.ts:37 | two rows created at the same time come out in table order |
| Notifications.Insert | src/pages/api/notifications.ts:37 | inserting into a newest-first list keeps it newest-first and adds exactly that row |
| Notifications.Get | src/pages/api/notifications.ts:13-68 | 401 without a session; otherwise the page of the user's rows newest first, their count and the page count |
| Notifications.PageIsOwnNewestFirst | src/pages/api/notifications.ts:32-46 | a page holds only the user's rows, newest first, at most page size of them |
| Notifications.DefaultPaging | src/pages/api/notifications.ts:27-28 | absent parameters mean page 1 of 10 |
| PushTokenService.GetPushToken | src/services/pushTokenService.ts:14-27 | the token of the user's first row; null without a row or on failure |
| PushTokenService.ResetPushToken | src/services/pushTokenService.ts:29-45 | the user's rows get the new token, returned iff such a row exists; no row is created; a failure changes nothing and gives null |
| PushTokenService.RotationKeepsKeys | src/services/pushTokenService.ts:33-38 | only `pushToken` of the user's rows changes |
| PushTokenService.ReadAfterRotate | src/services/pushTokenService.ts:33-40 | the token read back after a reset is the new one |
| PushTokenApi.EnsurePushToken | src/pages/api/push-token.ts:5-14 | a stored token is returned unchanged without a reset; otherwise it resets, and a null reset throws |
| PushTokenApi.EnsureIsStable | src/pages/api/push-token.ts:5-14 | ensuring twice gives the same token |
| PushTokenApi.Get | src/pages/api/push-token.ts:16-42 | 401 with nothing changed; a stored token gives 200 with it and nothing changed; otherwise the user's rows are rotated to the new token (unless the reset fails, which changes nothing), with 200 and that token when a row existed and the token is non-empty, else 500 |
| PushTokenApi.Post | src/pages/api/push-token.ts:44-87 | 401, 500 for a bad body, 400 for any action but `reset`, with nothing changed; otherwise 200 with the new token, or 500 without a row |
| VapidHelper.LeftPad | src/utils/vapid-helper.ts:22-32 | a short key is zero-padded on the left to exactly the length; a long one is unchanged; the key is always the suffix |
| VapidHelper.PadIsIdempotent | src/utils/vapid-helper.ts:22-32 | padding gives max(length, n) bytes, and padding again changes nothing |
| VapidHelper.GenerateVapidKeys | src/utils/vapid-helper.ts:12-38 | the public key is padded to 65 bytes and the private key to 32, each then base64url-encoded |
| VapidHelper.GeneratePushToken | src/utils/vapid-helper.ts:10 | 16 characters, each an ASCII letter |
| VapidHelper.EveryLetterTokenReachable | src/utils/vapid-helper.ts:10 | every 16-letter string can be generated |
| VapidHelper.GenerateUserCredentials | src/utils/vapid-helper.ts:40-45 | the key pair plus one push token; the keys hold no `+` or `/` |
| VapidKeysApi.GetOrCreate | src/pages/api/vapid-keys.ts:22-37 | an existing row is used and nothing changes; otherwise one row from the generated credentials is appended |
| VapidKeysApi.Get | src/pages/api/vapid-keys.ts:9-50 | 401; otherwise 200 with the public key and push token only |
| VapidKeysApi.GetOrCreateIsStable | src/pages/api/vapid-keys.ts:22-39 | a second request returns the same credentials and leaves the table as it is |
| VapidKeysApi.GetOrCreateOnlyAppends | src/pages/api/vapid-keys.ts:22-37 | existing rows never change; at most one row, for that user, is added |
| ServiceWorker.PushOptions | public/sw.js:118-160 | [reject, approve] for an approval, [detail] otherwise; the icon defaults to `/icon.png`; a non-encrypted body is shown as sent |
| ServiceWorker.EncryptedBody | public/sw.js:135-148 | the decrypted text, or the fixed fallback text |
| ServiceWorker.ActionState | public/sw.js:206 | `approved` iff the action is `approve`, else `rejected` |
| ServiceWorker.UpdateApprovalState | public/sw.js:205-221 | the request carries `Bearer <token>` and the approval id and state |
| ServiceWorker.Click | public/sw.js:162-203 | a direct update happens iff approval, approve or reject, and under 270 000 ms since creation; a failed update opens the page with `approvalId` and `action`; otherwise the page opens with its parameters |
| ServiceWorker.DirectUpdateIsAccepted | public/sw.js:205-214 | the direct update is a request the approval endpoint accepts, carrying the pushed token |
| ServiceWorker.DetailClickNamesNotification | public/sw.js:195-199 | a detail click on a plain notification opens it with `notificationId`, `category` and `group` |
| ServiceWorker.LateDecisionOpensPage | public/sw.js:169-193 | past the window, approve or reject only opens the page with `approvalId` and `action` |
| ServiceWorker.ServerMessageActions | public/sw.js:150-157 | the server's approval message shows reject and approve and keeps the temporary token |
| ServiceWorker.EncryptedServerMessageShowsFallback | public/sw.js:135-147 | an encrypted message from the server is shown with the fallback text |
| ServiceWorker.Base64ToUint8Array | public/sw.js:56-64 | one byte per character of the decoded text, each the character code mod 256 |

## Left out

- Cryptography is left out: AES-GCM, PBKDF2, ECDH key generation and SHA-256 are inputs, as is the master-key storage in IndexedDB and localStorage.
- `src/utils/encryption.ts` and the encryption package are not part of this model.
- The stream's heartbeat timer, `writer.ready` and the abort listener are left out. They only call `cleanup`, which is modelled. Whether a writer's `closed` promise rejects is an input; the timing of its settling is not modelled.
- Stream.Registry.WriteAll: `Map.forEach` visits the devices in insertion order. The registry keeps no insertion order, so the contract states only that some order lists every device once.
- Concurrency between requests is left out. Each handler is one sequential run against the store.
- The Web Push request itself (`buildPushPayload`, `fetch`) is left out. Its outcome is an input.
- Regular-expression and URL engines are left out. The front-matter reader and the classifier are written over characters, and URL parsing is an input.
- Network.IsLocalNetworkUrl: WHATWG URL parsing keeps the brackets of an IPv6 hostname. With such a parser the IPv6 branches never see a bare address, but the model keeps the parser abstract.
- Headers, `console` logging and the `Content-Type` of replies are left out.
- Notifications.Get: a `page` or `pageSize` that `parseInt` reads as `NaN` goes to the store as it is. The store's answer to that is not modelled, and the result is `None`.
- Notifications.SortNewestFirst: SQL leaves the order of rows with equal `createdAt` unspecified. The model keeps table order for them (`Notifications.TiesKeepTableOrder`).
- ApiTokenApi.Delete: the handler is modelled over the corrected `revokeToken` of the Findings table. As written it deletes every token of the user, which `ApiTokenService.RevokeTokenAsWritten` models.
- Store.KvGet: the eventual consistency of the KV namespace across locations is left out. A write is seen by every later read until it expires.
- ApiTokenApi.CalculateExpiryDate: `expiresIn` is taken as an integer. A fraction is not modelled: one between 0 and 1 gives null, and one of at least 1 is truncated by `setDate`, so 1.5 adds one day. A missing or non-numeric value, which gives an `Invalid Date` in the code, is not modelled either. A day is 86 400 000 ms, since the runtime clock is UTC.
- ApiTokenService.GetTokens: `expiresAt` is held as milliseconds. The conversion drizzle applies to the stored column is not modelled.
- ServiceWorker.JsNumber: only numbers and `null` convert to numbers. Numeric strings, booleans and arrays are taken as `NaN`.
- ServiceWorker.Click: `clients.openWindow` and `notification.close` appear only as the outcome they lead to. `self.location.origin` is left out; the page is always `/`.
- VapidHelper.GenerateVapidKeys: Node's `base64url` encoding is written as the standard encoding with the base64url substitution and without padding. It is the same codec as `src/utils/base64.ts`.
- Push.Post: `Date.now()` in the message and the ISO timestamps in the live event are left out. One `now` stands for the request's clock.
- A store call that throws is not modelled. The services rethrow (src/services/approvalProcessService.ts), and each handler's catch-all turns the error into a 500 reply (src/pages/api/approval.ts:126-131, api-token.ts, subscription.ts, notifications.ts, vapid-keys.ts, push.ts:250-255, including the publish transaction). The model's store calls always succeed, except for the failures the code swallows.
- Text.Utf8Length: a JavaScript string can hold a lone surrogate, which `TextEncoder` writes as U+FFFD in 3 bytes. A Dafny `char` is a Unicode scalar value, so the model's strings hold no lone surrogates and this case is not modelled.
- Push.Screen: a truthy `content` that is not a string makes `.trim()` throw (src/pages/api/push.ts:63), and the catch-all answers 500. The request body is modelled with a string `content`.
- The unreachable `Failed to create notification` branch of the publish handler and the unreachable `Failed to update approval state` branch of the approval handler are left out.

## Findings

| source | as written | input that shows it | evidently intended | confidence | as-written member | corrected member |
|---|---|---|---|---|---|---|
| src/services/apiTokenService.ts:38 | `.where(eq(id, tokenId) && eq(userEmail, email))` evaluates the JavaScript `&&` first; both operands are truthy objects, so the filter is `eq(userEmail, email)` alone and every token of the user is deleted | a user with tokens `a` and `b` revokes `a`; both rows are deleted | delete only the row with that id and that user (`and(eq(...), eq(...))`) | high, not executed | ApiTokenService.RevokeTokenAsWritten, ApiTokenService.RevokeAsWrittenRemovesSiblings | ApiTokenService.RevokeToken, ApiTokenService.RevokeRemovesOnlyThatToken |
