/**
 * `ApprovalProcessService`: the rows of the approval table and the one state
 * change they allow, `pending` to `approved` or `rejected`.  Ids and the clock
 * are inputs; a failing query is not modelled, so every call either returns or
 * throws one of the service's own errors.
 */
module ApprovalProcessService {
  import opened Common
  import opened Store
  import Table

  const NOT_FOUND := "Approval process not found"
  const NOT_PENDING := "Cannot update a non-pending approval process"

  function HasId(id: string): ApprovalProcess -> bool
  {
    (p: ApprovalProcess) => p.id == id
  }

  function OfNotification(notificationId: string): ApprovalProcess -> bool
  {
    (p: ApprovalProcess) => p.notificationId == notificationId
  }

  function NotOfNotification(notificationId: string): ApprovalProcess -> bool
  {
    (p: ApprovalProcess) => p.notificationId != notificationId
  }

  /** The row `addApprovalProcess` inserts for the given data. */
  function NewProcess(id: string, userEmail: string, notificationId: string, webhookUrl: string, now: int): (r: ApprovalProcess)
    ensures r.state == Pending
  {
    ApprovalProcess(id, notificationId, webhookUrl, userEmail, Pending, now, now)
  }

  /** The table after the state of approval `id` is set to `state` at `now`. */
  function WithState(rows: seq<ApprovalProcess>, id: string, state: ApprovalState, now: int): (r: seq<ApprovalProcess>)
    ensures |r| == |rows|
    ensures forall i :: 0 <= i < |rows| && rows[i].id != id ==> r[i] == rows[i]
    ensures forall i :: 0 <= i < |rows| && rows[i].id == id ==> r[i] == rows[i].(state := state, updatedAt := now)
  {
    Table.UpdateWhere(rows, HasId(id), (p: ApprovalProcess) => p.(state := state, updatedAt := now))
  }

  /** `addApprovalProcess`: one new `pending` row holding the given data. */
  method AddApprovalProcess(db: Database, id: string, userEmail: string, notificationId: string, webhookUrl: string, now: int)
    returns (row: ApprovalProcess)
    modifies db`approvalProcesses
    ensures row.id == id && row.state == Pending
    ensures row.userEmail == userEmail && row.notificationId == notificationId && row.webhookUrl == webhookUrl
    ensures row.createdAt == now && row.updatedAt == now
    ensures db.approvalProcesses == old(db.approvalProcesses) + [row]
  {
    row := NewProcess(id, userEmail, notificationId, webhookUrl, now);
    db.approvalProcesses := db.approvalProcesses + [row];
  }

  /** `getApprovalProcessById`: the row with that id, or `undefined`. */
  method GetApprovalProcessById(db: Database, id: string) returns (r: Option<ApprovalProcess>)
    ensures r == Table.First(db.approvalProcesses, HasId(id))
    ensures r.Some? ==> r.value in db.approvalProcesses && r.value.id == id
    ensures r.None? <==> forall i :: 0 <= i < |db.approvalProcesses| ==> db.approvalProcesses[i].id != id
  {
    r := Table.First(db.approvalProcesses, HasId(id));
  }

  /** `getApprovalProcessByNotificationId`: the first row of that notification, or `undefined`. */
  method GetApprovalProcessByNotificationId(db: Database, notificationId: string) returns (r: Option<ApprovalProcess>)
    ensures r == Table.First(db.approvalProcesses, OfNotification(notificationId))
    ensures r.Some? ==> r.value in db.approvalProcesses && r.value.notificationId == notificationId
    ensures r.None? <==> forall i :: 0 <= i < |db.approvalProcesses| ==> db.approvalProcesses[i].notificationId != notificationId
  {
    r := Table.First(db.approvalProcesses, OfNotification(notificationId));
  }

  /** `updateApprovalProcessState`: throws for an unknown id or a row that is
      no longer pending, and otherwise rewrites that row's state and update
      time, returning the updated row. */
  method UpdateApprovalProcessState(db: Database, id: string, state: ApprovalState, now: int)
    returns (result: Result<ApprovalProcess>)
    requires state != Pending
    modifies db`approvalProcesses
    ensures var current := Table.First(old(db.approvalProcesses), HasId(id));
      && (current.None? ==> result == Thrown(NOT_FOUND))
      && (current.Some? && current.value.state != Pending ==> result == Thrown(NOT_PENDING))
      && (current.Some? && current.value.state == Pending ==>
            result == Ok(current.value.(state := state, updatedAt := now)))
    ensures result.Thrown? ==> db.approvalProcesses == old(db.approvalProcesses)
    ensures result.Ok? ==> db.approvalProcesses == WithState(old(db.approvalProcesses), id, state, now)
  {
    var current := GetApprovalProcessById(db, id);
    if current.None? {
      return Thrown(NOT_FOUND);
    }
    if current.value.state != Pending {
      return Thrown(NOT_PENDING);
    }
    ghost var before := db.approvalProcesses;
    db.approvalProcesses := WithState(db.approvalProcesses, id, state, now);
    var updated := Table.First(db.approvalProcesses, HasId(id));
    FirstAfterUpdate(before, id, state, now);
    result := Ok(updated.value);
  }

  /** `deleteApprovalProcessByNotificationId`: every row of that notification
      goes, the others stay in order, and the first deleted row is returned. */
  method DeleteApprovalProcessByNotificationId(db: Database, notificationId: string)
    returns (deleted: Option<ApprovalProcess>)
    modifies db`approvalProcesses
    ensures deleted == Table.First(old(db.approvalProcesses), OfNotification(notificationId))
    ensures db.approvalProcesses == Table.Where(old(db.approvalProcesses), NotOfNotification(notificationId))
  {
    deleted := Table.First(db.approvalProcesses, OfNotification(notificationId));
    db.approvalProcesses := Table.Where(db.approvalProcesses, NotOfNotification(notificationId));
  }

  // ------------------------------------------------------------- properties

  /** The row an update returns is the row it found, with the new state and
      update time: the first row with that id sits at the same position. */
  lemma FirstAfterUpdate(rows: seq<ApprovalProcess>, id: string, state: ApprovalState, now: int)
    ensures var before := Table.First(rows, HasId(id));
      var after := Table.First(WithState(rows, id, state, now), HasId(id));
      && (before.None? <==> after.None?)
      && (before.Some? ==> after == Some(before.value.(state := state, updatedAt := now)))
  {
    var after := WithState(rows, id, state, now);
    forall j | 0 <= j < |rows| ensures HasId(id)(after[j]) == HasId(id)(rows[j]) {
    }
    Table.FirstIndexAgree(rows, after, HasId(id));
  }

  /** After an update the row an update looks up is resolved, so it is no
      longer pending. */
  lemma ResolvedIsFinal(rows: seq<ApprovalProcess>, id: string, s1: ApprovalState, t1: int)
    requires s1 != Pending
    ensures var once := WithState(rows, id, s1, t1);
      var current := Table.First(once, HasId(id));
      current.Some? ==> current.value.state == s1 && current.value.state != Pending
  {
    FirstAfterUpdate(rows, id, s1, t1);
  }

  /** Two updates of the same approval in a row: when the first succeeds,
      the second throws `NOT_PENDING` and leaves the table as the first left
      it; when the first throws, so does the second, with the same error. */
  method UpdateTwice(db: Database, id: string, s1: ApprovalState, t1: int, s2: ApprovalState, t2: int)
    returns (first: Result<ApprovalProcess>, second: Result<ApprovalProcess>)
    requires s1 != Pending && s2 != Pending
    modifies db`approvalProcesses
    ensures first.Ok? ==>
      && second == Thrown(NOT_PENDING)
      && db.approvalProcesses == WithState(old(db.approvalProcesses), id, s1, t1)
    ensures first.Thrown? ==> second == first && db.approvalProcesses == old(db.approvalProcesses)
  {
    ghost var before := db.approvalProcesses;
    first := UpdateApprovalProcessState(db, id, s1, t1);
    ResolvedIsFinal(before, id, s1, t1);
    FirstAfterUpdate(before, id, s1, t1);
    second := UpdateApprovalProcessState(db, id, s2, t2);
  }

  /** A successful update changes only `state` and `updatedAt`, and only in
      the rows with that id; the identity, ownership, webhook and creation
      time of every row are kept. */
  lemma UpdateKeepsRecord(rows: seq<ApprovalProcess>, id: string, state: ApprovalState, now: int)
    ensures var r := WithState(rows, id, state, now);
      && |r| == |rows|
      && forall i :: 0 <= i < |rows| ==>
           && r[i].id == rows[i].id && r[i].notificationId == rows[i].notificationId
           && r[i].webhookUrl == rows[i].webhookUrl && r[i].userEmail == rows[i].userEmail
           && r[i].createdAt == rows[i].createdAt
           && (rows[i].id != id ==> r[i] == rows[i])
  {
  }

  /** Deleting by notification removes exactly that notification's rows. */
  lemma DeleteRemovesOnlyThatNotification(rows: seq<ApprovalProcess>, notificationId: string)
    ensures var r := Table.Where(rows, NotOfNotification(notificationId));
      && (forall i :: 0 <= i < |r| ==> r[i].notificationId != notificationId)
      && (forall i :: 0 <= i < |rows| && rows[i].notificationId != notificationId ==> rows[i] in r)
  {
  }
}
