/**
 * The persisted records: users, log entries, background documents, tasks and
 * newsletter logs, with the nullability of their columns, the task status
 * validator and the id order of a user's tasks.
 */
module Models {
  import opened Base
  import opened Json
  import PyText

  /** A timezone-aware timestamp, here a number of seconds. */
  type Timestamp = int

  /** A row of `users`. */
  datatype User = User(id: int, username: Option<string>, email: Option<string>, createdAt: Timestamp)

  /** A row of `text_inputs`: every column but the key may be NULL. */
  datatype TextInput = TextInput(
    id: int, userId: Option<int>, content: Option<string>, category: Option<string>, createdAt: Timestamp)

  /** A row of `background_info`: a JSON document, possibly NULL. */
  datatype BackgroundInfo = BackgroundInfo(id: int, userId: Option<int>, content: Option<Json>, createdAt: Timestamp)

  /** A row of `tasks`: `status` is NOT NULL; `deadline` and `completed_at` may be NULL. */
  datatype Task = Task(
    id: int, userId: Option<int>, description: Option<string>, status: string,
    createdAt: Timestamp, deadline: Option<Timestamp>, completedAt: Option<Timestamp>)

  /** A row of `newsletter_logs`: `user_id` and `content` are NOT NULL. */
  datatype NewsletterLog = NewsletterLog(id: int, userId: int, content: string, createdAt: Timestamp)

  /** What a write to the database can raise. */
  datatype DbError =
    | ValueError(message: string)   // raised by the status validator
    | NotNullViolation              // raised by the database for a NULL in a NOT NULL column

  const AllowedStatuses: seq<string> := ["open", "in_progress", "completed"]
  const DefaultStatus: string := "open"

  /** The message of the validator's ValueError, listing the allowed statuses joined by ", ". */
  function InvalidStatusMessage(status: string): (m: string)
    ensures m == "Invalid status: " + status + ". Allowed values are: open, in_progress, completed"
  {
    assert PyText.Join(AllowedStatuses[2..], ", ") == "completed";
    assert PyText.Join(AllowedStatuses[1..], ", ") == "in_progress, completed";
    "Invalid status: " + status + ". Allowed values are: " + PyText.Join(AllowedStatuses, ", ")
  }

  /** `Task.validate_status`: the status unchanged when allowed, a ValueError otherwise. */
  function ValidateStatus(status: string): (r: Result<string, DbError>)
    ensures r.Success? <==> status in AllowedStatuses
    ensures r.Success? ==> r.value == status
    ensures r.Failure? ==> r.error == ValueError("Invalid status: " + status + ". Allowed values are: open, in_progress, completed")
  {
    if status in AllowedStatuses then Success(status) else Failure(ValueError(InvalidStatusMessage(status)))
  }

  /** The column default passes the validator. */
  lemma DefaultStatusAccepted()
    ensures ValidateStatus(DefaultStatus) == Success(DefaultStatus)
  {
  }

  /** Every allowed status is lower-case, so any status holding an upper-case ASCII letter is rejected. */
  lemma UpperCaseStatusRejected(status: string, i: nat)
    requires i < |status| && 'A' <= status[i] <= 'Z'
    ensures ValidateStatus(status).Failure?
  {
    assert forall s, k :: s in AllowedStatuses && 0 <= k < |s| ==> !('A' <= s[k] <= 'Z');
  }

  predicate ValidTask(t: Task)
  {
    t.status in AllowedStatuses
  }

  /**
   * `Task(...)` followed by an insert: an omitted status takes the default,
   * a given one goes through the validator.
   */
  function NewTask(
    id: int, userId: Option<int>, description: Option<string>, status: Option<string>,
    deadline: Option<Timestamp>, completedAt: Option<Timestamp>, now: Timestamp): (r: Result<Task, DbError>)
    ensures status.None? ==> r.Success? && r.value.status == DefaultStatus
    ensures status.Some? ==> (r.Success? <==> status.value in AllowedStatuses)
    ensures status.Some? && r.Failure? ==> r == Failure(ValueError(InvalidStatusMessage(status.value)))
    ensures status.Some? && r.Success? ==> r.value.status == status.value
    ensures r.Success? ==> ValidTask(r.value)
    ensures r.Success? ==> (r.value.id == id && r.value.userId == userId && r.value.description == description
      && r.value.deadline == deadline && r.value.completedAt == completedAt && r.value.createdAt == now)
  {
    var s := if status.None? then Success(DefaultStatus) else ValidateStatus(status.value);
    match s
    case Success(v) => Success(Task(id, userId, description, v, now, deadline, completedAt))
    case Failure(e) => Failure(e)
  }

  /** `task.status = status`: the validator runs on every assignment. */
  function SetStatus(t: Task, status: string): (r: Result<Task, DbError>)
    ensures r.Success? <==> status in AllowedStatuses
    ensures r.Success? ==> r.value == t.(status := status)
    ensures r.Failure? ==> r.error == ValueError(InvalidStatusMessage(status))
  {
    match ValidateStatus(status)
    case Success(v) => Success(t.(status := v))
    case Failure(e) => Failure(e)
  }

  /** A valid task stays valid through every status assignment that succeeds. */
  lemma SetStatusKeepsValid(t: Task, status: string)
    ensures SetStatus(t, status).Success? ==> ValidTask(SetStatus(t, status).value)
  {
  }

  /** An insert into `newsletter_logs`: a NULL user_id or content is refused. */
  function NewNewsletterLog(id: int, userId: Option<int>, content: Option<string>, now: Timestamp): (r: Result<NewsletterLog, DbError>)
    ensures r.Success? <==> userId.Some? && content.Some?
    ensures r.Failure? ==> r.error == NotNullViolation
    ensures r.Success? ==> r.value == NewsletterLog(id, userId.value, content.value, now)
  {
    if userId.Some? && content.Some? then Success(NewsletterLog(id, userId.value, content.value, now))
    else Failure(NotNullViolation)
  }

  // ---------------------------------------------------------------- User.tasks

  predicate SortedById(ts: seq<Task>)
  {
    forall i, j :: 0 <= i < j < |ts| ==> ts[i].id <= ts[j].id
  }

  /** The rows whose `user_id` is `userId`, in their original order. */
  function OwnedBy(rows: seq<Task>, userId: int): (r: seq<Task>)
    ensures forall t :: t in r <==> t in rows && t.userId == Some(userId)
  {
    if rows == [] then []
    else (if rows[0].userId == Some(userId) then [rows[0]] else []) + OwnedBy(rows[1..], userId)
  }

  function InsertById(t: Task, ts: seq<Task>): (r: seq<Task>)
    requires SortedById(ts)
    ensures SortedById(r)
    ensures multiset(r) == multiset(ts) + multiset{t}
  {
    if ts == [] then [t]
    else if t.id <= ts[0].id then [t] + ts
    else
      var rest := InsertById(t, ts[1..]);
      assert ts == [ts[0]] + ts[1..];
      forall j | 0 <= j < |rest|
        ensures ts[0].id <= rest[j].id
      {
        assert rest[j] in multiset(rest);
        if rest[j] != t {
          assert rest[j] in ts[1..];
        }
      }
      [ts[0]] + rest
  }

  function SortById(ts: seq<Task>): (r: seq<Task>)
    ensures SortedById(r)
    ensures multiset(r) == multiset(ts)
  {
    if ts == [] then []
    else
      assert ts == [ts[0]] + ts[1..];
      InsertById(ts[0], SortById(ts[1..]))
  }

  /** `user.tasks`: the user's task rows, ordered by ascending id. */
  function TasksOf(rows: seq<Task>, userId: int): (r: seq<Task>)
    ensures SortedById(r)
    ensures multiset(r) == multiset(OwnedBy(rows, userId))
    ensures forall t :: t in r <==> t in rows && t.userId == Some(userId)
  {
    var r := SortById(OwnedBy(rows, userId));
    assert forall t :: t in r <==> t in multiset(OwnedBy(rows, userId));
    r
  }
}
