/** Tasks embedded in an event: the legacy single-assignee shape, the
    completion aggregation of `PUT /events/:id/tasks/:taskId`, and the manual
    status override. */
module Tasks {
  import opened Common

  /** Task status, as enumerated by the event schema. */
  datatype TaskStatus = Pending | InProgress | Completed

  /** The stored `assignedTo` of a task: absent, a bare id left over from the
      old single-assignee schema, or a list of ids. */
  datatype Assignees = Missing | Scalar(id: UserId) | List(ids: seq<UserId>)

  /** The `assignedTo` of a request body: one id or an array of ids. */
  datatype AssigneeInput = OneId(id: UserId) | IdList(ids: seq<UserId>)

  datatype Task = Task(
    id: TaskId,
    title: string,
    assignedTo: Assignees,
    completedBy: seq<UserId>,
    status: TaskStatus,
    deadline: Option<Time>)

  function Distinct(s: seq<UserId>): set<UserId>
  {
    set x | x in s
  }

  /** Number of distinct completers who are also assignees. */
  function ValidCompletions(assignees: seq<UserId>, completedBy: seq<UserId>): nat
  {
    |Distinct(completedBy) * Distinct(assignees)|
  }

  /** A subset of a finite set that is at least as large is the whole set. */
  lemma {:induction false} SubsetAsLarge(x: set<UserId>, y: set<UserId>)
    requires x <= y && |x| >= |y|
    ensures x == y
  {
    if x != y {
      var z :| z in y && z !in x;
      assert x <= y - {z};
      assert |y - {z}| == |y| - 1;
      SubsetIsSmaller(x, y - {z});
    }
  }

  lemma {:induction false} SubsetIsSmaller(x: set<UserId>, y: set<UserId>)
    requires x <= y
    ensures |x| <= |y|
  {
    assert y == x + (y - x);
    assert x * (y - x) == {};
  }

  /** The count of valid completions reaches the number of distinct
      assignees exactly when every assignee is among the completers. */
  lemma {:induction false} CountReachesSize(a: set<UserId>, c: set<UserId>)
    ensures |c * a| >= |a| <==> a <= c
  {
    if |c * a| >= |a| {
      SubsetAsLarge(c * a, a);
    }
    if a <= c {
      assert c * a == a;
    }
  }

  /** The status the completion path derives: `completed` when there are at
      least as many distinct valid completions as distinct assignees,
      `in-progress` otherwise. This happens exactly when every assignee has
      completed. */
  function DerivedStatus(assignees: seq<UserId>, completedBy: seq<UserId>): (r: TaskStatus)
    ensures r == Completed || r == InProgress
    ensures r == Completed <==> forall a :: a in assignees ==> a in completedBy
  {
    var a, c := Distinct(assignees), Distinct(completedBy);
    CountReachesSize(a, c);
    assert a <= c <==> forall x :: x in assignees ==> x in completedBy by {
      assert forall x :: x in a <==> x in assignees;
      assert forall x :: x in c <==> x in completedBy;
    }
    if ValidCompletions(assignees, completedBy) >= |a| then Completed else InProgress
  }

  /** With no assignees the completion path always yields `completed`: the
      code has no guard for an empty assignee list. */
  lemma NoAssigneesCompletes(completedBy: seq<UserId>)
    ensures DerivedStatus([], completedBy) == Completed
  {
  }

  /** Completions by users who are not assignees do not change the derived
      status. */
  lemma NonAssigneeIgnored(assignees: seq<UserId>, completedBy: seq<UserId>, x: UserId)
    requires x !in assignees
    ensures DerivedStatus(assignees, completedBy + [x]) == DerivedStatus(assignees, completedBy)
  {
  }

  /** Completions are counted against the current assignee list: an assignee
      who has not completed keeps the derived status at `in-progress`,
      whatever else `completedBy` holds. */
  lemma NewAssigneeReopens(assignees: seq<UserId>, completedBy: seq<UserId>, x: UserId)
    requires x !in completedBy
    ensures DerivedStatus(assignees + [x], completedBy) == InProgress
  {
  }

  /** `status === 'completed'`: record the caller's completion once and
      recompute the status from the assignee list. */
  function MarkCompleted(t: Task, u: UserId): (r: Task)
    requires t.assignedTo.List?
    ensures r.id == t.id && r.title == t.title && r.assignedTo == t.assignedTo && r.deadline == t.deadline
    ensures u in r.completedBy
    ensures t.completedBy <= r.completedBy && |r.completedBy| <= |t.completedBy| + 1
    ensures u in t.completedBy ==> r.completedBy == t.completedBy
    ensures r.status == Completed <==> forall a :: a in t.assignedTo.ids ==> a in r.completedBy
    ensures r.status != Pending
  {
    var done := if u in t.completedBy then t.completedBy else t.completedBy + [u];
    t.(completedBy := done, status := DerivedStatus(t.assignedTo.ids, done))
  }

  /** Any other requested status is stored verbatim; `pending` alone also
      clears the completions. */
  function Override(t: Task, s: TaskStatus): (r: Task)
    ensures r.status == s
    ensures r.completedBy == if s == Pending then [] else t.completedBy
    ensures r.(status := t.status, completedBy := t.completedBy) == t
  {
    t.(status := s, completedBy := if s == Pending then [] else t.completedBy)
  }

  /** The effect of an authorised status request on one task. */
  function ApplyStatus(t: Task, u: UserId, s: TaskStatus): (r: Task)
    requires t.assignedTo.List?
    ensures r.id == t.id && r.title == t.title && r.assignedTo == t.assignedTo && r.deadline == t.deadline
    ensures s == Completed ==>
      u in r.completedBy && (r.status == Completed <==> forall a :: a in t.assignedTo.ids ==> a in r.completedBy)
    ensures s != Completed ==> r.status == s
    ensures s == Pending ==> r.completedBy == []
    ensures s == InProgress ==> r.completedBy == t.completedBy
  {
    if s == Completed then MarkCompleted(t, u) else Override(t, s)
  }

  /** Once every assignee has completed, further completions by anyone keep
      the task `completed`. */
  lemma {:induction false} CompletedIsStable(t: Task, u: UserId, v: UserId)
    requires t.assignedTo.List?
    requires MarkCompleted(t, u).status == Completed
    ensures MarkCompleted(MarkCompleted(t, u), v).status == Completed
  {
    var r := MarkCompleted(t, u);
    assert r.completedBy <= MarkCompleted(r, v).completedBy;
  }

  /** Only an admin or one of the task's assignees may change its status. */
  predicate MayUpdate(t: Task, caller: Caller)
    requires t.assignedTo.List?
    ensures caller.role == Admin ==> MayUpdate(t, caller)
    ensures caller.role == Member ==> (MayUpdate(t, caller) <==> caller.id in t.assignedTo.ids)
  {
    caller.role == Admin || caller.id in t.assignedTo.ids
  }

  /** The legacy fix of `addTask`: a bare assignee id becomes a one-element
      list; nothing else changes. */
  function Normalized(t: Task): (r: Task)
    ensures !r.assignedTo.Scalar?
    ensures r.(assignedTo := t.assignedTo) == t
    ensures t.assignedTo.Scalar? ==> r.assignedTo == List([t.assignedTo.id])
    ensures !t.assignedTo.Scalar? ==> r == t
  {
    if t.assignedTo.Scalar? then t.(assignedTo := List([t.assignedTo.id])) else t
  }

  function NormalizeAll(ts: seq<Task>): (r: seq<Task>)
    ensures |r| == |ts|
    ensures forall i :: 0 <= i < |ts| ==> r[i] == Normalized(ts[i])
  {
    seq(|ts|, i requires 0 <= i < |ts| => Normalized(ts[i]))
  }

  /** The legacy fix is idempotent and leaves no bare id behind. */
  lemma NormalizeAllIdempotent(ts: seq<Task>)
    ensures NormalizeAll(NormalizeAll(ts)) == NormalizeAll(ts)
    ensures forall i :: 0 <= i < |ts| ==> !NormalizeAll(ts)[i].assignedTo.Scalar?
  {
  }

  /** The task `addTask` appends. */
  function NewTask(id: TaskId, title: string, assignedTo: AssigneeInput, deadline: Option<Time>): (r: Task)
    ensures r.id == id && r.title == title && r.deadline == deadline
    ensures r.assignedTo.List? && r.completedBy == [] && r.status == Pending
    ensures r.assignedTo.ids == match assignedTo
      case OneId(x) => [x]
      case IdList(xs) => xs
  {
    Task(id, title,
      List(match assignedTo case OneId(x) => [x] case IdList(xs) => xs),
      [], Pending, deadline)
  }

  /** The id the database gives a pushed subdocument is one no task of the
      event holds; here, one more than the largest id in use. */
  function FreshTaskId(ts: seq<Task>): (r: TaskId)
    ensures forall t :: t in ts ==> t.id < r
  {
    if ts == [] then 0
    else
      var m := FreshTaskId(ts[..|ts| - 1]);
      assert forall t :: t in ts ==> t in ts[..|ts| - 1] || t == ts[|ts| - 1];
      if ts[|ts| - 1].id < m then m else ts[|ts| - 1].id + 1
  }

  /** The legacy fix keeps every task id, each at its own position. */
  lemma NormalizeAllKeepsIds(ts: seq<Task>)
    ensures forall i :: 0 <= i < |ts| ==> NormalizeAll(ts)[i].id == ts[i].id
    ensures forall t :: t in ts ==> exists u :: u in NormalizeAll(ts) && u.id == t.id
  {
    forall t | t in ts
      ensures exists u :: u in NormalizeAll(ts) && u.id == t.id
    {
      var i :| 0 <= i < |ts| && ts[i] == t;
      assert NormalizeAll(ts)[i] in NormalizeAll(ts);
    }
  }

  /** The counting loop of the completion path: walks the distinct completers
      and counts those that are distinct assignees. */
  method CountValidCompletions(assignees: seq<UserId>, completedBy: seq<UserId>) returns (n: nat)
    ensures n == ValidCompletions(assignees, completedBy)
  {
    var unique := Distinct(assignees);
    var remaining := Distinct(completedBy);
    n := 0;
    while remaining != {}
      invariant remaining <= Distinct(completedBy)
      invariant n == |(Distinct(completedBy) - remaining) * unique|
      decreases |remaining|
    {
      var id :| id in remaining;
      ghost var seen := (Distinct(completedBy) - remaining) * unique;
      assert (Distinct(completedBy) - (remaining - {id})) * unique
        == seen + ({id} * unique);
      assert id !in seen;
      if id in unique {
        assert {id} * unique == {id};
        n := n + 1;
      } else {
        assert {id} * unique == {};
      }
      remaining := remaining - {id};
    }
    assert Distinct(completedBy) - remaining == Distinct(completedBy);
  }
}
