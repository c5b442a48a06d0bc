/** The member dashboard counters of `GET /stats/member-stats`: the
    approved-event count with its fallback, the caller's proposals, and the
    fold over tasks that splits the caller's tasks into completed and
    pending. The count queries are functions over the event collection; the
    fold is a method with the route's nested loops. */
module Stats {
  import opened Common
  import opened Tasks
  import opened Events

  datatype MemberStats = MemberStats(upcomingEvents: nat, myProposals: nat, tasksCompleted: nat, tasksPending: nat)

  /** How the query `{'tasks.assignedTo': u}` matches one stored `assignedTo`:
      equal to a bare id, or contained in a list. */
  predicate Matches(a: Assignees, u: UserId)
  {
    match a
    case Missing => false
    case Scalar(x) => x == u
    case List(xs) => u in xs
  }

  /** The events that query loads: those with a task matching the user. */
  predicate Selected(tasks: seq<Task>, u: UserId)
  {
    exists t :: t in tasks && Matches(t.assignedTo, u)
  }

  /** The fold's per-task test: `assignedTo` is a list containing the user
      (duplicates in the list do not matter). */
  predicate Mine(t: Task, u: UserId)
  {
    t.assignedTo.List? && u in t.assignedTo.ids
  }

  predicate HasScalar(tasks: seq<Task>)
  {
    exists t :: t in tasks && t.assignedTo.Scalar?
  }

  function MineIn(tasks: seq<Task>, u: UserId): nat
  {
    if tasks == [] then 0
    else MineIn(tasks[..|tasks| - 1], u) + (if Mine(tasks[|tasks| - 1], u) then 1 else 0)
  }

  /** The user's tasks whose status is `completed`. */
  function DoneIn(tasks: seq<Task>, u: UserId): nat
  {
    if tasks == [] then 0
    else
      var t := tasks[|tasks| - 1];
      DoneIn(tasks[..|tasks| - 1], u) + (if Mine(t, u) && t.status == Completed then 1 else 0)
  }

  /** The user's tasks with any other status (`pending` or `in-progress`). */
  function OpenIn(tasks: seq<Task>, u: UserId): nat
  {
    if tasks == [] then 0
    else
      var t := tasks[|tasks| - 1];
      OpenIn(tasks[..|tasks| - 1], u) + (if Mine(t, u) && t.status != Completed then 1 else 0)
  }

  /** Every task of the user is counted once, as completed or as pending. */
  lemma {:induction false} SplitTasks(tasks: seq<Task>, u: UserId)
    ensures DoneIn(tasks, u) + OpenIn(tasks, u) == MineIn(tasks, u)
  {
    if tasks != [] {
      SplitTasks(tasks[..|tasks| - 1], u);
    }
  }

  /** An event the query does not load holds none of the user's tasks. */
  lemma {:induction false} UnselectedHoldsNone(tasks: seq<Task>, u: UserId)
    requires !Selected(tasks, u)
    ensures MineIn(tasks, u) == 0
  {
    if tasks != [] {
      assert tasks[|tasks| - 1] in tasks;
      assert forall t :: t in tasks[..|tasks| - 1] ==> t in tasks;
      UnselectedHoldsNone(tasks[..|tasks| - 1], u);
    }
  }

  /** Completed tasks over the loaded events. */
  function Done(events: seq<Event>, u: UserId): nat
    reads events
  {
    if events == [] then 0
    else
      var e := events[|events| - 1];
      Done(events[..|events| - 1], u) + (if Selected(e.tasks, u) then DoneIn(e.tasks, u) else 0)
  }

  /** Pending tasks over the loaded events. */
  function Open(events: seq<Event>, u: UserId): nat
    reads events
  {
    if events == [] then 0
    else
      var e := events[|events| - 1];
      Open(events[..|events| - 1], u) + (if Selected(e.tasks, u) then OpenIn(e.tasks, u) else 0)
  }

  /** Tasks of every event whose `assignedTo` array contains the user. */
  function Assigned(events: seq<Event>, u: UserId): nat
    reads events
  {
    if events == [] then 0
    else Assigned(events[..|events| - 1], u) + MineIn(events[|events| - 1].tasks, u)
  }

  /** A loaded event holds a task with a bare `assignedTo`, on which the
      array test throws. */
  predicate Faulty(events: seq<Event>, u: UserId)
    reads events
  {
    exists i :: 0 <= i < |events| && Selected(events[i].tasks, u) && HasScalar(events[i].tasks)
  }

  /** `tasksCompleted + tasksPending` is the number of tasks, across all
      events, whose `assignedTo` array contains the user. */
  lemma {:induction false} TasksPartition(events: seq<Event>, u: UserId)
    ensures Done(events, u) + Open(events, u) == Assigned(events, u)
  {
    if events != [] {
      var e := events[|events| - 1];
      TasksPartition(events[..|events| - 1], u);
      if Selected(e.tasks, u) {
        SplitTasks(e.tasks, u);
      } else {
        UnselectedHoldsNone(e.tasks, u);
      }
    }
  }

  /** Approved events. */
  function ApprovedCount(events: seq<Event>): (r: nat)
    reads events
    ensures r <= |events|
    ensures r == 0 <==> forall i :: 0 <= i < |events| ==> events[i].status != Approved
  {
    if events == [] then 0
    else ApprovedCount(events[..|events| - 1]) + (if events[|events| - 1].status == Approved then 1 else 0)
  }

  /** Approved events dated at or after `now`; undated events do not match. */
  function UpcomingCount(events: seq<Event>, now: Time): (r: nat)
    reads events
    ensures r <= |events|
    ensures r == 0 <==> forall i :: 0 <= i < |events| ==>
      !(events[i].status == Approved && events[i].suggestedDate.Some? && events[i].suggestedDate.value >= now)
  {
    if events == [] then 0
    else
      var e := events[|events| - 1];
      UpcomingCount(events[..|events| - 1], now)
        + (if e.status == Approved && e.suggestedDate.Some? && e.suggestedDate.value >= now then 1 else 0)
  }

  /** Events proposed by the user, whatever their status. */
  function ProposalCount(events: seq<Event>, u: UserId): (r: nat)
    ensures r <= |events|
    ensures r == 0 <==> forall i :: 0 <= i < |events| ==> events[i].proposedBy != u
  {
    if events == [] then 0
    else ProposalCount(events[..|events| - 1], u) + (if events[|events| - 1].proposedBy == u then 1 else 0)
  }

  /** `upcoming || allApproved`: a zero count falls back to the total. */
  function UpcomingOrAll(upcoming: nat, all: nat): (r: nat)
    ensures upcoming != 0 ==> r == upcoming
    ensures upcoming == 0 ==> r == all
  {
    if upcoming != 0 then upcoming else all
  }

  lemma {:induction false} UpcomingAtMostApproved(events: seq<Event>, now: Time)
    ensures UpcomingCount(events, now) <= ApprovedCount(events)
  {
    if events != [] {
      UpcomingAtMostApproved(events[..|events| - 1], now);
    }
  }

  /** The reported upcoming count never exceeds the approved count, is the
      upcoming count when that is non-zero, and is zero only when nothing is
      approved. */
  lemma {:induction false} UpcomingFallback(events: seq<Event>, now: Time)
    ensures var r := UpcomingOrAll(UpcomingCount(events, now), ApprovedCount(events));
      r <= ApprovedCount(events) &&
      (UpcomingCount(events, now) != 0 ==> r == UpcomingCount(events, now)) &&
      (r == 0 <==> ApprovedCount(events) == 0)
  {
    UpcomingAtMostApproved(events, now);
  }

  /** `myProposals` counts the user's proposals whatever their status. */
  lemma {:induction false} ProposalsCounted(events: seq<Event>, u: UserId)
    ensures ProposalCount(events, u) == |ProposalsOf(events, u)|
  {
    if events != [] {
      ProposalsCounted(events[..|events| - 1], u);
    }
  }

  /** The route: 500 when a loaded event holds a bare assignee, otherwise the
      four counters. */
  method ComputeStats(events: seq<Event>, u: UserId, now: Time) returns (r: Result<MemberStats>)
    ensures r.Err? <==> Faulty(events, u)
    ensures r.Err? ==> r.code == SERVER_ERROR
    ensures r.Ok? ==> r.value == MemberStats(
      UpcomingOrAll(UpcomingCount(events, now), ApprovedCount(events)),
      ProposalCount(events, u), Done(events, u), Open(events, u))
  {
    var completed, pending := 0, 0;
    var i := 0;
    while i < |events|
      invariant i <= |events|
      invariant !Faulty(events[..i], u)
      invariant completed == Done(events[..i], u) && pending == Open(events[..i], u)
    {
      var tasks := events[i].tasks;
      assert events[..i + 1][..i] == events[..i];
      if exists t :: t in tasks && Matches(t.assignedTo, u) {
        var j := 0;
        while j < |tasks|
          invariant j <= |tasks|
          invariant !HasScalar(tasks[..j])
          invariant completed == Done(events[..i], u) + DoneIn(tasks[..j], u)
          invariant pending == Open(events[..i], u) + OpenIn(tasks[..j], u)
        {
          assert tasks[..j + 1][..j] == tasks[..j];
          var t := tasks[j];
          match t.assignedTo {
            case Missing =>
            case Scalar(_) =>
              assert t in tasks;
              assert Selected(events[i].tasks, u) && HasScalar(events[i].tasks);
              return Err(SERVER_ERROR);
            case List(ids) =>
              if u in ids {
                if t.status == Completed {
                  completed := completed + 1;
                } else {
                  pending := pending + 1;
                }
              }
          }
          j := j + 1;
        }
        assert tasks[..j] == tasks;
      }
      i := i + 1;
    }
    assert events[..i] == events;
    r := Ok(MemberStats(UpcomingOrAll(UpcomingCount(events, now), ApprovedCount(events)),
                        ProposalCount(events, u), completed, pending));
  }
}
