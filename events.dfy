/** Event proposals (`/events` routes and the admin event-status route): an
    `Event` object whose vote, task and discussion arrays the handlers change
    in place, and an `EventStore` holding the collection. */
module Events {
  import opened Common
  import opened Votes
  import opened Tasks

  /** Event status, as enumerated by the event schema. */
  datatype EventStatus = Pending | Approved | Declined
  {
    function Name(): string
    {
      match this
      case Pending => "pending"
      case Approved => "approved"
      case Declined => "declined"
    }
  }

  datatype Comment = Comment(user: UserId, text: string, createdAt: Time)

  /** The editable fields of an event. Text fields use "" for absent. */
  datatype Details = Details(
    title: string,
    description: string,
    venue: string,
    suggestedDate: Option<Time>,
    expectedParticipants: Option<int>,
    status: EventStatus)

  /** The body of `PUT /events/:id`. A text field is "" when absent or empty. */
  datatype Edit = Edit(
    title: string,
    description: string,
    venue: string,
    suggestedDate: Option<Time>,
    expectedParticipants: Option<int>,
    status: Option<EventStatus>)

  /** JavaScript truthiness of a numeric body field: absent and 0 are falsy. */
  predicate TruthyCount(n: Option<int>)
  {
    n.Some? && n.value != 0
  }

  /** `body.f || event.f` for every field, and the status only when supplied. */
  function Merge(d: Details, e: Edit): (r: Details)
    ensures e.title != "" ==> r.title == e.title
    ensures e.title == "" ==> r.title == d.title
    ensures e.description != "" ==> r.description == e.description
    ensures e.description == "" ==> r.description == d.description
    ensures e.venue != "" ==> r.venue == e.venue
    ensures e.venue == "" ==> r.venue == d.venue
    ensures r.suggestedDate == if e.suggestedDate.Some? then e.suggestedDate else d.suggestedDate
    ensures r.expectedParticipants == if TruthyCount(e.expectedParticipants) then e.expectedParticipants else d.expectedParticipants
    ensures r.status == if e.status.Some? then e.status.value else d.status
  {
    Details(
      if e.title != "" then e.title else d.title,
      if e.description != "" then e.description else d.description,
      if e.venue != "" then e.venue else d.venue,
      if e.suggestedDate.Some? then e.suggestedDate else d.suggestedDate,
      if TruthyCount(e.expectedParticipants) then e.expectedParticipants else d.expectedParticipants,
      if e.status.Some? then e.status.value else d.status)
  }

  /** A body whose fields are all falsy changes nothing, and applying the same
      edit twice is the same as applying it once. */
  lemma MergeProperties(d: Details, e: Edit)
    ensures e == Edit("", "", "", None, e.expectedParticipants, None) && !TruthyCount(e.expectedParticipants)
      ==> Merge(d, e) == d
    ensures Merge(Merge(d, e), e) == Merge(d, e)
  {
  }

  /** Edit and delete are allowed to an admin or to the proposer. */
  predicate CanModify(caller: Caller, proposer: UserId)
    ensures caller.role == Admin ==> CanModify(caller, proposer)
    ensures caller.role == Member ==> (CanModify(caller, proposer) <==> caller.id == proposer)
  {
    caller.role == Admin || caller.id == proposer
  }

  class Event {
    const id: EventId
    const proposedBy: UserId
    var title: string
    var description: string
    var venue: string
    var suggestedDate: Option<Time>
    var expectedParticipants: Option<int>
    var status: EventStatus
    var upvotes: seq<UserId>
    var downvotes: seq<UserId>
    var tasks: seq<Task>
    var discussion: seq<Comment>

    /** `POST /events`: a new proposal is pending with no votes, tasks or comments. */
    constructor (id: EventId, proposer: UserId, title: string, description: string, venue: string,
                 suggestedDate: Option<Time>, expectedParticipants: Option<int>)
      ensures this.id == id && proposedBy == proposer
      ensures Fields() == Details(title, description, venue, suggestedDate, expectedParticipants, EventStatus.Pending)
      ensures upvotes == [] && downvotes == [] && tasks == [] && discussion == []
    {
      this.id := id;
      this.proposedBy := proposer;
      this.title := title;
      this.description := description;
      this.venue := venue;
      this.suggestedDate := suggestedDate;
      this.expectedParticipants := expectedParticipants;
      this.status := EventStatus.Pending;
      this.upvotes := [];
      this.downvotes := [];
      this.tasks := [];
      this.discussion := [];
    }

    function Fields(): Details
      reads this
    {
      Details(title, description, venue, suggestedDate, expectedParticipants, status)
    }

    /** The event's two vote lists, as the toggle sees them. */
    function VoteLists(): Ballot
      reads this
    {
      Ballot(upvotes, downvotes)
    }

    /** `PUT /events/:id` once the event is found. */
    method Update(caller: Caller, e: Edit) returns (code: int)
      modifies this`title, this`description, this`venue, this`suggestedDate,
               this`expectedParticipants, this`status
      ensures code == if CanModify(caller, proposedBy) then OK else UNAUTHORIZED
      ensures Fields() == if code == OK then Merge(old(Fields()), e) else old(Fields())
    {
      if !CanModify(caller, proposedBy) {
        return UNAUTHORIZED;
      }
      title := if e.title != "" then e.title else title;
      description := if e.description != "" then e.description else description;
      venue := if e.venue != "" then e.venue else venue;
      suggestedDate := if e.suggestedDate.Some? then e.suggestedDate else suggestedDate;
      expectedParticipants := if TruthyCount(e.expectedParticipants) then e.expectedParticipants else expectedParticipants;
      if e.status.Some? {
        status := e.status.value;
      }
      code := OK;
    }

    /** `PUT /events/:id/vote` once the event is found. */
    method Vote(u: UserId, kind: string)
      modifies this`upvotes, this`downvotes
      ensures VoteLists() == CastVote(old(VoteLists()), u, kind)
    {
      var isUpvoted := u in upvotes;
      var isDownvoted := u in downvotes;
      if kind == "up" {
        if isUpvoted {
          upvotes := Without(upvotes, u);
        } else {
          upvotes := upvotes + [u];
          if isDownvoted {
            downvotes := Without(downvotes, u);
          }
        }
      } else if kind == "down" {
        if isDownvoted {
          downvotes := Without(downvotes, u);
        } else {
          downvotes := downvotes + [u];
          if isUpvoted {
            upvotes := Without(upvotes, u);
          }
        }
      }
    }

    /** `POST /events/:id/tasks` once the event is found: admin only; wraps
        every legacy bare assignee into a list, then appends the new task. */
    method AddTask(caller: Caller, title: string, assignedTo: AssigneeInput,
                   deadline: Option<Time>) returns (code: int)
      modifies this`tasks
      ensures code == if caller.role == Admin then OK else UNAUTHORIZED
      ensures tasks == if code == OK then NormalizeAll(old(tasks)) + [NewTask(FreshTaskId(old(tasks)), title, assignedTo, deadline)]
                       else old(tasks)
      ensures code == OK ==> FindTask(tasks, FreshTaskId(old(tasks))) == Some(|tasks| - 1)
    {
      if caller.role != Admin {
        return UNAUTHORIZED;
      }
      var newId := FreshTaskId(tasks);
      var i := 0;
      while i < |tasks|
        invariant i <= |tasks| == |old(tasks)|
        invariant forall j :: 0 <= j < i ==> tasks[j] == Normalized(old(tasks)[j])
        invariant forall j :: i <= j < |tasks| ==> tasks[j] == old(tasks)[j]
      {
        if tasks[i].assignedTo.Scalar? {
          tasks := tasks[i := tasks[i].(assignedTo := List([tasks[i].assignedTo.id]))];
        }
        i := i + 1;
      }
      tasks := tasks + [NewTask(newId, title, assignedTo, deadline)];
      forall j | 0 <= j < |tasks| - 1
        ensures !TaskIdIs(newId)(tasks[j])
      {
        assert old(tasks)[j] in old(tasks);
      }
      FindFirstAt(tasks, TaskIdIs(newId), |tasks| - 1);
      code := OK;
    }

    /** `PUT /events/:id/tasks/:taskId` once the event is found. A task whose
        `assignedTo` is not a list makes the assignee check throw (500). */
    method UpdateTask(caller: Caller, taskId: TaskId, s: TaskStatus) returns (code: int)
      modifies this`tasks
      ensures FindTask(old(tasks), taskId).None? ==> code == NOT_FOUND && tasks == old(tasks)
      ensures FindTask(old(tasks), taskId).Some? ==>
        var k := FindTask(old(tasks), taskId).value;
        var t := old(tasks)[k];
        if !t.assignedTo.List? then code == SERVER_ERROR && tasks == old(tasks)
        else if !MayUpdate(t, caller) then code == UNAUTHORIZED && tasks == old(tasks)
        else code == OK && tasks == old(tasks)[k := ApplyStatus(t, caller.id, s)]
    {
      var found := FindTask(tasks, taskId);
      if found.None? {
        return NOT_FOUND;
      }
      var k := found.value;
      var t := tasks[k];
      if !t.assignedTo.List? {
        return SERVER_ERROR;
      }
      var isAssignee := caller.id in t.assignedTo.ids;
      if !(caller.role == Admin || isAssignee) {
        return UNAUTHORIZED;
      }
      if s == Completed {
        var done := t.completedBy;
        if caller.id !in done {
          done := done + [caller.id];
        }
        var valid := CountValidCompletions(t.assignedTo.ids, done);
        var derived := if valid >= |Distinct(t.assignedTo.ids)| then Completed else InProgress;
        t := t.(completedBy := done, status := derived);
      } else {
        t := t.(status := s);
        if s == TaskStatus.Pending {
          t := t.(completedBy := []);
        }
      }
      tasks := tasks[k := t];
      code := OK;
    }

    /** `POST /events/:id/discussion` once the event is found. */
    method AddComment(author: UserId, text: string, now: Time)
      modifies this`discussion
      ensures discussion == old(discussion) + [Comment(author, text, now)]
    {
      discussion := discussion + [Comment(author, text, now)];
    }

    /** `PUT /admin/events/:id/status` once the event is found. */
    method SetStatus(s: EventStatus)
      modifies this`status
      ensures status == s
    {
      status := s;
    }
  }

  /** The subdocument lookup `tasks.id(taskId)`. */
  function FindTask(tasks: seq<Task>, taskId: TaskId): Option<nat>
  {
    FindFirst(tasks, TaskIdIs(taskId))
  }

  function TaskIdIs(id: TaskId): Task -> bool
  {
    (t: Task) => t.id == id
  }

  /** The `status` filter of `GET /events`: an explicit query status wins;
      otherwise members see approved events and admins see everything. */
  function ListFilter(role: Role, query: string): (r: Option<string>)
    ensures query != "" ==> r == Some(query)
    ensures query == "" ==> (r.None? <==> role == Admin)
    ensures query == "" && role == Member ==> r == Some(Approved.Name())
  {
    if query != "" then Some(query)
    else if role != Admin then Some("approved")
    else None
  }

  predicate Shown(filter: Option<string>, s: EventStatus)
  {
    filter.None? || filter.value == s.Name()
  }

  /** The events a filter selects, newest first (the collection is in creation
      order). */
  function Listed(events: seq<Event>, filter: Option<string>): (r: seq<Event>)
    reads events
    ensures forall i :: 0 <= i < |r| ==> r[i] in events && Shown(filter, r[i].status)
    ensures forall i :: 0 <= i < |events| && Shown(filter, events[i].status) ==> events[i] in r
  {
    if events == [] then []
    else
      var last := events[|events| - 1];
      (if Shown(filter, last.status) then [last] else []) + Listed(events[..|events| - 1], filter)
  }

  /** Without a query, a member lists exactly the approved events, and an
      admin lists every event. */
  lemma DefaultListing(events: seq<Event>, caller: Caller)
    ensures var r := Listed(events, ListFilter(caller.role, ""));
      caller.role == Member ==>
        (forall i :: 0 <= i < |r| ==> r[i].status == Approved) &&
        (forall i :: 0 <= i < |events| && events[i].status == Approved ==> events[i] in r)
    ensures var r := Listed(events, ListFilter(caller.role, ""));
      caller.role == Admin ==> forall i :: 0 <= i < |events| ==> events[i] in r
  {
  }

  /** An explicit status query is honoured for every role. */
  lemma QueryListing(events: seq<Event>, role: Role, query: string)
    requires query != ""
    ensures var r := Listed(events, ListFilter(role, query));
      (forall i :: 0 <= i < |r| ==> r[i].status.Name() == query) &&
      (forall i :: 0 <= i < |events| && events[i].status.Name() == query ==> events[i] in r)
  {
  }

  /** `GET /events/my-proposals`: the caller's proposals, newest first. */
  function ProposalsOf(events: seq<Event>, u: UserId): (r: seq<Event>)
    ensures forall i :: 0 <= i < |r| ==> r[i] in events && r[i].proposedBy == u
    ensures forall i :: 0 <= i < |events| && events[i].proposedBy == u ==> events[i] in r
  {
    if events == [] then []
    else
      var last := events[|events| - 1];
      (if last.proposedBy == u then [last] else []) + ProposalsOf(events[..|events| - 1], u)
  }

  function HasId(id: EventId): Event -> bool
  {
    (e: Event) => e.id == id
  }

  /** The event collection. Identifiers are allocated from a counter. */
  class EventStore {
    var events: seq<Event>
    var nextId: EventId

    ghost predicate Valid()
      reads this
    {
      (forall i, j :: 0 <= i < j < |events| ==> events[i].id != events[j].id) &&
      (forall e :: e in events ==> e.id < nextId)
    }

    constructor ()
      ensures Valid() && events == []
    {
      events := [];
      nextId := 0;
    }

    function Find(id: EventId): Option<nat>
      reads this
    {
      FindFirst(events, HasId(id))
    }

    /** The objects a handler for event `id` may change. */
    function Target(id: EventId): set<Event>
      reads this
    {
      set e | e in events && e.id == id
    }

    /** With distinct ids, the objects a handler for event `id` may change are
        exactly the event `Find` locates, or none. */
    lemma TargetIsFound(id: EventId)
      requires Valid()
      ensures Find(id).None? ==> Target(id) == {}
      ensures Find(id).Some? ==> Target(id) == {events[Find(id).value]}
    {
      var k := Find(id);
      if k.None? {
        assert forall e :: e in events ==> !HasId(id)(e);
      } else {
        forall e | e in Target(id)
          ensures e == events[k.value]
        {
          var j :| 0 <= j < |events| && events[j] == e;
          assert HasId(id)(events[k.value]) && events[j].id == id;
        }
      }
    }

    /** `POST /events`. */
    method Propose(caller: Caller, title: string, description: string, venue: string,
                   suggestedDate: Option<Time>, expectedParticipants: Option<int>) returns (e: Event)
      requires Valid()
      modifies this
      ensures Valid() && fresh(e)
      ensures events == old(events) + [e] && Find(e.id) == Some(|old(events)|)
      ensures e.proposedBy == caller.id
      ensures e.Fields() == Details(title, description, venue, suggestedDate, expectedParticipants, EventStatus.Pending)
      ensures e.upvotes == [] && e.downvotes == [] && e.tasks == [] && e.discussion == []
    {
      e := new Event(nextId, caller.id, title, description, venue, suggestedDate, expectedParticipants);
      events := events + [e];
      nextId := nextId + 1;
      assert forall j :: 0 <= j < |events| - 1 ==> events[j] in old(events);
      FindFirstAt(events, HasId(e.id), |events| - 1);
    }

    /** `PUT /events/:id`. */
    method Update(id: EventId, caller: Caller, edit: Edit) returns (code: int)
      requires Valid()
      modifies Target(id)`title, Target(id)`description, Target(id)`venue, Target(id)`suggestedDate,
               Target(id)`expectedParticipants, Target(id)`status
      ensures Valid()
      ensures Find(id).None? ==> code == NOT_FOUND
      ensures Find(id).Some? ==>
        var e := events[Find(id).value];
        code == (if CanModify(caller, e.proposedBy) then OK else UNAUTHORIZED) &&
        e.Fields() == if code == OK then Merge(old(e.Fields()), edit) else old(e.Fields())
    {
      var k := Find(id);
      if k.None? {
        return NOT_FOUND;
      }
      code := events[k.value].Update(caller, edit);
    }

    /** `PUT /events/:id/vote`. */
    method Vote(id: EventId, caller: Caller, kind: string) returns (code: int)
      requires Valid()
      modifies Target(id)`upvotes, Target(id)`downvotes
      ensures Valid()
      ensures code == if Find(id).None? then NOT_FOUND else OK
      ensures Find(id).Some? ==>
        var e := events[Find(id).value];
        e.VoteLists() == CastVote(old(e.VoteLists()), caller.id, kind)
    {
      var k := Find(id);
      if k.None? {
        return NOT_FOUND;
      }
      events[k.value].Vote(caller.id, kind);
      code := OK;
    }

    /** `POST /events/:id/tasks`: the 404 comes before the admin check. */
    method AddTask(id: EventId, caller: Caller, title: string, assignedTo: AssigneeInput,
                   deadline: Option<Time>) returns (code: int)
      requires Valid()
      modifies Target(id)`tasks
      ensures Valid()
      ensures Find(id).None? ==> code == NOT_FOUND
      ensures Find(id).Some? ==>
        var e := events[Find(id).value];
        code == (if caller.role == Admin then OK else UNAUTHORIZED) &&
        e.tasks == if code == OK then NormalizeAll(old(e.tasks)) + [NewTask(FreshTaskId(old(e.tasks)), title, assignedTo, deadline)]
                   else old(e.tasks)
      ensures Find(id).Some? && code == OK ==>
        var e := events[Find(id).value];
        FindTask(e.tasks, FreshTaskId(old(e.tasks))) == Some(|e.tasks| - 1)
    {
      var k := Find(id);
      if k.None? {
        return NOT_FOUND;
      }
      code := events[k.value].AddTask(caller, title, assignedTo, deadline);
    }

    /** `PUT /events/:id/tasks/:taskId`. */
    method UpdateTask(id: EventId, caller: Caller, taskId: TaskId, s: TaskStatus) returns (code: int)
      requires Valid()
      modifies Target(id)`tasks
      ensures Valid()
      ensures Find(id).None? ==> code == NOT_FOUND
      ensures Find(id).Some? ==>
        var e := events[Find(id).value];
        match FindTask(old(e.tasks), taskId)
        case None => code == NOT_FOUND && e.tasks == old(e.tasks)
        case Some(k) =>
          var t := old(e.tasks)[k];
          if !t.assignedTo.List? then code == SERVER_ERROR && e.tasks == old(e.tasks)
          else if !MayUpdate(t, caller) then code == UNAUTHORIZED && e.tasks == old(e.tasks)
          else code == OK && e.tasks == old(e.tasks)[k := ApplyStatus(t, caller.id, s)]
    {
      var k := Find(id);
      if k.None? {
        return NOT_FOUND;
      }
      code := events[k.value].UpdateTask(caller, taskId, s);
    }

    /** `POST /events/:id/discussion`. */
    method AddComment(id: EventId, caller: Caller, text: string, now: Time) returns (code: int)
      requires Valid()
      modifies Target(id)`discussion
      ensures Valid()
      ensures code == if Find(id).None? then NOT_FOUND else OK
      ensures Find(id).Some? ==>
        var e := events[Find(id).value];
        e.discussion == old(e.discussion) + [Comment(caller.id, text, now)]
    {
      var k := Find(id);
      if k.None? {
        return NOT_FOUND;
      }
      events[k.value].AddComment(caller.id, text, now);
      code := OK;
    }

    /** `PUT /admin/events/:id/status`, behind the admin gate. */
    method SetStatus(id: EventId, caller: Caller, s: EventStatus) returns (code: int)
      requires caller.role == Admin
      requires Valid()
      modifies Target(id)`status
      ensures Valid()
      ensures code == if Find(id).None? then NOT_FOUND else OK
      ensures Find(id).Some? ==> events[Find(id).value].status == s
    {
      var k := Find(id);
      if k.None? {
        return NOT_FOUND;
      }
      events[k.value].SetStatus(s);
      code := OK;
    }

    /** `DELETE /events/:id`. */
    method Delete(id: EventId, caller: Caller) returns (code: int)
      requires Valid()
      modifies this
      ensures Valid()
      ensures old(Find(id)).None? ==> code == NOT_FOUND && events == old(events)
      ensures old(Find(id)).Some? ==>
        var k := old(Find(id)).value;
        if CanModify(caller, old(events)[k].proposedBy) then
          code == OK && events == RemoveAt(old(events), k) && Find(id).None?
        else code == UNAUTHORIZED && events == old(events)
    {
      var k := Find(id);
      if k.None? {
        return NOT_FOUND;
      }
      if !CanModify(caller, events[k.value].proposedBy) {
        return UNAUTHORIZED;
      }
      events := RemoveAt(events, k.value);
      code := OK;
    }
  }
}
