/** Arbitrary state machines: building, checking a path, and breadth-first
    reachability; and the default machines against the status relations. */
module StateMachines {
  import opened Ordering
  import opened Prelude
  import opened Status

  datatype PathError = TooShort | NotAllowed(from: string, to: string)

  ghost function Targets(states: map<string, set<string>>): (targets: set<string>)
    ensures forall from, to | from in states && to in states[from] :: to in targets
    decreases |states|
  {
    if states == map[] then {}
    else
      var from :| from in states;
      var rest := states - {from};
      assert forall f | f in states && f != from :: f in rest && rest[f] == states[f];
      states[from] + Targets(rest)
  }

  datatype StateMachine = StateMachine(states: map<string, set<string>>) {

    predicate Allows(from: string, to: string) {
      from in states && to in states[from]
    }

    predicate StepAllowed(path: seq<string>, i: nat) {
      1 <= i < |path| && Allows(path[i - 1], path[i])
    }

    /** At least two states, each allowed after the one before it. */
    ghost predicate ValidPath(path: seq<string>) {
      |path| >= 2 && forall i | 1 <= i < |path| :: StepAllowed(path, i)
    }

    /** The error names the first step that is not allowed. */
    ghost predicate FirstBadStep(path: seq<string>, i: nat, from: string, to: string) {
      && 1 <= i < |path| && path[i - 1] == from && path[i] == to && !StepAllowed(path, i)
      && forall k | 1 <= k < i :: StepAllowed(path, k)
    }

    ghost predicate Connects(path: seq<string>, from: string, to: string) {
      ValidPath(path) && path[0] == from && path[|path| - 1] == to
    }

    ghost predicate Reaches(from: string, to: string) {
      to == from || exists path :: Connects(path, from, to)
    }

    /** The verdict on a path, naming the first step that is not allowed. */
    method ValidatePath(path: seq<string>) returns (e: Option<PathError>)
      ensures e.None? <==> ValidPath(path)
      ensures e == Some(TooShort) <==> |path| < 2
      ensures e.Some? && e.value.NotAllowed? ==> exists i :: FirstBadStep(path, i, e.value.from, e.value.to)
    {
      if |path| < 2 {
        return Some(TooShort);
      }
      for i := 1 to |path|
        invariant forall k | 1 <= k < i :: StepAllowed(path, k)
      {
        if !Allows(path[i - 1], path[i]) {
          assert FirstBadStep(path, i, path[i - 1], path[i]);
          return Some(NotAllowed(path[i - 1], path[i]));
        }
      }
      return None;
    }

    function Successors(state: string): set<string> {
      if state in states then states[state] else {}
    }

    ghost predicate Expanded(state: string, visited: set<string>) {
      Successors(state) <= visited
    }

    ghost predicate Closed(visited: set<string>) {
      forall s | s in visited :: Expanded(s, visited)
    }

    lemma StepReaches(start: string, current: string, next: string)
      requires Reaches(start, current) && next in Successors(current)
      ensures Reaches(start, next)
    {
      if current == start {
        assert Connects([start, next], start, next);
      } else {
        var path :| Connects(path, start, current);
        forall i | 1 <= i < |path + [next]|
          ensures StepAllowed(path + [next], i)
        {
          assert i < |path| ==> StepAllowed(path, i);
        }
        assert Connects(path + [next], start, next);
      }
    }

    /** A path cannot leave a set that holds the successors of its members. */
    lemma {:induction false} PathStaysInside(visited: set<string>, path: seq<string>, i: nat)
      requires Closed(visited) && ValidPath(path) && path[0] in visited && i < |path|
      ensures path[i] in visited
      decreases i
    {
      if i > 0 {
        PathStaysInside(visited, path, i - 1);
        assert StepAllowed(path, i);
      }
    }

    lemma ClosedHoldsReachable(visited: set<string>, start: string, state: string)
      requires Closed(visited) && start in visited && Reaches(start, state)
      ensures state in visited
    {
      if state != start {
        var path :| Connects(path, start, state);
        PathStaysInside(visited, path, |path| - 1);
      }
    }

    /** Every state that occurs anywhere; bounds the search. */
    ghost function States(start: string): set<string> {
      {start} + Targets(states)
    }

    lemma SuccessorOccurs(start: string, current: string, next: string)
      requires next in Successors(current)
      ensures next in States(start)
    {
      assert next in Targets(states);
    }

    /** Marks the unvisited successors of `current`, in whatever order the map gives
        them, and queues them. */
    method Visit(start: string, current: string, visited: set<string>, queue: seq<string>)
      returns (seen: set<string>, waiting: seq<string>)
      requires visited <= States(start) && current in visited && forall s | s in visited :: Reaches(start, s)
      ensures seen == visited + Successors(current) && seen <= States(start)
      ensures forall s | s in seen :: Reaches(start, s)
      ensures queue <= waiting && forall s | s in seen && s !in visited :: s in waiting
      ensures forall s | s in waiting :: s in queue || s in seen
      ensures seen == visited ==> waiting == queue
    {
      hide Reaches, States;
      seen, waiting := visited, queue;
      var left := Successors(current);
      while left != {}
        invariant left <= Successors(current) && visited <= seen
        invariant seen + left == visited + Successors(current) && seen <= States(start)
        invariant forall s | s in seen :: Reaches(start, s)
        invariant queue <= waiting && forall s | s in seen && s !in visited :: s in waiting
        invariant forall s | s in waiting :: s in queue || s in seen
        invariant seen == visited ==> waiting == queue
        decreases |left|
      {
        var next :| next in left;
        left := left - {next};
        if next !in seen {
          StepReaches(start, current, next);
          SuccessorOccurs(start, current, next);
          seen := seen + {next};
          waiting := waiting + [next];
        }
      }
    }

    /** Every state reachable from `start` and no other, sorted, none twice, for any
        graph and any order in which its maps give their keys. */
    method Reachable(start: string) returns (result: seq<string>)
      ensures Ascending(result, StringBefore)
      ensures forall s :: s in result <==> Reaches(start, s)
    {
      var visited, queue := {start}, [start];
      while queue != []
        invariant start in visited && visited <= States(start)
        invariant forall s | s in visited :: Reaches(start, s)
        invariant forall s | s in queue :: s in visited
        invariant forall s | s in visited && s !in queue :: Expanded(s, visited)
        decreases |States(start) - visited|, |queue|
      {
        var current, rest := queue[0], queue[1..];
        assert queue == [current] + rest;
        var seen, waiting := Visit(start, current, visited, rest);
        if seen != visited {
          assert States(start) - seen < States(start) - visited;
          SmallerSet(States(start) - seen, States(start) - visited);
        }
        visited, queue := seen, waiting;
      }
      forall s ensures s in visited <==> Reaches(start, s) {
        if Reaches(start, s) {
          ClosedHoldsReachable(visited, start, s);
        }
      }
      result := SortedListing(visited);
    }
  }

  lemma SmallerSet<T>(a: set<T>, b: set<T>)
    requires a < b
    ensures |a| < |b|
  {
    assert b == a + (b - a);
    assert b - a != {};
  }

  method SortedListing(states: set<string>) returns (result: seq<string>)
    ensures Ascending(result, StringBefore) && forall s :: s in result <==> s in states
  {
    result := [];
    var left := states;
    while left != {}
      invariant left <= states && multiset(result) + multiset(left) == multiset(states)
      decreases |left|
    {
      var s :| s in left;
      left := left - {s};
      result := result + [s];
    }
    StringOrder();
    result := StableSort(result, StringBefore);
    SortedSetAscends(result, states);
  }

  lemma SortedSetAscends(s: seq<string>, states: set<string>)
    requires Sorted(s, StringBefore) && multiset(s) == multiset(states)
    ensures Ascending(s, StringBefore) && forall x :: x in s <==> x in states
  {
    forall i, k | 0 <= i < k < |s|
      ensures StringBefore(s[i], s[k])
    {
      RepeatCountsTwice(s, i, k);
      StringBeforeTransitive(s[i], s[k], "");
    }
    forall x
      ensures x in s <==> x in states
    {
      assert x in s <==> x in multiset(s);
    }
  }

  /** The listing is a function of the graph: two searches, however their maps were
      walked, answer the same. */
  lemma ReachableUnique(m: StateMachine, start: string, a: seq<string>, b: seq<string>)
    requires Ascending(a, StringBefore) && forall s :: s in a <==> m.Reaches(start, s)
    requires Ascending(b, StringBefore) && forall s :: s in b <==> m.Reaches(start, s)
    ensures a == b
  {
    StringOrder();
    AscendingUnique(a, b, StringBefore);
  }

  method Destinations(list: seq<string>) returns (states: set<string>)
    ensures forall to :: to in states <==> to in list
  {
    states := {};
    for i := 0 to |list|
      invariant forall to :: to in states <==> to in list[..i]
    {
      states := states + {list[i]};
      assert list[..i + 1] == list[..i] + [list[i]];
    }
    assert list[..|list|] == list;
  }

  /** The edges listed and no other. */
  method NewStateMachine(edges: map<string, seq<string>>) returns (m: StateMachine)
    ensures m.states.Keys == edges.Keys
    ensures forall from, to :: m.Allows(from, to) <==> from in edges && to in edges[from]
  {
    var graph: map<string, set<string>> := map[];
    var left := edges.Keys;
    while left != {}
      invariant left <= edges.Keys && graph.Keys == edges.Keys - left
      invariant forall from, to | from in graph :: to in graph[from] <==> to in edges[from]
      decreases |left|
    {
      var from :| from in left;
      left := left - {from};
      var destinations := Destinations(edges[from]);
      graph := graph[from := destinations];
    }
    return StateMachine(graph);
  }

  // ---------- The default machines ----------

  function MissionName(s: MissionStatus): string {
    match s
    case Draft => "draft"
    case Scheduled => "scheduled"
    case Active => "active"
    case Closed => "closed"
  }

  function JobName(s: JobStatus): string {
    match s
    case Queued => "queued"
    case Completed => "completed"
    case ActivationPending => "activation_pending"
    case Accepted => "accepted"
    case InProgress => "in_progress"
    case Verified => "verified"
    case Rejected => "rejected"
    case Archived => "archived"
  }

  function WindowName(s: WindowStatus): string {
    match s
    case Waiting => "queued"
    case Running => "running"
    case Done => "completed"
    case Cancelled => "cancelled"
  }

  ghost predicate MissionEdgeAgrees(m: StateMachine, s: MissionStatus, t: MissionStatus) {
    m.Allows(MissionName(s), MissionName(t)) <==> s.CanMoveTo(t)
  }

  ghost predicate IsMissionName(name: string) {
    exists s :: MissionName(s) == name
  }

  ghost predicate JobEdgeAgrees(m: StateMachine, s: JobStatus, t: JobStatus) {
    m.Allows(JobName(s), JobName(t)) <==> s.CanMoveTo(t)
  }

  ghost predicate IsJobName(name: string) {
    exists s :: JobName(s) == name
  }

  ghost predicate WindowEdgeAgrees(m: StateMachine, s: WindowStatus, t: WindowStatus) {
    m.Allows(WindowName(s), WindowName(t)) <==> s.CanMoveTo(t)
  }

  ghost predicate IsWindowName(name: string) {
    exists s :: WindowName(s) == name
  }

  lemma NamesAreNames()
    ensures forall s :: IsMissionName(MissionName(s))
    ensures forall s :: IsJobName(JobName(s))
    ensures forall s :: IsWindowName(WindowName(s))
  {
  }

  /** The graph written as text is the status relation on every pair, and allows nothing else. */
  ghost predicate IsMissionMachine(m: StateMachine) {
    && (forall s, t :: MissionEdgeAgrees(m, s, t))
    && (forall from, to | m.Allows(from, to) :: IsMissionName(from) && IsMissionName(to))
  }

  ghost predicate IsJobMachine(m: StateMachine) {
    && (forall s, t :: JobEdgeAgrees(m, s, t))
    && (forall from, to | m.Allows(from, to) :: IsJobName(from) && IsJobName(to))
  }

  ghost predicate IsWindowMachine(m: StateMachine) {
    && (forall s, t :: WindowEdgeAgrees(m, s, t))
    && (forall from, to | m.Allows(from, to) :: IsWindowName(from) && IsWindowName(to))
  }

  method DefaultSurveyMissionMachine() returns (m: StateMachine)
    ensures IsMissionMachine(m)
  {
    NamesAreNames();
    assert MissionName(Draft) == "draft";
    assert MissionName(Scheduled) == "scheduled";
    assert MissionName(Active) == "active";
    assert MissionName(Closed) == "closed";
    m := NewStateMachine(map["draft" := ["scheduled"], "scheduled" := ["active", "closed"], "active" := ["closed"]]);
  }

  const JOB_EDGES: map<string, seq<string>> := map[
    "queued" := ["completed"], "completed" := ["activation_pending"], "activation_pending" := ["accepted"],
    "accepted" := ["in_progress"], "in_progress" := ["verified", "rejected"],
    "verified" := ["archived"], "rejected" := ["archived"]]

  lemma JobEdgesAgree(s: JobStatus, t: JobStatus)
    ensures JobName(s) in JOB_EDGES && JobName(t) in JOB_EDGES[JobName(s)] <==> s.CanMoveTo(t)
  {
    match s
    case Queued => case Completed => case ActivationPending => case Accepted =>
    case InProgress => case Verified => case Rejected => case Archived =>
  }

  lemma JobEdgesNamed(from: string, to: string)
    requires from in JOB_EDGES && to in JOB_EDGES[from]
    ensures IsJobName(from) && IsJobName(to)
  {
    NamesAreNames();
    assert JobName(Queued) == "queued" && JobName(Completed) == "completed" && JobName(Accepted) == "accepted";
    assert JobName(ActivationPending) == "activation_pending" && JobName(InProgress) == "in_progress";
    assert JobName(Verified) == "verified" && JobName(Rejected) == "rejected" && JobName(Archived) == "archived";
  }

  method DefaultRecoveryJobMachine() returns (m: StateMachine)
    ensures IsJobMachine(m)
  {
    m := NewStateMachine(JOB_EDGES);
    forall s, t ensures JobEdgeAgrees(m, s, t) {
      JobEdgesAgree(s, t);
    }
    forall from, to | m.Allows(from, to) ensures IsJobName(from) && IsJobName(to) {
      JobEdgesNamed(from, to);
    }
  }

  method DefaultDiveWindowMachine() returns (m: StateMachine)
    ensures IsWindowMachine(m)
  {
    NamesAreNames();
    assert WindowName(Waiting) == "queued";
    assert WindowName(Running) == "running";
    assert WindowName(Done) == "completed";
    assert WindowName(Cancelled) == "cancelled";
    m := NewStateMachine(map["queued" := ["running", "cancelled"], "running" := ["completed", "cancelled"]]);
  }
}
