/** The queue protocol of one MCP session on its event loop, as a state machine: callers, one
    worker and a closer take turns between suspension points
    (common/mcp_tool_call_conn.py). */
module McpProtocol {
  datatype Task = ListTools | ToolCall(arguments: string) | Unknown(name: string)

  datatype Reply =
    | Answer(value: string)
    | ServerError(message: string)   // the call raised, or there is no usable client
    | UnknownTask
    | Closing

  /** Where the worker stands: waiting for a request, inside a call for one, or out of its loop. */
  datatype Worker = Waiting | Busy(call: nat) | Stopped

  /** Calls are numbered in the order they were accepted; `results[i]` is all that was ever put
      into the result queue of call `i`. */
  datatype State = State(
    tasks: seq<Task>, queue: seq<nat>, closed: bool, worker: Worker, usable: bool,
    results: seq<seq<Reply>>, lost: seq<nat>)

  /** What may happen between two suspensions. */
  datatype Action =
    | Call(task: Task)          // a caller submits
    | Take                      // the worker gets a request
    | Respond(reply: Reply)     // the awaited client call returns or raises
    | Tick                      // the worker's one-second wait runs out
    | Cancel                    // the worker is cancelled where it waits
    | Reconnect                 // the transport failed: a new worker loop without a client
    | Close

  function Init(usable: bool): State {
    State([], [], false, Waiting, usable, [], [])
  }

  function Put(results: seq<seq<Reply>>, call: nat, reply: Reply): seq<seq<Reply>>
    requires call < |results|
  {
    results[call := results[call] + [reply]]
  }

  /** The worker at the head of its loop. */
  function Again(closed: bool): Worker {
    if closed then Stopped else Waiting
  }

  /** What the worker answers: the session method exists for two tasks only. */
  function ReplyTo(task: Task, reply: Reply): Reply {
    if task.Unknown? then UnknownTask else reply
  }

  /** The drain of the closer: every queued call is told that the session closes. */
  function Drained(results: seq<seq<Reply>>, queue: seq<nat>): (r: seq<seq<Reply>>)
    requires forall i <- queue :: i < |results|
    ensures |r| == |results|
    decreases |queue|
  {
    if queue == [] then results
    else
      assert forall i <- queue[1..] :: i in queue;
      assert queue[0] in queue;
      Drained(Put(results, queue[0], Closing), queue[1..])
  }

  lemma DrainedUnfolds(results: seq<seq<Reply>>, queue: seq<nat>)
    requires forall i <- queue :: i < |results|
    ensures queue == [] ==> Drained(results, queue) == results
    ensures queue != [] ==>
      && queue[0] in queue && (forall i <- queue[1..] :: i in queue)
      && Drained(results, queue) == Drained(Put(results, queue[0], Closing), queue[1..])
  {
  }

  /** No queued or running call is out of range; the shape of states the step needs. */
  predicate InRange(s: State) {
    && |s.results| == |s.tasks|
    && (forall i <- s.queue :: i < |s.results|)
    && (s.worker.Busy? ==> s.worker.call < |s.results|)
  }

  predicate Enabled(s: State, a: Action) {
    match a
    case Call(_) => true
    case Take => s.worker.Waiting? && s.queue != []
    case Respond(_) => s.worker.Busy?
    case Tick => s.worker.Waiting?
    case Cancel => !s.worker.Stopped?
    case Reconnect => s.worker.Stopped?
    case Close => true
  }

  function Step(s: State, a: Action): State
    requires InRange(s) && Enabled(s, a)
  {
    match a
    case Call(task) =>
      if s.closed then s
      else s.(tasks := s.tasks + [task], queue := s.queue + [|s.tasks|], results := s.results + [[]])
    case Take =>
      assert s.queue[0] in s.queue;
      if s.usable then s.(queue := s.queue[1..], worker := Busy(s.queue[0]))
      else s.(queue := s.queue[1..], worker := Again(s.closed),
              results := Put(s.results, s.queue[0], ServerError("")))
    case Respond(reply) =>
      s.(worker := Again(s.closed),
         results := Put(s.results, s.worker.call, ReplyTo(s.tasks[s.worker.call], reply)))
    case Tick => s.(worker := Again(s.closed))
    case Cancel =>
      s.(worker := Stopped, lost := if s.worker.Busy? then s.lost + [s.worker.call] else s.lost)
    case Reconnect => s.(worker := Again(s.closed), usable := false)
    case Close =>
      if s.closed then s else s.(closed := true, queue := [], results := Drained(s.results, s.queue))
  }

  // ---- the invariant ----

  /** The calls that left the queue are the first ones. */
  function Taken(s: State): int {
    |s.tasks| - |s.queue|
  }

  predicate InFlight(s: State, i: nat) {
    s.worker == Busy(i)
  }

  ghost predicate Inv(s: State) {
    && |s.results| == |s.tasks|
    && |s.queue| <= |s.tasks|
    // first in, first out
    && (forall k | 0 <= k < |s.queue| :: s.queue[k] == Taken(s) + k)
    // a call has no reply while it waits, runs or is lost, and one reply otherwise
    && (forall i: nat | i < |s.results| ::
          |s.results[i]| == if i >= Taken(s) || InFlight(s, i) || i in s.lost then 0 else 1)
    && (s.worker.Busy? ==> s.worker.call < Taken(s) && s.worker.call !in s.lost)
    && (forall i <- s.lost :: i < Taken(s))
    && (forall i, j | 0 <= i < j < |s.lost| :: s.lost[i] != s.lost[j])
    && (s.closed ==> s.queue == [])
  }

  lemma InvInRange(s: State)
    requires Inv(s)
    ensures InRange(s)
  {
  }

  lemma InitInv(usable: bool)
    ensures Inv(Init(usable))
  {
  }

  /** Draining puts one reply into every queued result queue and touches no other. */
  lemma {:induction false} DrainedAt(results: seq<seq<Reply>>, queue: seq<nat>, i: nat)
    requires (forall k <- queue :: k < |results|) && i < |results|
    requires forall a, b | 0 <= a < b < |queue| :: queue[a] != queue[b]
    ensures Drained(results, queue)[i] == if i in queue then results[i] + [Closing] else results[i]
    decreases |queue|
  {
    if queue != [] {
      assert queue[0] in queue;
      assert forall k <- queue[1..] :: k in queue;
      DrainedAt(Put(results, queue[0], Closing), queue[1..], i);
      assert i in queue <==> i == queue[0] || i in queue[1..];
    }
  }

  lemma CloseKeepsInv(s: State)
    requires Inv(s)
    ensures InRange(s) && Inv(Step(s, Close))
  {
    InvInRange(s);
    if !s.closed {
      var s' := Step(s, Close);
      forall i: nat | i < |s.results|
        ensures |s'.results[i]| == if i >= Taken(s') || InFlight(s', i) || i in s'.lost then 0 else 1
      {
        DrainedAt(s.results, s.queue, i);
        if i >= Taken(s) {
          assert s.queue[i - Taken(s)] == i;
        }
      }
    }
  }

  lemma TakeKeepsInv(s: State)
    requires Inv(s) && Enabled(s, Take)
    ensures InRange(s) && Inv(Step(s, Take))
  {
    InvInRange(s);
    var s' := Step(s, Take);
    forall k | 0 <= k < |s'.queue| ensures s'.queue[k] == Taken(s') + k {
      assert s'.queue[k] == s.queue[k + 1];
    }
    assert s.queue[0] == Taken(s);
  }

  lemma StepKeepsInv(s: State, a: Action)
    requires Inv(s) && InRange(s) && Enabled(s, a)
    ensures Inv(Step(s, a))
  {
    match a
    case Take => TakeKeepsInv(s);
    case Close => CloseKeepsInv(s);
    case Call(_) =>
    case Respond(_) =>
    case Tick =>
    case Cancel =>
    case Reconnect =>
  }

  // ---- runs ----

  /** Does every action of the list find the session ready for it? */
  ghost predicate Possible(s: State, actions: seq<Action>)
    decreases |actions|
  {
    actions == [] ||
      (InRange(s) && Enabled(s, actions[0]) && Possible(Step(s, actions[0]), actions[1..]))
  }

  ghost function After(s: State, actions: seq<Action>): State
    requires Possible(s, actions)
    decreases |actions|
  {
    if actions == [] then s else After(Step(s, actions[0]), actions[1..])
  }

  lemma {:induction false} RunKeepsInv(s: State, actions: seq<Action>)
    requires Inv(s) && Possible(s, actions)
    ensures Inv(After(s, actions))
    decreases |actions|
  {
    hide Inv, Step;
    if actions != [] {
      StepKeepsInv(s, actions[0]);
      RunKeepsInv(Step(s, actions[0]), actions[1..]);
    }
  }

  // ---- conservation ----

  function Answered(s: State): set<nat> {
    set i: nat | i < |s.results| && s.results[i] != []
  }

  function InFlightCount(s: State): nat {
    if s.worker.Busy? then 1 else 0
  }

  function Upto(n: nat): (r: set<nat>)
    ensures |r| == n
    ensures forall i: nat :: i in r <==> i < n
  {
    if n == 0 then {} else Upto(n - 1) + {n - 1}
  }

  function Members(xs: seq<nat>): set<nat> {
    set x <- xs
  }

  lemma {:induction false} DistinctSize(xs: seq<nat>)
    requires forall i, j | 0 <= i < j < |xs| :: xs[i] != xs[j]
    ensures |Members(xs)| == |xs|
    decreases |xs|
  {
    if xs != [] {
      DistinctSize(xs[1..]);
      assert xs == [xs[0]] + xs[1..];
      assert xs[0] !in xs[1..];
      assert Members(xs) == {xs[0]} + Members(xs[1..]);
    }
  }

  lemma LostAreDistinct(s: State)
    requires Inv(s)
    ensures |Members(s.lost)| == |s.lost|
  {
    DistinctSize(s.lost);
  }

  function Running(s: State): set<nat> {
    if s.worker.Busy? then {s.worker.call} else {}
  }

  lemma AnsweredIs(s: State)
    requires Inv(s)
    ensures forall i: nat :: i in Answered(s) <==> i < Taken(s) && !InFlight(s, i) && i !in s.lost
  {
    forall i: nat ensures i in Answered(s) <==> i < Taken(s) && !InFlight(s, i) && i !in s.lost {
      if i < |s.results| {
        assert s.results[i] == [] <==> |s.results[i]| == 0;
      }
    }
  }

  lemma UptoIs(n: nat)
    ensures forall i: nat :: i in Upto(n) <==> i < n
  {
  }

  lemma TakenIsCovered(s: State)
    requires Inv(s)
    ensures var lost := Members(s.lost);
      Answered(s) !! lost && Answered(s) !! Running(s) && lost !! Running(s)
      && Answered(s) + lost + Running(s) == Upto(Taken(s))
  {
    AnsweredIs(s);
    TakenCalls(s);
    UptoIs(Taken(s));
    hide Inv, Answered, Members, Running, Upto;
    SetsCover(Answered(s), Members(s.lost), Running(s), Upto(Taken(s)));
  }

  /** A lost call and the one in flight have been taken, and no call is both. */
  lemma TakenCalls(s: State)
    requires Inv(s)
    ensures forall i: nat :: i in Members(s.lost) <==> i in s.lost
    ensures forall i: nat :: i in Running(s) <==> InFlight(s, i)
    ensures forall i: nat :: i in s.lost || InFlight(s, i) ==> i < Taken(s)
    ensures forall i: nat :: !(i in s.lost && InFlight(s, i))
  {
  }

  lemma SetsCover(a: set<nat>, b: set<nat>, c: set<nat>, all: set<nat>)
    requires forall i: nat :: i in a <==> i in all && i !in c && i !in b
    requires b <= all && c <= all && b !! c
    ensures a !! b && a !! c && a + b + c == all
  {
  }

  lemma DisjointSizes(a: set<nat>, b: set<nat>, c: set<nat>)
    requires a !! b && a !! c && b !! c
    ensures |a + b + c| == |a| + |b| + |c|
  {
  }

  lemma Counted(s: State)
    requires Inv(s)
    ensures |s.tasks| == |Answered(s)| + |s.queue| + InFlightCount(s) + |s.lost|
  {
    TakenIsCovered(s);
    LostAreDistinct(s);
    assert |s.queue| <= |s.tasks|;
    hide Inv, Answered, Members;
    DisjointSizes(Answered(s), Members(s.lost), Running(s));
  }

  /** At any point of any interleaving: every accepted call is answered, queued, in flight or
      lost to a cancellation; and no result queue ever gets a second reply. */
  lemma RepliesAreConserved(usable: bool, actions: seq<Action>)
    requires Possible(Init(usable), actions)
    ensures var s := After(Init(usable), actions);
      && |s.tasks| == |Answered(s)| + |s.queue| + InFlightCount(s) + |s.lost|
      && forall i | 0 <= i < |s.results| :: |s.results[i]| <= 1
  {
    hide Step;
    InitInv(usable);
    RunKeepsInv(Init(usable), actions);
    Counted(After(Init(usable), actions));
  }

  /** Calls leave the queue in the order they were accepted: the next one is the first that no
      one has taken, and no later call has a reply. */
  lemma FirstInFirstOut(usable: bool, actions: seq<Action>)
    requires Possible(Init(usable), actions)
    ensures var s := After(Init(usable), actions);
      s.queue != [] ==>
        && s.queue[0] == |s.tasks| - |s.queue|
        && (forall i | s.queue[0] <= i < |s.results| :: s.results[i] == [])
        && (s.worker.Busy? ==> s.worker.call < s.queue[0])
  {
    hide Step;
    InitInv(usable);
    RunKeepsInv(Init(usable), actions);
  }

  lemma {:induction false} LostOnlyByCancel(s: State, actions: seq<Action>)
    requires Possible(s, actions) && Cancel !in actions
    ensures After(s, actions).lost == s.lost
    decreases |actions|
  {
    if actions != [] {
      assert actions[0] in actions;
      LostOnlyByCancel(Step(s, actions[0]), actions[1..]);
    }
  }

  lemma {:induction false} StaysClosed(s: State, actions: seq<Action>)
    requires Inv(s) && s.closed && Possible(s, actions)
    ensures var t := After(s, actions);
      && t.closed && t.queue == [] && t.tasks == s.tasks && |t.results| == |s.results|
      && forall i | 0 <= i < |s.results| && s.results[i] != [] :: t.results[i] == s.results[i]
    decreases |actions|
  {
    if actions != [] {
      StepKeepsInv(s, actions[0]);
      var s' := Step(s, actions[0]);
      StaysClosed(s', actions[1..]);
      assert |s'.results| == |s.results|;
    }
  }

  /** Once closed, the session accepts nothing, queues nothing, and takes no reply back. */
  lemma NothingAfterClose(usable: bool, before: seq<Action>, after: seq<Action>)
    requires Possible(Init(usable), before) && After(Init(usable), before).closed
    requires Possible(After(Init(usable), before), after)
    ensures var s := After(Init(usable), before);
      var t := After(s, after);
      && t.closed && t.queue == [] && t.tasks == s.tasks && |t.results| == |s.results|
      && forall i | 0 <= i < |s.results| && s.results[i] != [] :: t.results[i] == s.results[i]
  {
    hide Step;
    InitInv(usable);
    RunKeepsInv(Init(usable), before);
    RunKeepsInv(After(Init(usable), before), after);
    StaysClosed(After(Init(usable), before), after);
  }

  /** Without cancellations, a closed session whose worker is not inside a call has answered
      every call exactly once. */
  lemma ClosedMeansAnswered(usable: bool, actions: seq<Action>)
    requires Possible(Init(usable), actions) && Cancel !in actions
    ensures var s := After(Init(usable), actions);
      s.closed && !s.worker.Busy? ==> forall i | 0 <= i < |s.results| :: |s.results[i]| == 1
  {
    hide Step;
    InitInv(usable);
    RunKeepsInv(Init(usable), actions);
    LostOnlyByCancel(Init(usable), actions);
  }

  /** The closer tells every queued caller, and nobody else, that the session closes. */
  lemma CloseTellsTheQueued(s: State, i: nat)
    requires Inv(s) && InRange(s) && !s.closed && i < |s.results|
    ensures Step(s, Close).results[i] == if i in s.queue then [Closing] else s.results[i]
  {
    DrainedAt(s.results, s.queue, i);
    if i in s.queue {
      var k :| 0 <= k < |s.queue| && s.queue[k] == i;
      assert i >= Taken(s);
    }
  }

  // ---- what the replies say ----

  /** No reply invents an answer to a task the worker does not know. */
  ghost predicate Honest(s: State) {
    |s.results| == |s.tasks| &&
    forall i | 0 <= i < |s.results| && s.tasks[i].Unknown? :: forall r <- s.results[i] :: !r.Answer?
  }

  lemma {:induction false} DrainIsHonest(results: seq<seq<Reply>>, queue: seq<nat>, i: nat)
    requires (forall k <- queue :: k < |results|) && i < |results|
    requires forall r <- results[i] :: !r.Answer?
    ensures forall r <- Drained(results, queue)[i] :: !r.Answer?
    decreases |queue|
  {
    if queue != [] {
      assert queue[0] in queue;
      assert forall k <- queue[1..] :: k in queue;
      DrainIsHonest(Put(results, queue[0], Closing), queue[1..], i);
    }
  }

  lemma PutIsHonest(s: State, call: nat, reply: Reply)
    requires Honest(s) && call < |s.results| && (s.tasks[call].Unknown? ==> !reply.Answer?)
    ensures Honest(s.(results := Put(s.results, call, reply)))
  {
  }

  lemma StepIsHonest(s: State, a: Action)
    requires Honest(s) && InRange(s) && Enabled(s, a)
    ensures Honest(Step(s, a))
  {
    match a
    case Close =>
      if !s.closed {
        forall i | 0 <= i < |s.results| && s.tasks[i].Unknown?
          ensures forall r <- Drained(s.results, s.queue)[i] :: !r.Answer?
        {
          DrainIsHonest(s.results, s.queue, i);
        }
      }
    case Take =>
      assert s.queue[0] in s.queue;
      PutIsHonest(s, s.queue[0], ServerError(""));
    case Respond(reply) => PutIsHonest(s, s.worker.call, ReplyTo(s.tasks[s.worker.call], reply));
    case Call(_) =>
    case Tick =>
    case Cancel =>
    case Reconnect =>
  }

  lemma {:induction false} RunIsHonest(s: State, actions: seq<Action>)
    requires Possible(s, actions) && Honest(s)
    ensures Honest(After(s, actions))
    decreases |actions|
  {
    hide Honest, Step;
    if actions != [] {
      StepIsHonest(s, actions[0]);
      RunIsHonest(Step(s, actions[0]), actions[1..]);
    }
  }

  // ---- the worker's end ----

  /** A worker that has stopped under a closed session never comes back. */
  lemma {:induction false} StoppedForGood(s: State, actions: seq<Action>)
    requires s.closed && s.worker.Stopped? && Possible(s, actions)
    ensures After(s, actions).worker.Stopped? && After(s, actions).closed
    decreases |actions|
  {
    if actions != [] {
      StoppedForGood(Step(s, actions[0]), actions[1..]);
    }
  }

  /** Whatever its worker does next after a close, it leaves its loop: there is nothing to take,
      and an answer, a timeout or a cancellation ends at the loop's head. */
  lemma WorkerStopsAfterClose(s: State, a: Action)
    requires Inv(s) && InRange(s) && s.closed && Enabled(s, a)
    ensures !a.Take?
    ensures a.Respond? || a.Tick? || a.Cancel? || a.Reconnect? ==> Step(s, a).worker.Stopped?
    ensures a.Call? || a.Close? ==> Step(s, a) == s
  {
  }
}
