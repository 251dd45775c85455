/** The session object: a queue of requests that carry their own result queues, a closing flag
    and the worker's local variables. Each method is what runs between two suspensions
    (common/mcp_tool_call_conn.py); each does one action of McpProtocol. */
module McpSession {
  import opened PyValues
  import opened McpProtocol

  /** `asyncio.Queue()` as the callers make it. */
  class ResultQueue {
    var items: seq<Reply>

    constructor ()
      ensures items == []
    {
      items := [];
    }

    method Put(r: Reply)
      modifies this
      ensures items == old(items) + [r]
    {
      items := items + [r];
    }
  }

  datatype Request = Request(task: Task, results: ResultQueue)

  // ---- what a list of requests stands for ----

  ghost function BoxesOf(calls: seq<Request>): set<ResultQueue> {
    set i | 0 <= i < |calls| :: calls[i].results
  }

  function TasksOf(calls: seq<Request>): (r: seq<Task>)
    ensures |r| == |calls| && forall i :: 0 <= i < |r| ==> r[i] == calls[i].task
  {
    seq(|calls|, i requires 0 <= i < |calls| => calls[i].task)
  }

  ghost function ResultsOf(calls: seq<Request>): (r: seq<seq<Reply>>)
    reads BoxesOf(calls)
    ensures |r| == |calls| && forall i :: 0 <= i < |r| ==> r[i] == calls[i].results.items
  {
    if calls == [] then []
    else
      assert calls[|calls| - 1].results in BoxesOf(calls);
      assert BoxesOf(calls[..|calls| - 1]) <= BoxesOf(calls);
      ResultsOf(calls[..|calls| - 1]) + [calls[|calls| - 1].results.items]
  }

  /** The last `k` of `n` numbers. */
  function LastNumbers(n: nat, k: nat): (r: seq<nat>)
    requires k <= n
    ensures |r| == k && forall i :: 0 <= i < k ==> r[i] == n - k + i
  {
    seq(k, i requires 0 <= i < k => n - k + i)
  }

  lemma NoNumbers(n: nat)
    ensures LastNumbers(n, 0) == []
  {
  }

  ghost predicate Distinct(calls: seq<Request>) {
    forall i, j | 0 <= i < j < |calls| :: calls[i].results != calls[j].results
  }

  lemma GrownValues(calls: seq<Request>, c: Request, k: nat)
    requires k <= |calls|
    ensures TasksOf(calls + [c]) == TasksOf(calls) + [c.task]
    ensures LastNumbers(|calls| + 1, k + 1) == LastNumbers(|calls|, k) + [|calls|]
  {
  }

  lemma GrownResults(calls: seq<Request>, c: Request)
    ensures ResultsOf(calls + [c]) == ResultsOf(calls) + [c.results.items]
  {
    assert (calls + [c])[..|calls|] == calls;
  }

  lemma GrownDistinct(calls: seq<Request>, c: Request)
    requires Distinct(calls) && c.results !in BoxesOf(calls)
    ensures Distinct(calls + [c])
  {
    forall i | 0 <= i < |calls| ensures calls[i].results != c.results {
      assert calls[i].results in BoxesOf(calls);
    }
  }

  /** Putting into one result queue changes one history. */
  lemma OnePut(calls: seq<Request>, was: seq<seq<Reply>>, k: nat, reply: Reply)
    requires |was| == |calls| && k < |calls|
    requires calls[k].results.items == was[k] + [reply]
    requires forall i | 0 <= i < |calls| && i != k :: calls[i].results.items == was[i]
    ensures ResultsOf(calls) == McpProtocol.Put(was, k, reply)
  {
  }

  lemma RespondIs(s: State, reply: Reply)
    requires InRange(s) && Enabled(s, Respond(reply))
    ensures Step(s, Respond(reply))
         == s.(worker := Again(s.closed),
               results := McpProtocol.Put(s.results, s.worker.call, ReplyTo(s.tasks[s.worker.call], reply)))
  {
  }

  class Session {
    var queue: seq<Request>
    var close: bool
    var usable: bool              // there is a client and no error message
    var running: bool             // the worker is inside its loop
    var current: Option<Request>  // the request it is calling the client for
    ghost var calls: seq<Request> // every accepted request
    ghost var busy: nat           // the number of the current one
    ghost var lost: seq<nat>

    ghost predicate Valid()
      reads this
    {
      && Distinct(calls)
      && |queue| <= |calls| && queue == calls[|calls| - |queue|..]
      && (current.Some? ==> running && busy < |calls| && calls[busy] == current.value)
    }

    ghost function Abs(): (s: State)
      requires Valid()
      reads this, BoxesOf(calls)
      ensures InRange(s)
    {
      State(TasksOf(calls), LastNumbers(|calls|, |queue|), close,
            if !running then Stopped else if current.Some? then Busy(busy) else Waiting,
            usable, ResultsOf(calls), lost)
    }

    constructor (usable: bool)
      ensures Valid() && Abs() == Init(usable) && calls == []
    {
      queue, close, current := [], false, None;
      this.usable, running := usable, true;
      calls, busy, lost := [], 0, [];
    }

    /** `_call_mcp_server` up to its wait; a closed session refuses. */
    method Submit(task: Task) returns (results: Option<ResultQueue>)
      requires Valid()
      modifies this
      ensures Valid() && Abs() == Step(old(Abs()), Call(task))
      ensures results.None? <==> old(close)
      ensures results.Some? ==> fresh(results.value) && calls == old(calls) + [Request(task, results.value)]
      ensures results.None? ==> calls == old(calls)
    {
      if close {
        return None;
      }
      var box := new ResultQueue();
      assert box !in BoxesOf(calls);
      Enqueue(Request(task, box));
      results := Some(box);
    }

    method Enqueue(r: Request)
      requires Valid() && !close && r.results !in BoxesOf(calls) && r.results.items == []
      modifies this`queue, this`calls
      ensures Valid() && calls == old(calls) + [r] && queue == old(queue) + [r]
      ensures Abs() == Step(old(Abs()), Call(r.task))
    {
      hide Distinct, ResultsOf, TasksOf, LastNumbers, BoxesOf;
      GrownDistinct(calls, r);
      GrownValues(calls, r, |queue|);
      GrownResults(calls, r);
      queue := queue + [r];
      calls := calls + [r];
    }

    lemma AtHead()
      requires Valid() && queue != []
      ensures queue[0] == calls[|calls| - |queue|] && queue[1..] == calls[|calls| - |queue| + 1..]
      ensures Abs().queue[0] == |calls| - |queue|
      ensures Abs().queue[1..] == LastNumbers(|calls|, |queue| - 1)
    {
    }

    /** `get` on the queue. */
    method Pop() returns (r: Request)
      requires Valid() && queue != []
      modifies this`queue
      ensures Valid() && queue == old(queue[1..])
      ensures Abs() == old(Abs()).(queue := old(Abs().queue[1..]))
      ensures var k := old(Abs().queue[0]); k < |calls| && r == calls[k]
    {
      hide Distinct, ResultsOf, TasksOf, LastNumbers, BoxesOf, Drained;
      AtHead();
      r := queue[0];
      ghost var was := ResultsOf(calls);
      queue := queue[1..];
      assert ResultsOf(calls) == was;
    }

    /** The worker gets a request and starts its client call. */
    method StartCall()
      requires Valid() && usable && running && current.None? && queue != []
      modifies this
      ensures Valid() && calls == old(calls) && Abs() == Step(old(Abs()), Take)
    {
      hide Distinct, ResultsOf, TasksOf, LastNumbers, BoxesOf, Drained;
      busy := Abs().queue[0];
      var r := Pop();
      current := Some(r);
    }

    /** The head of the queue gets a reply and leaves. */
    method AnswerHead(reply: Reply)
      requires Valid() && queue != []
      modifies this`queue, BoxesOf(calls)
      ensures Valid() && queue == old(queue[1..])
      ensures Abs().queue == old(Abs().queue[1..])
      ensures Abs().results == McpProtocol.Put(old(Abs().results), old(Abs().queue[0]), reply)
    {
      hide Distinct, ResultsOf, TasksOf, LastNumbers, BoxesOf, Drained;
      ghost var k := Abs().queue[0];
      var request := Pop();
      PutReply(k, request, reply);
    }

    /** A reply goes into the result queue of one call. */
    method PutReply(ghost k: nat, request: Request, reply: Reply)
      requires Valid() && k < |calls| && calls[k] == request
      modifies BoxesOf(calls)
      ensures Valid() && Abs() == old(Abs()).(results := McpProtocol.Put(old(Abs().results), k, reply))
      ensures request.results.items == old(request.results.items) + [reply]
    {
      hide TasksOf, LastNumbers;
      ghost var was := ResultsOf(calls);
      assert request.results in BoxesOf(calls);
      request.results.Put(reply);
      OnePut(calls, was, k, reply);
    }

    /** Without a client the worker answers at once. */
    method AnswerBroken()
      requires Valid() && !usable && running && current.None? && queue != []
      modifies this, BoxesOf(calls)
      ensures Valid() && calls == old(calls) && Abs() == Step(old(Abs()), Take)
    {
      hide Distinct, ResultsOf, TasksOf, LastNumbers, BoxesOf, Drained;
      AnswerHead(ServerError(""));
      running := !close;
    }

    method TakeRequest()
      requires Valid() && Enabled(Abs(), Take)
      modifies this, BoxesOf(calls)
      ensures Valid() && calls == old(calls) && Abs() == Step(old(Abs()), Take)
    {
      if usable {
        StartCall();
      } else {
        AnswerBroken();
      }
    }

    /** The client call comes back; a task that names no client method never was one. */
    method Finish(reply: Reply)
      requires Valid() && Enabled(Abs(), Respond(reply))
      modifies this, BoxesOf(calls)
      ensures Valid() && calls == old(calls) && Abs() == Step(old(Abs()), Respond(reply))
      ensures var request := old(current.value);
        request.results.items
          == old(current.value.results.items) + [if request.task.Unknown? then UnknownTask else reply]
    {
      hide Distinct, ResultsOf, TasksOf, LastNumbers, BoxesOf, Drained, Step, McpProtocol.Put;
      RespondIs(Abs(), reply);
      TaskAt(busy);
      var request := current.value;
      var r := if request.task.Unknown? then UnknownTask else reply;
      PutReply(busy, request, r);
      current := None;
      running := !close;
    }

    lemma TaskAt(k: nat)
      requires Valid() && k < |calls|
      ensures Abs().tasks[k] == calls[k].task
    {
    }

    /** The wait for a request times out. */
    method WaitOver()
      requires Valid() && Enabled(Abs(), Tick)
      modifies this
      ensures Valid() && calls == old(calls) && Abs() == Step(old(Abs()), Tick)
    {
      hide Distinct, ResultsOf, TasksOf, LastNumbers, BoxesOf, Drained;
      running := !close;
    }

    method CancelWorker()
      requires Valid() && Enabled(Abs(), Cancel)
      modifies this
      ensures Valid() && calls == old(calls) && Abs() == Step(old(Abs()), Cancel)
    {
      hide Distinct, ResultsOf, TasksOf, LastNumbers, BoxesOf, Drained;
      if current.Some? {
        lost := lost + [busy];
      }
      current := None;
      running := false;
    }

    /** The loop entered once more, with an error message instead of a client. */
    method RestartBroken()
      requires Valid() && Enabled(Abs(), Reconnect)
      modifies this
      ensures Valid() && calls == old(calls) && Abs() == Step(old(Abs()), Reconnect)
    {
      hide Distinct, ResultsOf, TasksOf, LastNumbers, BoxesOf, Drained;
      usable := false;
      running := !close;
    }

    /** `close` on the session's own loop; putting into an unbounded queue never suspends, so
        the drain is one turn. */
    method CloseSession()
      requires Valid()
      modifies this, BoxesOf(calls)
      ensures Valid() && calls == old(calls) && Abs() == Step(old(Abs()), Close)
    {
      hide Distinct, ResultsOf, TasksOf, LastNumbers, BoxesOf, Drained;
      if close {
        return;
      }
      close := true;
      ghost var target := Drained(old(Abs()).results, old(Abs()).queue);
      while queue != []
        invariant Valid() && close && calls == old(calls)
        invariant usable == old(usable) && running == old(running)
        invariant current == old(current) && busy == old(busy) && lost == old(lost)
        invariant Drained(Abs().results, Abs().queue) == target
        decreases |queue|
      {
        DrainedUnfolds(Abs().results, Abs().queue);
        AnswerHead(Closing);
      }
      assert Abs().queue == [] by { NoNumbers(|calls|); }
      DrainedUnfolds(Abs().results, Abs().queue);
    }
  }
}
