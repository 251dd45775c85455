/** What the callers of an MCP session get: every reply in a result queue has its cause in the run,
    and every cause leaves its reply (common/mcp_tool_call_conn.py). */
module McpReplies {
  import opened McpProtocol

  /** The worker comes back from the client with an answer or an exception while it is in call `i`;
      a task the client has no method for gets an error of its own. */
  ghost predicate Responds(s: State, a: Action, i: nat, r: Reply) {
    && a.Respond? && s.worker == Busy(i) && i < |s.tasks|
    && match s.tasks[i]
       case ListTools => a.reply == r
       case ToolCall(_) => a.reply == r
       case Unknown(_) => r == UnknownTask
  }

  /** The worker takes call `i` and has no client for it. */
  ghost predicate Refuses(s: State, a: Action, i: nat, r: Reply) {
    a.Take? && !s.usable && s.queue != [] && s.queue[0] == i && r == ServerError("")
  }

  /** The session closes while call `i` waits in the queue. */
  ghost predicate Closes(s: State, a: Action, i: nat, r: Reply) {
    a.Close? && !s.closed && i in s.queue && r == Closing
  }

  ghost predicate Causes(s: State, a: Action, i: nat, r: Reply) {
    Responds(s, a, i, r) || Refuses(s, a, i, r) || Closes(s, a, i, r)
  }

  /** What stands in the result queue of call `i`, once it was accepted. */
  function RepliesAt(s: State, i: nat): seq<Reply> {
    if i < |s.results| then s.results[i] else []
  }

  lemma QueueIsDistinct(s: State)
    requires Inv(s)
    ensures forall a, b | 0 <= a < b < |s.queue| :: s.queue[a] != s.queue[b]
    ensures forall i <- s.queue :: s.results[i] == []
  {
    forall i | i in s.queue ensures s.results[i] == [] {
      var k :| 0 <= k < |s.queue| && s.queue[k] == i;
      assert |s.results[i]| == 0;
    }
  }

  /** One action adds to a result queue exactly what it causes. */
  lemma StepReplies(s: State, a: Action, i: nat)
    requires Inv(s) && InRange(s) && Enabled(s, a)
    ensures forall r :: r in RepliesAt(Step(s, a), i) <==> r in RepliesAt(s, i) || Causes(s, a, i, r)
    ensures RepliesAt(s, i) <= RepliesAt(Step(s, a), i)
  {
    QueueIsDistinct(s);
    if a.Close? && !s.closed && i < |s.results| {
      DrainedAt(s.results, s.queue, i);
    }
    if a.Take? {
      assert s.queue[0] in s.queue;
    }
    hide Inv;
  }

  /** Action `k` of the run causes the reply. */
  ghost predicate CausedAt(s: State, actions: seq<Action>, k: nat, i: nat, r: Reply)
    requires Possible(s, actions)
    decreases |actions|
  {
    k < |actions| &&
      if k == 0 then Causes(s, actions[0], i, r)
      else CausedAt(Step(s, actions[0]), actions[1..], k - 1, i, r)
  }

  lemma {:induction false} CausedFrom(s: State, actions: seq<Action>, i: nat)
    requires Inv(s) && Possible(s, actions)
    ensures forall r ::
      (r in RepliesAt(After(s, actions), i) <==> r in RepliesAt(s, i) || CausedSomewhere(s, actions, i, r))
    decreases |actions|
  {
    hide Inv, Step, Causes, RepliesAt, CausedSomewhere;
    if actions == [] {
      forall r ensures !CausedSomewhere(s, actions, i, r) {
        NothingCaused(s, i, r);
      }
    } else {
      StepKeepsInv(s, actions[0]);
      StepReplies(s, actions[0], i);
      CausedFrom(Step(s, actions[0]), actions[1..], i);
      forall r
        ensures CausedSomewhere(s, actions, i, r)
          <==> Causes(s, actions[0], i, r) || CausedSomewhere(Step(s, actions[0]), actions[1..], i, r)
      {
        CausedHeadOrTail(s, actions, i, r);
      }
    }
  }

  lemma NothingCaused(s: State, i: nat, r: Reply)
    ensures !CausedSomewhere(s, [], i, r)
  {
  }

  ghost predicate CausedSomewhere(s: State, actions: seq<Action>, i: nat, r: Reply)
    requires Possible(s, actions)
  {
    exists k: nat :: CausedAt(s, actions, k, i, r)
  }

  lemma CausedHeadOrTail(s: State, actions: seq<Action>, i: nat, r: Reply)
    requires Possible(s, actions) && actions != []
    ensures CausedSomewhere(s, actions, i, r)
      <==> Causes(s, actions[0], i, r) || CausedSomewhere(Step(s, actions[0]), actions[1..], i, r)
  {
    hide Step, Causes;
    var t := Step(s, actions[0]);
    if CausedSomewhere(s, actions, i, r) {
      var k: nat :| CausedAt(s, actions, k, i, r);
      if k > 0 {
        assert CausedAt(t, actions[1..], k - 1, i, r);
      }
    }
    if Causes(s, actions[0], i, r) {
      assert CausedAt(s, actions, 0, i, r);
    }
    if CausedSomewhere(t, actions[1..], i, r) {
      var k: nat :| CausedAt(t, actions[1..], k, i, r);
      assert CausedAt(s, actions, k + 1, i, r);
    }
  }

  /** Action `k`, and the state it finds. */
  lemma {:induction false} CausedIn(s: State, actions: seq<Action>, k: nat, i: nat, r: Reply)
    requires Possible(s, actions) && k < |actions|
    ensures Possible(s, actions[..k])
    ensures CausedAt(s, actions, k, i, r) <==> Causes(After(s, actions[..k]), actions[k], i, r)
    decreases k
  {
    hide Step, Causes;
    if k > 0 {
      assert actions[..k][1..] == actions[1..][..k - 1];
      CausedIn(Step(s, actions[0]), actions[1..], k - 1, i, r);
    }
  }

  ghost predicate CausedBy(usable: bool, actions: seq<Action>, k: nat, i: nat, r: Reply)
    requires Possible(Init(usable), actions)
  {
    && k < |actions| && Possible(Init(usable), actions[..k])
    && Causes(After(Init(usable), actions[..k]), actions[k], i, r)
  }

  /** Over every run a reply stands in the result queue of a call if and only if some action caused
      it: the client's return while the worker was in that call, the worker's refusal without a
      client, or the close of the session over the waiting call. */
  lemma RepliesAreCaused(usable: bool, actions: seq<Action>, i: nat, r: Reply)
    requires Possible(Init(usable), actions) && i < |After(Init(usable), actions).results|
    ensures r in After(Init(usable), actions).results[i] <==> exists k: nat :: CausedBy(usable, actions, k, i, r)
  {
    hide Step, Causes, Inv;
    InitInv(usable);
    var s := Init(usable);
    CausedFrom(s, actions, i);
    if CausedSomewhere(s, actions, i, r) {
      var k: nat :| CausedAt(s, actions, k, i, r);
      CausedIn(s, actions, k, i, r);
      assert CausedBy(usable, actions, k, i, r);
    }
    if k: nat :| CausedBy(usable, actions, k, i, r) {
      CausedIn(s, actions, k, i, r);
      assert CausedAt(s, actions, k, i, r);
    }
  }

  /** The action was this answer, and the worker was in call `i`. */
  ghost predicate AnsweredBy(usable: bool, actions: seq<Action>, k: nat, i: nat, value: string)
    requires Possible(Init(usable), actions)
  {
    && k < |actions| && actions[k] == Respond(Answer(value)) && Possible(Init(usable), actions[..k])
    && After(Init(usable), actions[..k]).worker == Busy(i)
  }

  /** An answer a caller gets was given by the client while the worker was in that very call. */
  lemma AnswersAreTheirs(usable: bool, actions: seq<Action>, i: nat, value: string)
    requires Possible(Init(usable), actions) && i < |After(Init(usable), actions).results|
    requires Answer(value) in After(Init(usable), actions).results[i]
    ensures exists k: nat :: AnsweredBy(usable, actions, k, i, value)
  {
    hide Step, After;
    RepliesAreCaused(usable, actions, i, Answer(value));
    var k: nat :| CausedBy(usable, actions, k, i, Answer(value));
    assert AnsweredBy(usable, actions, k, i, value);
  }

  /** What the client returns or raises is the one reply of the call the worker is in; no other
      result queue changes, and the worker of an open session waits for the next request. */
  lemma ReplyIsDelivered(usable: bool, actions: seq<Action>, reply: Reply, i: nat)
    requires Possible(Init(usable), actions)
    requires After(Init(usable), actions).worker == Busy(i) && InRange(After(Init(usable), actions))
    ensures var s := After(Init(usable), actions);
      var t := Step(s, Respond(reply));
      && t.results[i] == [if s.tasks[i].Unknown? then UnknownTask else reply]
      && |t.results| == |s.results| && (forall j | 0 <= j < |s.results| && j != i :: t.results[j] == s.results[j])
      && t.tasks == s.tasks && t.queue == s.queue && t.usable == s.usable && t.closed == s.closed && t.lost == s.lost
      && t.worker == if s.closed then Stopped else Waiting
  {
    InitInv(usable);
    RunKeepsInv(Init(usable), actions);
    hide After, Possible;
  }

  function Queued(s: State, task: Task): State {
    s.(tasks := s.tasks + [task], queue := s.queue + [|s.tasks|], results := s.results + [[]])
  }

  /** A call is queued last in an open session and refused by a closed one; a close empties the queue; a
      wait that runs out changes nothing but a closed session's worker, which stops; a worker that is
      cancelled loses the call it is in; and one that comes back without a client goes on refusing. */
  lemma OtherActions(s: State)
    requires InRange(s)
    ensures forall task :: Step(s, Call(task)) == (if s.closed then s else Queued(s, task))
    ensures Step(s, Close).(results := s.results) == if s.closed then s else s.(closed := true, queue := [])
    ensures s.worker.Waiting? ==> Step(s, Tick) == if s.closed then s.(worker := Stopped) else s
    ensures !s.worker.Stopped? ==>
      Step(s, Cancel) == s.(worker := Stopped, lost := match s.worker case Busy(i) => s.lost + [i] case _ => s.lost)
    ensures s.worker.Stopped? ==>
      Step(s, Reconnect) == s.(usable := false, worker := if s.closed then Stopped else Waiting)
  {
  }

  /** A session with a client hands the first waiting call to it, and refuses it without one. */
  lemma TakeIsHandedOver(usable: bool, actions: seq<Action>)
    requires Possible(Init(usable), actions) && InRange(After(Init(usable), actions))
    requires Enabled(After(Init(usable), actions), Take)
    ensures var s := After(Init(usable), actions);
      var t := Step(s, Take);
      var i := s.queue[0];
      && t.queue == s.queue[1..] && t.tasks == s.tasks && t.usable == s.usable && t.lost == s.lost
      && !s.closed && !t.closed && i < |s.results| == |t.results|
      && (forall j | 0 <= j < |s.results| && j != i :: t.results[j] == s.results[j])
      && if s.usable then t.worker == Busy(i) && t.results == s.results
         else t.worker == Waiting && t.results[i] == [ServerError("")]
  {
    InitInv(usable);
    RunKeepsInv(Init(usable), actions);
    hide After, Possible;
    var s := After(Init(usable), actions);
    assert s.queue[0] in s.queue;
    QueueIsDistinct(s);
  }
}
