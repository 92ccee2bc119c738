/**
 Execution of automation actions as a protocol over the action table and the job queue.  Requests,
 deletions and workers interleave at every database or queue operation.  Row ids are never reused,
 and a worker job may run any number of times.
 */
module Automation {
  import opened Options

  datatype Row = Row(approved: bool, executedAt: Option<nat>, data: string)

  /** Where an execute request stands: it passed the checks, it holds the claim, or it must undo it. */
  datatype Request =
    | Checked(action: nat)
    | Claimed(action: nat, at: nat)
    | RollingBack(action: nat, at: nat)

  /**
   `rows` and `queue` are the table and the pending jobs, `requests` the execute calls in flight.
   `used`, `approved`, `enqueued` and `executed` record history: ids ever given out, ids ever approved,
   every job ever queued and every execution ever started.
   */
  datatype Backend = Backend(
    rows: map<nat, Row>, queue: seq<nat>, requests: map<nat, Request>,
    used: set<nat>, approved: set<nat>, enqueued: seq<nat>, executed: seq<nat>)

  datatype Step =
    | Create(id: nat, data: string)
    | Approve(id: nat, newData: Option<string>)
    | Delete(id: nat)
    | Load(req: nat, id: nat)
    | Claim(req: nat, now: nat)
    | Enqueue(req: nat)
    | EnqueueFails(req: nat)
    | LostReply(req: nat)
    | Rollback(req: nat)
    | Crash(req: nat)
    | Work(job: nat, done: bool)
    | Store(id: nat, now: nat, data: string)

  const EMPTY := Backend(map[], [], map[], {}, {}, [], [])

  // ---------- the guards ----------

  /** What a worker does with a job, from the row it finds. */
  datatype Verdict = NotFound | NotApproved | AlreadyExecuted | Execute

  function WorkerVerdict(rows: map<nat, Row>, id: nat): Verdict {
    if id !in rows then NotFound
    else if !rows[id].approved then NotApproved
    else if rows[id].executedAt.Some? then AlreadyExecuted
    else Execute
  }

  /** The checks an execute request makes on the row it loaded. */
  predicate MayExecute(rows: map<nat, Row>, id: nat) {
    id in rows && rows[id].approved && rows[id].executedAt.None?
  }

  // ---------- one atomic step; a step that is not enabled changes nothing ----------

  function Apply(s: Backend, step: Step): Backend {
    match step
    case Create(id, data) =>
      if id in s.used then s
      else s.(rows := s.rows[id := Row(false, None, data)], used := s.used + {id})
    case Approve(id, newData) =>
      if id !in s.rows then s
      else
        var row := s.rows[id].(approved := true, data := if newData.Some? then newData.value else s.rows[id].data);
        s.(rows := s.rows[id := row], approved := s.approved + {id})
    case Delete(id) => s.(rows := s.rows - {id})
    case Load(req, id) =>
      if req in s.requests || !MayExecute(s.rows, id) then s
      else s.(requests := s.requests[req := Checked(id)])
    case Claim(req, now) =>
      if req !in s.requests || !s.requests[req].Checked? then s
      else
        var id := s.requests[req].action;
        // update where id and executed_at is null; a row count of zero ends the request
        if id in s.rows && s.rows[id].executedAt.None? then
          s.(rows := s.rows[id := s.rows[id].(executedAt := Some(now))],
             requests := s.requests[req := Claimed(id, now)])
        else s.(requests := s.requests - {req})
    case Enqueue(req) =>
      if req !in s.requests || !s.requests[req].Claimed? then s
      else
        var id := s.requests[req].action;
        s.(queue := s.queue + [id], enqueued := s.enqueued + [id], requests := s.requests - {req})
    case EnqueueFails(req) =>
      if req !in s.requests || !s.requests[req].Claimed? then s
      else s.(requests := s.requests[req := RollingBack(s.requests[req].action, s.requests[req].at)])
    case LostReply(req) =>
      // the queue took the job, but the client sees an exception
      if req !in s.requests || !s.requests[req].Claimed? then s
      else
        var id := s.requests[req].action;
        s.(queue := s.queue + [id], enqueued := s.enqueued + [id],
           requests := s.requests[req := RollingBack(id, s.requests[req].at)])
    case Rollback(req) =>
      if req !in s.requests || !s.requests[req].RollingBack? then s
      else
        var id := s.requests[req].action;
        // unconditional: executed_at is cleared whoever set it
        s.(rows := if id in s.rows then s.rows[id := s.rows[id].(executedAt := None)] else s.rows,
           requests := s.requests - {req})
    case Crash(req) => s.(requests := s.requests - {req})
    case Work(job, done) =>
      if job >= |s.queue| then s
      else
        var id := s.queue[job];
        s.(executed := if WorkerVerdict(s.rows, id) == Execute then s.executed + [id] else s.executed,
           queue := if done then s.queue[..job] + s.queue[job + 1..] else s.queue)
    case Store(id, now, data) =>
      // an execution that has started writes its result
      if id !in s.executed || id !in s.rows then s
      else s.(rows := s.rows[id := s.rows[id].(executedAt := Some(now), data := data)])
  }

  function Run(s: Backend, steps: seq<Step>): Backend {
    if steps == [] then s else Apply(Run(s, steps[..|steps| - 1]), steps[|steps| - 1])
  }

  /** Runs in which a queue that reports failure has not taken the job. */
  predicate Honest(steps: seq<Step>) {
    forall i :: 0 <= i < |steps| ==> !steps[i].LostReply?
  }

  // ---------- the invariant ----------

  /** Request `r` holds the claim on its action. */
  predicate Holds(s: Backend, r: nat) {
    r in s.requests && !s.requests[r].Checked?
  }

  /** A claim is exclusive, its time is the row's, and its action is approved and not yet queued. */
  ghost predicate ClaimsOk(s: Backend) {
    && (forall r :: Holds(s, r) ==>
          var q := s.requests[r];
          && q.action in s.approved && q.action !in s.enqueued
          && (q.action in s.rows ==> s.rows[q.action].executedAt == Some(q.at)))
    && (forall r1, r2 :: Holds(s, r1) && Holds(s, r2) && s.requests[r1].action == s.requests[r2].action ==> r1 == r2)
  }

  /** Queued actions were approved, were queued once, and their rows, if left, are marked executed. */
  ghost predicate JobsOk(s: Backend) {
    && (forall id :: id in s.enqueued ==> id in s.approved && (id in s.rows ==> s.rows[id].executedAt.Some?))
    && (forall i, j :: 0 <= i < j < |s.enqueued| ==> s.enqueued[i] != s.enqueued[j])
    && (forall id :: id in s.queue ==> id in s.enqueued)
    && s.executed == []
  }

  ghost predicate TableOk(s: Backend) {
    && s.rows.Keys <= s.used && s.approved <= s.used
    && (forall id :: id in s.rows ==> (s.rows[id].approved <==> id in s.approved))
    && (forall r :: r in s.requests ==> s.requests[r].action in s.approved)
  }

  ghost predicate Inv(s: Backend) {
    ClaimsOk(s) && JobsOk(s) && TableOk(s)
  }

  lemma StepKeepsClaims(s: Backend, step: Step)
    requires Inv(s) && !step.LostReply?
    ensures ClaimsOk(Apply(s, step))
  {
    match step
    case Claim(req, now) => ClaimKeepsClaims(s, req, now);
    case Rollback(req) => RollbackKeepsClaims(s, req);
    case _ =>
  }

  lemma ClaimKeepsClaims(s: Backend, req: nat, now: nat)
    requires Inv(s)
    ensures ClaimsOk(Apply(s, Claim(req, now)))
  {
  }

  lemma RollbackKeepsClaims(s: Backend, req: nat)
    requires Inv(s)
    ensures ClaimsOk(Apply(s, Rollback(req)))
  {
  }

  lemma StepKeepsJobs(s: Backend, step: Step)
    requires Inv(s) && !step.LostReply?
    ensures JobsOk(Apply(s, step))
  {
  }

  lemma StepKeepsTable(s: Backend, step: Step)
    requires Inv(s)
    ensures TableOk(Apply(s, step))
  {
  }

  lemma {:induction false} RunInv(steps: seq<Step>)
    requires Honest(steps)
    ensures Inv(Run(EMPTY, steps))
  {
    if steps != [] {
      var s, last := Run(EMPTY, steps[..|steps| - 1]), steps[|steps| - 1];
      RunInv(steps[..|steps| - 1]);
      StepKeepsClaims(s, last);
      StepKeepsJobs(s, last);
      StepKeepsTable(s, last);
    }
  }

  // ---------- claim safety, over every interleaving ----------

  /** At most one job is ever queued for an action, and only for an approved one. */
  lemma AtMostOneJob(steps: seq<Step>)
    requires Honest(steps)
    ensures var s := Run(EMPTY, steps);
            && (forall i, j :: 0 <= i < j < |s.enqueued| ==> s.enqueued[i] != s.enqueued[j])
            && (forall id :: id in s.enqueued ==> exists k :: 0 <= k < |steps| && Approves(steps[k], id))
  {
    RunInv(steps);
    forall id | id in Run(EMPTY, steps).enqueued
      ensures exists k :: 0 <= k < |steps| && Approves(steps[k], id)
    {
      ApprovedByStep(steps, id);
    }
  }

  predicate Approves(step: Step, id: nat) {
    step.Approve? && step.id == id
  }

  /** Approval is never assumed: an action counts as approved only after an approve step for it. */
  lemma {:induction false} ApprovedByStep(steps: seq<Step>, id: nat)
    requires id in Run(EMPTY, steps).approved
    ensures exists k :: 0 <= k < |steps| && Approves(steps[k], id)
  {
    assert steps != [];
    var front, last := steps[..|steps| - 1], steps[|steps| - 1];
    if id in Run(EMPTY, front).approved {
      ApprovedByStep(front, id);
      var k :| 0 <= k < |front| && Approves(front[k], id);
      assert steps[k] == front[k];
    } else {
      assert Approves(steps[|steps| - 1], id);
    }
  }

  /** A claim is exclusive, and what a rollback clears is the very mark its own request set. */
  lemma RollbackClearsOwnClaim(steps: seq<Step>, req: nat)
    requires Honest(steps)
    requires req in Run(EMPTY, steps).requests && Run(EMPTY, steps).requests[req].RollingBack?
    ensures var s := Run(EMPTY, steps);
            var q := s.requests[req];
            && (forall other :: Holds(s, other) && s.requests[other].action == q.action ==> other == req)
            && q.action !in s.enqueued
            && (q.action in s.rows ==> s.rows[q.action].executedAt == Some(q.at))
            // and the action can be executed again afterwards
            && (q.action in s.rows ==> MayExecute(Apply(s, Rollback(req)).rows, q.action))
  {
    RunInv(steps);
    var s := Run(EMPTY, steps);
    assert Holds(s, req);
  }

  /**
   The worker refuses every job it is ever given: the claim that queued the job has already marked the
   row executed.  So no queued action is executed, on any run with an honest queue.
   */
  lemma NoJobExecutes(steps: seq<Step>)
    requires Honest(steps)
    ensures var s := Run(EMPTY, steps);
            && s.executed == []
            && (forall id :: id in s.queue ==>
                  WorkerVerdict(s.rows, id) == (if id in s.rows then AlreadyExecuted else NotFound))
  {
    RunInv(steps);
  }

  // ---------- a queue that truthfully refuses, and one that takes the job ----------

  /**
   After any honest run, a refused enqueue turns the claim into a rollback and queues nothing, and the rollback
   makes the action executable again.
   */
  lemma RefusedEnqueue(steps: seq<Step>, req: nat)
    requires Honest(steps)
    requires var s := Run(EMPTY, steps); req in s.requests && s.requests[req].Claimed?
    ensures var s := Run(EMPTY, steps);
      var q, s1 := s.requests[req], Run(EMPTY, steps + [EnqueueFails(req)]);
      s1 == s.(requests := s.requests[req := RollingBack(q.action, q.at)])
    ensures var s := Run(EMPTY, steps);
      var id, s2 := s.requests[req].action, Run(EMPTY, steps + [EnqueueFails(req), Rollback(req)]);
      && (id in s.rows ==> id in s2.rows && s2.rows[id] == s.rows[id].(executedAt := None) && s2.rows[id].approved)
      && s2.rows - {id} == s.rows - {id} && s2.rows.Keys == s.rows.Keys
      && s2.queue == s.queue && s2.enqueued == s.enqueued && id !in s2.enqueued && req !in s2.requests
  {
    RunInv(steps);
    var s := Run(EMPTY, steps);
    RefusedEffect(s, req);
    var s1 := Apply(s, EnqueueFails(req));
    var more := Extend(steps, s, EnqueueFails(req));
    more := Extend(more, s1, Rollback(req));
    assert more == steps + [EnqueueFails(req), Rollback(req)];
  }

  lemma RefusedEffect(s: Backend, req: nat)
    requires Inv(s) && req in s.requests && s.requests[req].Claimed?
    ensures var id, s2 := s.requests[req].action, Apply(Apply(s, EnqueueFails(req)), Rollback(req));
      && (id in s.rows ==> id in s2.rows && s2.rows[id] == s.rows[id].(executedAt := None) && s2.rows[id].approved)
      && s2.rows - {id} == s.rows - {id} && s2.rows.Keys == s.rows.Keys
      && s2.queue == s.queue && s2.enqueued == s.enqueued && id !in s2.enqueued && req !in s2.requests
  {
    assert Holds(s, req);
  }

  /** Such a run exists, and the same action can then be executed by the next request. */
  lemma RefusedEnqueueRun() returns (steps: seq<Step>)
    ensures Honest(steps) && |steps| > 2 && steps[|steps| - 2] == EnqueueFails(7) && steps[|steps| - 1] == Rollback(7)
    ensures var s := Run(EMPTY, steps); MayExecute(s.rows, 0) && s.queue == [] && s.requests == map[]
  {
    var before, s := ClaimedOnce();
    RefusedEnqueue(before, 7);
    steps := before + [EnqueueFails(7), Rollback(7)];
    var more := Extend(before, s, EnqueueFails(7));
    more := Extend(more, Apply(s, EnqueueFails(7)), Rollback(7));
    assert more == steps;
  }

  /** A request that meets no other queues the job of an approved, unmarked action, and marks the action. */
  lemma TakenEnqueue(steps: seq<Step>, req: nat, id: nat, now: nat)
    requires var s := Run(EMPTY, steps);
      req !in s.requests && id in s.rows && s.rows[id].approved && s.rows[id].executedAt.None?
    ensures var s, s' := Run(EMPTY, steps), Run(EMPTY, steps + [Load(req, id), Claim(req, now), Enqueue(req)]);
      && s'.queue == s.queue + [id] && s'.enqueued == s.enqueued + [id]
      && s'.rows == s.rows[id := s.rows[id].(executedAt := Some(now))] && s'.requests == s.requests
  {
    var s := Run(EMPTY, steps);
    var s1 := Apply(s, Load(req, id));
    var s2 := Apply(s1, Claim(req, now));
    var more := Extend(steps, s, Load(req, id));
    more := Extend(more, s1, Claim(req, now));
    more := Extend(more, s2, Enqueue(req));
    assert more == steps + [Load(req, id), Claim(req, now), Enqueue(req)];
  }

  // ---------- what one lost reply does, from anywhere ----------

  lemma Extend(steps: seq<Step>, s: Backend, step: Step) returns (longer: seq<Step>)
    requires Run(EMPTY, steps) == s
    ensures longer == steps + [step] && Run(EMPTY, longer) == Apply(s, step)
  {
    longer := steps + [step];
    assert longer[..|steps|] == steps;
  }

  /** The request loses the reply of its enqueue, rolls its claim back, and a worker takes the job. */
  function LostReplySteps(s: Backend, req: nat, done: bool): seq<Step> {
    [LostReply(req), Rollback(req), Work(|s.queue|, done)]
  }

  /**
   After any honest run, if a request that holds the claim on an existing row loses the reply, the worker finds
   the row unmarked and executes, and the action can be claimed again.
   */
  lemma LostReplyExecutes(steps: seq<Step>, req: nat, done: bool)
    requires Honest(steps)
    requires var s := Run(EMPTY, steps);
      req in s.requests && s.requests[req].Claimed? && s.requests[req].action in s.rows
    ensures var s := Run(EMPTY, steps);
            var id, s' := s.requests[req].action, Run(EMPTY, steps + LostReplySteps(s, req, done));
      && s'.executed == [id] && s'.enqueued == s.enqueued + [id] && MayExecute(s'.rows, id)
      && s'.requests == s.requests - {req}
  {
    RunInv(steps);
    var s := Run(EMPTY, steps);
    LostReplyEffect(s, req, done);
    var s1 := Apply(s, LostReply(req));
    var s2 := Apply(s1, Rollback(req));
    var more := Extend(steps, s, LostReply(req));
    more := Extend(more, s1, Rollback(req));
    more := Extend(more, s2, Work(|s.queue|, done));
    assert more == steps + LostReplySteps(s, req, done);
  }

  lemma LostReplyEffect(s: Backend, req: nat, done: bool)
    requires Inv(s) && req in s.requests && s.requests[req].Claimed? && s.requests[req].action in s.rows
    ensures var id := s.requests[req].action;
      var s' := Apply(Apply(Apply(s, LostReply(req)), Rollback(req)), Work(|s.queue|, done));
      && s'.executed == [id] && s'.enqueued == s.enqueued + [id] && MayExecute(s'.rows, id)
      && s'.requests == s.requests - {req}
  {
    var id := s.requests[req].action;
    assert Holds(s, req);
    var s2 := Apply(Apply(s, LostReply(req)), Rollback(req));
    assert s2.queue == s.queue + [id] && WorkerVerdict(s2.rows, id) == Execute;
  }

  /** The next request then queues the same action a second time. */
  function SecondQueuing(req: nat, id: nat, now: nat): seq<Step> {
    [Load(req, id), Claim(req, now), Enqueue(req)]
  }

  /** Both guarantees rest on the queue's honesty: from any claim, a lost reply leads to two jobs and an execution. */
  lemma LostReplyBreaksBoth(steps: seq<Step>, req: nat, again: nat, now: nat, done: bool)
    requires Honest(steps)
    requires var s := Run(EMPTY, steps);
      && req in s.requests && s.requests[req].Claimed? && s.requests[req].action in s.rows
      && (again == req || again !in s.requests)
    ensures var s := Run(EMPTY, steps);
            var id := s.requests[req].action;
            var s' := Run(EMPTY, steps + LostReplySteps(s, req, done) + SecondQueuing(again, id, now));
      s'.executed == [id] && s'.enqueued == s.enqueued + [id, id]
  {
    var s := Run(EMPTY, steps);
    var id, lost := s.requests[req].action, steps + LostReplySteps(s, req, done);
    LostReplyExecutes(steps, req, done);
    var t := Run(EMPTY, lost);
    SecondEffect(t, again, id, now);
    var t1 := Apply(t, Load(again, id));
    var t2 := Apply(t1, Claim(again, now));
    var more := Extend(lost, t, Load(again, id));
    more := Extend(more, t1, Claim(again, now));
    more := Extend(more, t2, Enqueue(again));
    assert more == lost + SecondQueuing(again, id, now);
  }

  lemma SecondEffect(t: Backend, again: nat, id: nat, now: nat)
    requires again !in t.requests && MayExecute(t.rows, id)
    ensures var t' := Apply(Apply(Apply(t, Load(again, id)), Claim(again, now)), Enqueue(again));
      t'.enqueued == t.enqueued + [id] && t'.executed == t.executed
  {
  }

  /** Such a run exists: one action, approved, claimed, and its reply lost. */
  lemma LostReplyRun() returns (steps: seq<Step>)
    ensures Run(EMPTY, steps).executed == [0] && Run(EMPTY, steps).enqueued == [0, 0]
  {
    var before, s := ClaimedOnce();
    LostReplyBreaksBoth(before, 7, 8, 2, true);
    steps := before + LostReplySteps(s, 7, true) + SecondQueuing(8, 0, 2);
  }

  lemma ClaimedOnce() returns (steps: seq<Step>, s: Backend)
    ensures Honest(steps) && Run(EMPTY, steps) == s && s.enqueued == [] && s.queue == []
    ensures s.requests == map[7 := Claimed(0, 1)] && 0 in s.rows && s.rows[0].approved
  {
    steps := Extend([], EMPTY, Create(0, ""));
    var s1 := Apply(EMPTY, Create(0, ""));
    steps := Extend(steps, s1, Approve(0, None));
    var s2 := Apply(s1, Approve(0, None));
    steps := Extend(steps, s2, Load(7, 0));
    var s3 := Apply(s2, Load(7, 0));
    steps := Extend(steps, s3, Claim(7, 1));
    s := Apply(s3, Claim(7, 1));
  }

  // ---------- the endpoints and the worker, step by step ----------

  datatype Response = Ok | Missing | BadRequest | ServerError

  /** The shared state; each method is the code between two points where another request can run. */
  class ActionService {
    var rows: map<nat, Row>
    var queue: seq<nat>
    var requests: map<nat, Request>
    ghost var used: set<nat>
    ghost var approved: set<nat>
    ghost var enqueued: seq<nat>
    ghost var executed: seq<nat>

    ghost function State(): Backend
      reads this
    {
      Backend(rows, queue, requests, used, approved, enqueued, executed)
    }

    constructor ()
      ensures State() == EMPTY
    {
      rows, queue, requests := map[], [], map[];
      used, approved, enqueued, executed := {}, {}, [], [];
    }

    /** create_action, with the fresh id the database gives out. */
    method CreateAction(id: nat, data: string)
      requires id !in used
      modifies this
      ensures State() == Apply(old(State()), Create(id, data))
      ensures id in rows && !rows[id].approved && rows[id].executedAt.None?
    {
      rows := rows[id := Row(false, None, data)];
      used := used + {id};
    }

    /** approve_action */
    method ApproveAction(id: nat, newData: Option<string>) returns (r: Response)
      modifies this
      ensures State() == Apply(old(State()), Approve(id, newData))
      ensures r == if id in old(rows) then Ok else Missing
    {
      if id !in rows {
        return Missing;
      }
      var row := rows[id];
      row := row.(approved := true);
      if newData.Some? {
        row := row.(data := newData.value);
      }
      rows := rows[id := row];
      approved := approved + {id};
      r := Ok;
    }

    /** delete_action */
    method DeleteAction(id: nat) returns (r: Response)
      modifies this
      ensures State() == Apply(old(State()), Delete(id))
      ensures r == if id in old(rows) then Ok else Missing
    {
      if id !in rows {
        assert rows - {id} == rows;
        return Missing;
      }
      rows := rows - {id};
      r := Ok;
    }

    /** execute_action, up to the conditional update: load and check. */
    method BeginExecute(req: nat, id: nat) returns (r: Response)
      requires req !in requests
      modifies this
      ensures State() == Apply(old(State()), Load(req, id))
      ensures r == if id !in old(rows) then Missing else if MayExecute(old(rows), id) then Ok else BadRequest
    {
      if id !in rows {
        return Missing;
      }
      if !rows[id].approved || rows[id].executedAt.Some? {
        return BadRequest;
      }
      requests := requests[req := Checked(id)];
      r := Ok;
    }

    /** The conditional update: only a row count of one goes on. */
    method ClaimExecution(req: nat, now: nat) returns (r: Response)
      requires req in requests && requests[req].Checked?
      modifies this
      ensures State() == Apply(old(State()), Claim(req, now))
      ensures r == Ok <==> Holds(State(), req)
    {
      var id := requests[req].action;
      if id in rows && rows[id].executedAt.None? {
        rows := rows[id := rows[id].(executedAt := Some(now))];
        requests := requests[req := Claimed(id, now)];
        r := Ok;
      } else {
        requests := requests - {req};
        r := BadRequest;
      }
    }

    /** Queueing the job, or the exception handler of a queue that did not take it. */
    method EnqueueJob(req: nat, taken: bool) returns (r: Response)
      requires req in requests && requests[req].Claimed?
      modifies this
      ensures State() == Apply(old(State()), if taken then Enqueue(req) else EnqueueFails(req))
      ensures r == if taken then Ok else ServerError
    {
      var id, at := requests[req].action, requests[req].at;
      if taken {
        queue, enqueued := queue + [id], enqueued + [id];
        requests := requests - {req};
        r := Ok;
      } else {
        requests := requests[req := RollingBack(id, at)];
        r := ServerError;
      }
    }

    /** execute_action from its load to its answer, with no other request in between. */
    method ExecuteAction(req: nat, id: nat, now: nat, taken: bool) returns (r: Response)
      requires req !in requests
      modifies this
      ensures r == if id !in old(rows) then Missing
        else if !old(rows)[id].approved || old(rows)[id].executedAt.Some? then BadRequest
        else if taken then Ok else ServerError
      // success marks the row and queues one job; every other answer leaves table and queue as they were
      ensures queue == old(queue) + if r.Ok? then [id] else []
      ensures rows == if r.Ok? then old(rows)[id := old(rows)[id].(executedAt := Some(now))] else old(rows)
      ensures requests == old(requests)
    {
      r := BeginExecute(req, id);
      if !r.Ok? {
        return;
      }
      r := ClaimExecution(req, now);
      if !r.Ok? {
        return;
      }
      assert id in rows;
      r := EnqueueJob(req, taken);
      if !taken {
        RollBack(req);
      }
    }

    /** Clearing executed_at again. */
    method RollBack(req: nat)
      requires req in requests && requests[req].RollingBack?
      modifies this
      ensures State() == Apply(old(State()), Rollback(req))
    {
      var id := requests[req].action;
      if id in rows {
        rows := rows[id := rows[id].(executedAt := None)];
      }
      requests := requests - {req};
    }

    /** execute_automation_action_task, up to its guards; `done` tells whether the job leaves the queue. */
    method StartJob(job: nat, done: bool) returns (v: Verdict)
      requires job < |queue|
      modifies this
      ensures State() == Apply(old(State()), Work(job, done))
      ensures v == WorkerVerdict(rows, old(queue[job]))
    {
      var id := queue[job];
      if done {
        queue := queue[..job] + queue[job + 1..];
      }
      if id !in rows {
        return NotFound;
      }
      if !rows[id].approved {
        return NotApproved;
      }
      if rows[id].executedAt.Some? {
        return AlreadyExecuted;
      }
      executed := executed + [id];
      v := Execute;
    }
  }
}
