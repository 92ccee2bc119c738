/**
 The tool-calling event stream of `stream_message`: up to ten model turns, each followed by the tool
 calls it asked for, under three policies.  The model, the tools, the approval wait and the database
 are oracles that may answer anything or raise; call ids are fresh.
 */
module ToolStream {
  import opened Options

  // ---------- the world ----------

  /** Chat modes as the loop tells them apart: "agent", "suggest", and every other mode. */
  datatype Mode = Agent | Suggest | OtherMode

  /** How an exception is classified: by httpx type, or as anything else. */
  datatype Failure = Connection | HttpStatus | Unexpected

  /** A requested call, defaults filled in; `Malformed` is one that cannot be read as a mapping. */
  datatype Call = Call(name: string, args: string) | Malformed

  datatype Chunk = Text(text: string) | ToolCalls(calls: seq<Call>) | Ignored

  /** What one model turn streams, and the exception that ends it, if one does. */
  datatype Turn = Turn(chunks: seq<Chunk>, failure: Option<Failure>)

  /** What executing a tool returns; `encodable` says whether its result can be encoded as JSON. */
  datatype ToolOutcome = ToolOutcome(success: bool, content: string, encodable: bool)

  datatype Approval = WaitFails(failure: Failure) | NoAnswer | Answer(approved: bool, modified: Option<string>)

  /** After the loop: the assistant message is committed or not, and the rest succeeds or not. */
  datatype Epilogue = CommitFails(failure: Failure) | FailsAfterCommit(failure: Failure) | Completes

  datatype World = World(
    turn: nat -> Turn, execute: nat -> ToolOutcome, ask: nat -> Approval,
    epilogue: Epilogue, deleteWorks: bool)

  // ---------- what the stream produces ----------

  datatype Status = PendingApproval | Ran(success: bool) | Denied | TimedOut

  datatype Event =
    | Token(text: string)
    | ToolCall(id: nat, name: string, args: string, iteration: nat)
    | ApprovalRequired(id: nat, name: string, args: string)
    | ToolResult(id: nat, name: string, status: Status)
    | Done
    | Error(failure: Failure)

  datatype Message =
    | Earlier(text: string)
    | Assistant(text: string, calls: seq<Call>)
    | Tool(name: string, status: Status, content: string)

  datatype Execution = Execution(id: nat, name: string, args: string, approved: bool)

  const MAX_TOOL_ITERATIONS: nat := 10

  const AUTO_EXECUTE_TOOLS: set<string> := {
    "web_search", "code_read",
    "brevo_get_account", "brevo_list_contacts", "brevo_list_templates", "brevo_list_campaigns"
  }

  // ---------- one tool call ----------

  /** Events of one call, the message it adds, the execution it performs, and how it may fail. */
  datatype CallOutcome = CallOutcome(
    events: seq<Event>, reply: Option<Message>, executed: Option<Execution>, failure: Option<Failure>)

  /** What the policy says about a call: refuse it, run it, or fail while waiting for the user. */
  datatype Decision = Refuse(status: Status) | Run(args: string, approved: bool) | Abort(failure: Failure)

  predicate NeedsApproval(mode: Mode, name: string) {
    mode != Suggest && !(mode == Agent && name in AUTO_EXECUTE_TOOLS)
  }

  function Decide(mode: Mode, name: string, args: string, answer: Approval): Decision {
    if mode == Suggest then Refuse(PendingApproval)
    else if !NeedsApproval(mode, name) then Run(args, false)
    else match answer
      case WaitFails(f) => Abort(f)
      case NoAnswer => Refuse(TimedOut)
      case Answer(false, _) => Refuse(Denied)
      case Answer(true, modified) => Run(if modified.Some? then modified.value else args, true)
  }

  /** The announcement, and the request for approval where one is needed. */
  function Announced(mode: Mode, name: string, args: string, id: nat, iteration: nat): seq<Event> {
    [ToolCall(id, name, args, iteration)]
    + (if NeedsApproval(mode, name) then [ApprovalRequired(id, name, args)] else [])
  }

  function Finish(name: string, id: nat, d: Decision, o: ToolOutcome): CallOutcome {
    match d
    case Abort(f) => CallOutcome([], None, None, Some(f))
    case Refuse(status) => CallOutcome([ToolResult(id, name, status)], Some(Tool(name, status, "")), None, None)
    case Run(args, approved) =>
      var x := Execution(id, name, args, approved);
      if o.encodable then
        CallOutcome([ToolResult(id, name, Ran(o.success))], Some(Tool(name, Ran(o.success), o.content)), Some(x), None)
      else CallOutcome([], None, Some(x), Some(Unexpected))
  }

  function PerformCall(mode: Mode, call: Call, id: nat, iteration: nat, world: World): CallOutcome {
    match call
    case Malformed => CallOutcome([], None, None, Some(Unexpected))
    case Call(name, args) =>
      var o := Finish(name, id, Decide(mode, name, args, world.ask(id)), world.execute(id));
      o.(events := Announced(mode, name, args, id, iteration) + o.events)
  }

  // ---------- the protocol ----------

  datatype Phase = Idle | Called(id: nat) | Asked(id: nat) | Ended | Broken

  /** The only event sequences the stream may emit, as an automaton. */
  function Next(p: Phase, e: Event): Phase {
    match p
    case Idle =>
      if e.Token? then Idle else if e.ToolCall? then Called(e.id) else if e.Done? || e.Error? then Ended else Broken
    case Called(id) =>
      if e.ApprovalRequired? && e.id == id then Asked(id)
      else if e.ToolResult? && e.id == id then Idle
      else if e.Error? then Ended else Broken
    case Asked(id) =>
      if e.ToolResult? && e.id == id then Idle else if e.Error? then Ended else Broken
    case Ended => Broken
    case Broken => Broken
  }

  function RunPhase(p: Phase, events: seq<Event>): Phase
    decreases |events|
  {
    if events == [] then p else RunPhase(Next(p, events[0]), events[1..])
  }

  function PhaseAfter(events: seq<Event>): Phase {
    RunPhase(Idle, events)
  }

  function TokenText(events: seq<Event>): string {
    if events == [] then "" else (if events[0].Token? then events[0].text else "") + TokenText(events[1..])
  }

  /** Call ids are announced once each, in increasing order, and all are below `bound`. */
  ghost predicate FreshCalls(events: seq<Event>, bound: nat) {
    events == [] ||
    var front, e := events[..|events| - 1], events[|events| - 1];
    if e.ToolCall? then e.id < bound && FreshCalls(front, e.id) else FreshCalls(front, bound)
  }

  lemma {:induction false} FreshMeans(events: seq<Event>, bound: nat)
    requires FreshCalls(events, bound)
    ensures forall i :: 0 <= i < |events| && events[i].ToolCall? ==> events[i].id < bound
    ensures forall i, j :: 0 <= i < j < |events| && events[i].ToolCall? && events[j].ToolCall? ==>
      events[i].id < events[j].id
  {
    if events != [] {
      var front, e := events[..|events| - 1], events[|events| - 1];
      FreshMeans(front, if e.ToolCall? then e.id else bound);
    }
  }

  lemma {:induction false} FreshBelow(events: seq<Event>, bound: nat, more: nat)
    requires FreshCalls(events, bound) && bound <= more
    ensures FreshCalls(events, more)
  {
    if events != [] && !events[|events| - 1].ToolCall? {
      FreshBelow(events[..|events| - 1], bound, more);
    }
  }

  lemma {:induction false} FreshAppend(events: seq<Event>, bound: nat, more: seq<Event>)
    requires FreshCalls(events, bound)
    requires forall k :: 0 <= k < |more| ==> !more[k].ToolCall?
    ensures FreshCalls(events + more, bound)
  {
    if more == [] {
      assert events + more == events;
    } else {
      var front, all := more[..|more| - 1], events + more;
      FreshAppend(events, bound, front);
      assert all[..|all| - 1] == events + front && all[|all| - 1] == more[|more| - 1];
    }
  }

  // ---------- execution policy ----------

  /** An execution is allowed: never in suggest mode, and outside the automatic set only when approved. */
  ghost predicate Allowed(mode: Mode, world: World, events: seq<Event>, x: Execution) {
    && mode != Suggest
    && (exists c :: 0 <= c < |events| && CallOf(events[c], x))
    && (if x.approved then
          && ApprovedFor(world, x)
          && (exists a :: 0 <= a < |events| && AskedFor(events[a], world, x))
        else
          && mode == Agent && x.name in AUTO_EXECUTE_TOOLS
          && (exists c :: 0 <= c < |events| && CallOf(events[c], x) && events[c].args == x.args))
  }

  predicate CallOf(e: Event, x: Execution) {
    e.ToolCall? && e.id == x.id && e.name == x.name
  }

  /** The request for this call's approval; unless the user modified them, its arguments are the ones that run. */
  predicate AskedFor(e: Event, world: World, x: Execution) {
    && e.ApprovalRequired? && e.id == x.id && e.name == x.name
    && (world.ask(x.id).Answer? && world.ask(x.id).modified.None? ==> e.args == x.args)
  }

  /** The user's answer for this very call id was yes, and modified arguments were honoured. */
  ghost predicate ApprovedFor(world: World, x: Execution) {
    var answer := world.ask(x.id);
    answer.Answer? && answer.approved && (answer.modified.Some? ==> x.args == answer.modified.value)
  }

  /** Each call runs at most once, and only when allowed. */
  ghost predicate ExecutionsOk(mode: Mode, world: World, events: seq<Event>, executions: seq<Execution>, bound: nat) {
    executions == [] ||
    var front, x := executions[..|executions| - 1], executions[|executions| - 1];
    x.id < bound && Allowed(mode, world, events, x) && ExecutionsOk(mode, world, events, front, x.id)
  }

  /** In plain terms: every execution was allowed, and no two share a call id. */
  lemma {:induction false} ExecutionsMean(mode: Mode, world: World, events: seq<Event>, executions: seq<Execution>,
                                          bound: nat)
    requires ExecutionsOk(mode, world, events, executions, bound)
    ensures forall i :: 0 <= i < |executions| ==>
      executions[i].id < bound && Allowed(mode, world, events, executions[i])
    ensures forall i, j :: 0 <= i < j < |executions| ==> executions[i].id != executions[j].id
    ensures mode == Suggest ==> executions == []
  {
    if executions != [] {
      var front, x := executions[..|executions| - 1], executions[|executions| - 1];
      ExecutionsMean(mode, world, events, front, x.id);
      assert forall i :: 0 <= i < |front| ==> executions[i] == front[i];
    }
  }

  lemma {:induction false} ExecutionsGrow(mode: Mode, world: World, events: seq<Event>, more: seq<Event>,
                                          executions: seq<Execution>, bound: nat)
    requires ExecutionsOk(mode, world, events, executions, bound)
    ensures ExecutionsOk(mode, world, events + more, executions, bound)
  {
    if executions != [] {
      var front, x := executions[..|executions| - 1], executions[|executions| - 1];
      AllowedGrows(mode, world, events, more, x);
      ExecutionsGrow(mode, world, events, more, front, x.id);
    }
  }

  // ---------- what a call comes to, in plain terms ----------

  /** The user is asked about every call but those of suggest mode and the automatic ones of agent mode. */
  predicate Asks(mode: Mode, name: string) {
    mode == OtherMode || (mode == Agent && name !in AUTO_EXECUTE_TOOLS)
  }

  /** The arguments a call runs with, if it runs: its own, or those the user put in their place. */
  function RunsWith(mode: Mode, world: World, id: nat, name: string, args: string): Option<string> {
    if mode == Suggest then None
    else if mode == Agent && name in AUTO_EXECUTE_TOOLS then Some(args)
    else match world.ask(id)
      case Answer(true, None) => Some(args)
      case Answer(true, Some(modified)) => Some(modified)
      case _ => None
  }

  /** The status the result of a call reports. */
  predicate Tells(mode: Mode, world: World, id: nat, name: string, status: Status) {
    match status
    case PendingApproval => mode == Suggest
    case Ran(success) =>
      RunsWith(mode, world, id, name, "").Some? && world.execute(id).encodable && success == world.execute(id).success
    case Denied => Asks(mode, name) && world.ask(id).Answer? && !world.ask(id).approved
    case TimedOut => Asks(mode, name) && world.ask(id).NoAnswer?
  }

  /** What a readable call adds: the request for approval where one is asked for, the execution, result and reply. */
  ghost predicate CallSays(mode: Mode, world: World, id: nat, name: string, args: string, iteration: nat,
                           o: CallOutcome) {
    var announced := [ToolCall(id, name, args, iteration)]
      + (if Asks(mode, name) then [ApprovalRequired(id, name, args)] else []);
    var runs := RunsWith(mode, world, id, name, args);
    && o.executed == (if runs.Some? then Some(Execution(id, name, runs.value, Asks(mode, name))) else None)
    && (if o.failure.None? then
          o.reply.Some? && o.reply.value.Tool? && o.reply.value.name == name
          && o.reply.value.content == (if runs.Some? then world.execute(id).content else "")
          && Tells(mode, world, id, name, o.reply.value.status)
          && o.events == announced + [ToolResult(id, name, o.reply.value.status)]
        else
          o.reply.None? && o.events == announced
          && (if runs.Some? then !world.execute(id).encodable && o.failure == Some(Unexpected)
              else Asks(mode, name) && world.ask(id) == WaitFails(o.failure.value)))
  }

  /** A call comes to exactly that; one that cannot be read ends the stream. */
  lemma CallMeans(mode: Mode, call: Call, id: nat, iteration: nat, world: World)
    ensures var o := PerformCall(mode, call, id, iteration, world);
      match call
      case Malformed => o == CallOutcome([], None, None, Some(Unexpected))
      case Call(name, args) => CallSays(mode, world, id, name, args, iteration, o)
  {
  }

  /** The event tells what happened: a result the truth, a call that runs is among the executions, others are not. */
  ghost predicate Told(mode: Mode, world: World, e: Event, executions: seq<Execution>) {
    match e
    case ToolResult(id, name, status) => Tells(mode, world, id, name, status)
    case ToolCall(id, name, args, _) =>
      var runs := RunsWith(mode, world, id, name, args);
      if runs.Some? then Execution(id, name, runs.value, Asks(mode, name)) in executions
      else forall x :: x in executions ==> x.id != id
    case _ => true
  }

  /** A call is followed by its request for approval exactly if the user is asked. */
  ghost predicate AskedNext(mode: Mode, events: seq<Event>, i: nat) {
    i < |events| && events[i].ToolCall? ==>
      ((i + 1 < |events| && events[i + 1] == ApprovalRequired(events[i].id, events[i].name, events[i].args))
       <==> Asks(mode, events[i].name))
  }

  ghost predicate Truthful(mode: Mode, world: World, events: seq<Event>, executions: seq<Execution>) {
    AllTold(mode, world, events, executions) &&
    forall i {:trigger AskedNext(mode, events, i)} :: 0 <= i < |events| ==> AskedNext(mode, events, i)
  }

  ghost predicate AllTold(mode: Mode, world: World, events: seq<Event>, executions: seq<Execution>) {
    forall i {:trigger Told(mode, world, events[i], executions)} ::
      0 <= i < |events| ==> Told(mode, world, events[i], executions)
  }

  /** Executions of later calls change nothing for the earlier ones. */
  lemma ToldStays(mode: Mode, world: World, events: seq<Event>, executions: seq<Execution>, bound: nat,
                  done: seq<Execution>)
    requires FreshCalls(events, bound) && AllTold(mode, world, events, executions)
    requires forall x :: x in executions ==> x in done
    requires forall x :: x in done ==> x in executions || x.id >= bound
    ensures AllTold(mode, world, events, done)
  {
    FreshMeans(events, bound);
    forall i | 0 <= i < |events|
      ensures Told(mode, world, events[i], done)
    {
      assert Told(mode, world, events[i], executions);
    }
  }

  lemma TruthfulAppend(mode: Mode, world: World, events: seq<Event>, more: seq<Event>, executions: seq<Execution>)
    requires Truthful(mode, world, events, executions) && Truthful(mode, world, more, executions)
    requires more == [] || !more[0].ApprovalRequired?
    ensures Truthful(mode, world, events + more, executions)
  {
    var all := events + more;
    forall i | 0 <= i < |all|
      ensures Told(mode, world, all[i], executions) && AskedNext(mode, all, i)
    {
      if i < |events| {
        assert all[i] == events[i] && AskedNext(mode, events, i) && Told(mode, world, events[i], executions);
        assert i + 1 < |events| ==> all[i + 1] == events[i + 1];
      } else {
        var k := i - |events|;
        assert all[i] == more[k] && AskedNext(mode, more, k) && Told(mode, world, more[k], executions);
        assert k + 1 < |more| ==> all[i + 1] == more[k + 1];
      }
    }
  }

  lemma CallTruthful(mode: Mode, call: Call, id: nat, iteration: nat, world: World, executions: seq<Execution>)
    requires forall x :: x in executions ==> x.id < id
    ensures var o := PerformCall(mode, call, id, iteration, world);
      Truthful(mode, world, o.events, if o.executed.Some? then executions + [o.executed.value] else executions)
  {
    var o := PerformCall(mode, call, id, iteration, world);
    var done := if o.executed.Some? then executions + [o.executed.value] else executions;
    CallMeans(mode, call, id, iteration, world);
    if call.Call? {
      assert o.executed.Some? ==> o.executed.value in done;
      forall i | 0 <= i < |o.events|
        ensures Told(mode, world, o.events[i], done) && AskedNext(mode, o.events, i)
      {
      }
    }
  }

  lemma CallStaysTruthful(mode: Mode, call: Call, id: nat, iteration: nat, world: World, events: seq<Event>,
                          executions: seq<Execution>)
    requires Truthful(mode, world, events, executions) && FreshCalls(events, id)
    requires ExecutionsOk(mode, world, events, executions, id)
    ensures var o := PerformCall(mode, call, id, iteration, world);
      Truthful(mode, world, events + o.events,
               if o.executed.Some? then executions + [o.executed.value] else executions)
  {
    var o := PerformCall(mode, call, id, iteration, world);
    var done := if o.executed.Some? then executions + [o.executed.value] else executions;
    ExecutionsMean(mode, world, events, executions, id);
    CallMeans(mode, call, id, iteration, world);
    ToldStays(mode, world, events, executions, id, done);
    CallTruthful(mode, call, id, iteration, world, executions);
    TruthfulAppend(mode, world, events, o.events, done);
  }

  // ---------- history ----------

  /** An assistant message with at least one call, then one tool message per call, in order. */
  ghost predicate IsRound(r: seq<Message>) {
    && r != [] && r[0].Assistant? && r[0].calls != []
    && |r| == 1 + |r[0].calls|
    && forall k :: 0 <= k < |r[0].calls| ==> Replies(r[0].calls[k], Some(r[k + 1]))
  }

  /** The assistant message and the replies to its first `n` calls. */
  ghost predicate PartialRound(r: seq<Message>, text: string, calls: seq<Call>, n: nat) {
    && n <= |calls| && |r| == n + 1 && r[0] == Assistant(text, calls)
    && forall k :: 0 <= k < n ==> Replies(calls[k], Some(r[k + 1]))
  }

  /** The message is a tool message named like the call. */
  ghost predicate Replies(call: Call, reply: Option<Message>) {
    call.Call? && reply.Some? && reply.value.Tool? && reply.value.name == call.name
  }

  ghost function Flatten(rounds: seq<seq<Message>>): seq<Message> {
    if rounds == [] then [] else Flatten(rounds[..|rounds| - 1]) + rounds[|rounds| - 1]
  }

  ghost predicate Rounds(rounds: seq<seq<Message>>) {
    forall i :: 0 <= i < |rounds| ==> IsRound(rounds[i])
  }

  /** The history after `n` complete rounds. */
  ghost predicate HistoryOf(history: seq<Message>, initial: seq<Message>, rounds: seq<seq<Message>>, n: nat) {
    |rounds| == n && Rounds(rounds) && history == initial + Flatten(rounds)
  }

  /** The k-th model call saw the initial history and the first k rounds. */
  ghost predicate PromptsOk(prompts: seq<seq<Message>>, initial: seq<Message>, rounds: seq<seq<Message>>) {
    |rounds| <= |prompts| <= |rounds| + 1 &&
    forall k :: 0 <= k < |prompts| ==> HistoryOf(prompts[k], initial, rounds[..k], k)
  }

  /** Round k opens with what turn k streamed: its text and its last batch of calls. */
  ghost predicate AskedBy(world: World, rounds: seq<seq<Message>>) {
    forall k :: 0 <= k < |rounds| ==> OpensWith(rounds[k], world.turn(k).chunks)
  }

  ghost predicate OpensWith(round: seq<Message>, chunks: seq<Chunk>) {
    round != [] && round[0] == Assistant(TurnText(chunks), PendingCalls(chunks))
  }

  /** Loop-head bookkeeping: as many model calls as complete rounds, and the history they make. */
  ghost predicate Progress(world: World, initial: seq<Message>, prompts: seq<seq<Message>>,
                           rounds: seq<seq<Message>>, history: seq<Message>) {
    && |prompts| == |rounds| && HistoryOf(history, initial, rounds, |rounds|)
    && PromptsOk(prompts, initial, rounds) && AskedBy(world, rounds)
  }

  lemma ProgressTurn(world: World, initial: seq<Message>, prompts: seq<seq<Message>>,
                     rounds: seq<seq<Message>>, history: seq<Message>)
    requires Progress(world, initial, prompts, rounds, history)
    ensures PromptsOk(prompts + [history], initial, rounds)
  {
    assert rounds[..|rounds|] == rounds;
  }

  lemma ProgressRound(world: World, initial: seq<Message>, prompts: seq<seq<Message>>,
                      rounds: seq<seq<Message>>, history: seq<Message>, round: seq<Message>)
    requires Progress(world, initial, prompts, rounds, history)
    requires IsRound(round) && OpensWith(round, world.turn(|rounds|).chunks)
    ensures Progress(world, initial, prompts + [history], rounds + [round], history + round)
  {
    AddRound(history, initial, rounds, |rounds|, round);
    PromptsRound(initial, prompts, rounds, history, round);
  }

  lemma PromptsRound(initial: seq<Message>, prompts: seq<seq<Message>>, rounds: seq<seq<Message>>,
                     history: seq<Message>, round: seq<Message>)
    requires |prompts| == |rounds| && PromptsOk(prompts, initial, rounds)
    requires HistoryOf(history, initial, rounds, |rounds|)
    ensures PromptsOk(prompts + [history], initial, rounds + [round])
  {
    forall k | 0 <= k < |prompts| + 1
      ensures HistoryOf((prompts + [history])[k], initial, (rounds + [round])[..k], k)
    {
      assert (rounds + [round])[..k] == rounds[..k];
      assert rounds[..|rounds|] == rounds;
    }
  }

  lemma AddRound(history: seq<Message>, initial: seq<Message>, rounds: seq<seq<Message>>, n: nat, round: seq<Message>)
    requires HistoryOf(history, initial, rounds, n) && IsRound(round)
    ensures HistoryOf(history + round, initial, rounds + [round], n + 1)
  {
    assert (rounds + [round])[..n] == rounds;
  }

  // ---------- lemmas about one step ----------

  lemma {:induction false} RunConcat(p: Phase, a: seq<Event>, b: seq<Event>)
    ensures RunPhase(p, a + b) == RunPhase(RunPhase(p, a), b)
    decreases |a|
  {
    if a == [] {
      assert a + b == b;
    } else {
      assert (a + b)[1..] == a[1..] + b;
      RunConcat(Next(p, a[0]), a[1..], b);
    }
  }

  lemma {:induction false} TextConcat(a: seq<Event>, b: seq<Event>)
    ensures TokenText(a + b) == TokenText(a) + TokenText(b)
  {
    if a == [] {
      assert a + b == b;
    } else {
      assert (a + b)[1..] == a[1..] + b;
      TextConcat(a[1..], b);
    }
  }

  lemma PhaseOfOne(p: Phase, e: Event)
    ensures RunPhase(p, [e]) == Next(p, e) && TokenText([e]) == if e.Token? then e.text else ""
  {
    assert [e][1..] == [];
  }

  /** The announcement leaves the protocol waiting for this call. */
  lemma AnnouncedPhase(mode: Mode, name: string, args: string, id: nat, iteration: nat)
    ensures var es := Announced(mode, name, args, id, iteration);
            RunPhase(Idle, es) == (if NeedsApproval(mode, name) then Asked(id) else Called(id)) && TokenText(es) == ""
  {
    var e0, e1 := ToolCall(id, name, args, iteration), ApprovalRequired(id, name, args);
    PhaseOfOne(Idle, e0);
    PhaseOfOne(Called(id), e1);
    RunConcat(Idle, [e0], [e1]);
    TextConcat([e0], [e1]);
    assert [e0] + [] == [e0];
  }

  lemma FinishPhase(p: Phase, name: string, id: nat, d: Decision, o: ToolOutcome)
    requires p == Called(id) || p == Asked(id)
    ensures var r := Finish(name, id, d, o);
            RunPhase(p, r.events) == (if r.failure.None? then Idle else p) && TokenText(r.events) == ""
  {
    var r := Finish(name, id, d, o);
    if r.failure.None? {
      assert r.events == [r.events[0]];
      PhaseOfOne(p, r.events[0]);
    }
  }

  /** A call leaves the protocol idle when it completes, and waiting for its result when it fails. */
  lemma CallProtocol(mode: Mode, call: Call, id: nat, iteration: nat, world: World, events: seq<Event>)
    requires PhaseAfter(events) == Idle
    ensures var o := PerformCall(mode, call, id, iteration, world);
            && TokenText(events + o.events) == TokenText(events)
            && (o.failure.None? ==> PhaseAfter(events + o.events) == Idle)
            && PhaseAfter(events + o.events) in {Idle, Called(id), Asked(id)}
  {
    var o := PerformCall(mode, call, id, iteration, world);
    RunConcat(Idle, events, o.events);
    TextConcat(events, o.events);
    if call.Call? {
      var es := Announced(mode, call.name, call.args, id, iteration);
      var d := Decide(mode, call.name, call.args, world.ask(id));
      AnnouncedPhase(mode, call.name, call.args, id, iteration);
      FinishPhase(RunPhase(Idle, es), call.name, id, d, world.execute(id));
      RunConcat(Idle, es, Finish(call.name, id, d, world.execute(id)).events);
      TextConcat(es, Finish(call.name, id, d, world.execute(id)).events);
    }
  }

  /** A completed call answers with one tool message of its own name. */
  lemma CallReply(mode: Mode, call: Call, id: nat, iteration: nat, world: World)
    ensures var o := PerformCall(mode, call, id, iteration, world);
            && (o.failure.None? <==> o.reply.Some?)
            && (o.reply.Some? ==> call.Call? && o.reply.value.Tool? && o.reply.value.name == call.name)
  {
  }

  /** The events of a readable call: its announcement, then nothing that announces a call. */
  lemma CallEvents(mode: Mode, call: Call, id: nat, iteration: nat, world: World) returns (rest: seq<Event>)
    requires call.Call?
    ensures PerformCall(mode, call, id, iteration, world).events ==
      [ToolCall(id, call.name, call.args, iteration)] + rest
    ensures forall k :: 0 <= k < |rest| ==> !rest[k].ToolCall?
  {
    rest := PerformCall(mode, call, id, iteration, world).events[1..];
  }

  lemma FreshAnnounce(events: seq<Event>, id: nat, e: Event, rest: seq<Event>)
    requires FreshCalls(events, id) && e.ToolCall? && e.id == id
    requires forall k :: 0 <= k < |rest| ==> !rest[k].ToolCall?
    ensures FreshCalls(events + ([e] + rest), id + 1)
  {
    assert (events + [e])[..|events|] == events;
    FreshAppend(events + [e], id + 1, rest);
    Append(events, [e], rest);
  }

  /** Only the call itself is announced, so ids stay fresh. */
  lemma CallFresh(mode: Mode, call: Call, id: nat, iteration: nat, world: World, events: seq<Event>)
    requires FreshCalls(events, id)
    ensures FreshCalls(events + PerformCall(mode, call, id, iteration, world).events, id + 1)
  {
    if call.Malformed? {
      FreshBelow(events, id, id + 1);
      assert events + [] == events;
    } else {
      var rest := CallEvents(mode, call, id, iteration, world);
      FreshAnnounce(events, id, ToolCall(id, call.name, call.args, iteration), rest);
    }
  }

  lemma AllowedGrows(mode: Mode, world: World, events: seq<Event>, more: seq<Event>, x: Execution)
    requires Allowed(mode, world, events, x)
    ensures Allowed(mode, world, events + more, x)
  {
    var all := events + more;
    var c :| 0 <= c < |events| && CallOf(events[c], x);
    assert all[c] == events[c];
    if x.approved {
      var a :| 0 <= a < |events| && AskedFor(events[a], world, x);
      assert all[a] == events[a];
    } else {
      var d :| 0 <= d < |events| && CallOf(events[d], x) && events[d].args == x.args;
      assert all[d] == events[d];
    }
  }

  /** Whatever a call executes, it was allowed to. */
  lemma CallAllowed(mode: Mode, call: Call, id: nat, iteration: nat, world: World, events: seq<Event>)
    ensures var o := PerformCall(mode, call, id, iteration, world);
            o.executed.Some? ==> o.executed.value.id == id && Allowed(mode, world, events + o.events, o.executed.value)
  {
    var o := PerformCall(mode, call, id, iteration, world);
    if o.executed.Some? {
      var x, all := o.executed.value, events + o.events;
      assert all[|events|] == o.events[0] && CallOf(all[|events|], x);
      if x.approved {
        assert all[|events| + 1] == o.events[1] && AskedFor(o.events[1], world, x);
      }
    }
  }

  lemma CallExecutions(mode: Mode, call: Call, id: nat, iteration: nat, world: World, events: seq<Event>,
                       executions: seq<Execution>)
    requires ExecutionsOk(mode, world, events, executions, id)
    ensures var o := PerformCall(mode, call, id, iteration, world);
            var done := if o.executed.Some? then executions + [o.executed.value] else executions;
            ExecutionsOk(mode, world, events + o.events, done, id + 1)
  {
    var o := PerformCall(mode, call, id, iteration, world);
    ExecutionsGrow(mode, world, events, o.events, executions, id);
    CallAllowed(mode, call, id, iteration, world, events);
    if o.executed.Some? {
      assert (executions + [o.executed.value])[..|executions|] == executions;
    }
  }

  /** The standing invariant of a stream: its content is what it relayed, and every execution was allowed. */
  ghost predicate StreamOk(mode: Mode, world: World, events: seq<Event>, text: string, executions: seq<Execution>,
                           bound: nat) {
    && TokenText(events) == text
    && FreshCalls(events, bound)
    && ExecutionsOk(mode, world, events, executions, bound)
    && Truthful(mode, world, events, executions)
  }

  /** One call keeps the invariant; it leaves the protocol idle if it completes, and open if it fails. */
  lemma CallKeeps(mode: Mode, call: Call, id: nat, iteration: nat, world: World,
                  events: seq<Event>, text: string, executions: seq<Execution>)
    requires StreamOk(mode, world, events, text, executions, id) && PhaseAfter(events) == Idle
    ensures var o := PerformCall(mode, call, id, iteration, world);
            var done := if o.executed.Some? then executions + [o.executed.value] else executions;
            && StreamOk(mode, world, events + o.events, text, done, id + 1)
            && (o.failure.None? ==> PhaseAfter(events + o.events) == Idle)
            && PhaseAfter(events + o.events) !in {Ended, Broken}
  {
    CallProtocol(mode, call, id, iteration, world, events);
    CallFresh(mode, call, id, iteration, world, events);
    CallExecutions(mode, call, id, iteration, world, events, executions);
    CallStaysTruthful(mode, call, id, iteration, world, events, executions);
  }

  // ---------- one model turn ----------

  /** The token events a turn relays. */
  function TurnEvents(chunks: seq<Chunk>): seq<Event> {
    if chunks == [] then []
    else
      var c := chunks[|chunks| - 1];
      TurnEvents(chunks[..|chunks| - 1]) + (if c.Text? then [Token(c.text)] else [])
  }

  function TurnText(chunks: seq<Chunk>): string {
    if chunks == [] then ""
    else
      var c := chunks[|chunks| - 1];
      TurnText(chunks[..|chunks| - 1]) + (if c.Text? then c.text else "")
  }

  /** The calls a turn ends with: a later batch replaces an earlier one. */
  function PendingCalls(chunks: seq<Chunk>): seq<Call> {
    if chunks == [] then []
    else
      var c := chunks[|chunks| - 1];
      if c.ToolCalls? then c.calls else PendingCalls(chunks[..|chunks| - 1])
  }

  /** The last batch counts, whatever comes before it and whatever else follows. */
  lemma {:induction false} PendingIsLast(before: seq<Chunk>, calls: seq<Call>, behind: seq<Chunk>)
    requires forall c :: c in behind ==> !c.ToolCalls?
    ensures PendingCalls(before + [ToolCalls(calls)] + behind) == calls
    ensures PendingCalls(behind) == []
  {
    var all := before + [ToolCalls(calls)] + behind;
    if behind == [] {
      assert all[|all| - 1] == ToolCalls(calls);
    } else {
      var front := behind[..|behind| - 1];
      PendingIsLast(before, calls, front);
      assert all[..|all| - 1] == before + [ToolCalls(calls)] + front && all[|all| - 1] == behind[|behind| - 1];
    }
  }

  /** The texts of the chunks, one after the other. */
  lemma {:induction false} TurnTextConcat(a: seq<Chunk>, b: seq<Chunk>)
    ensures TurnText(a + b) == TurnText(a) + TurnText(b)
    ensures forall t: string :: TurnText([Text(t)]) == t
  {
    forall t: string
      ensures TurnText([Text(t)]) == t
    {
      assert [Text(t)][..0] == [];
    }
    if b == [] {
      assert a + b == a;
    } else {
      var front := b[..|b| - 1];
      TurnTextConcat(a, front);
      assert (a + b)[..|a + b| - 1] == a + front && (a + b)[|a + b| - 1] == b[|b| - 1];
      Append(TurnText(a), TurnText(front), if b[|b| - 1].Text? then b[|b| - 1].text else "");
    }
  }

  lemma Append<T>(a: seq<T>, b: seq<T>, c: seq<T>)
    ensures (a + b) + c == a + (b + c)
  {
  }

  lemma TurnPush(chunks: seq<Chunk>, i: nat)
    requires i < |chunks|
    ensures var c := chunks[i];
            && TurnEvents(chunks[..i + 1]) == TurnEvents(chunks[..i]) + (if c.Text? then [Token(c.text)] else [])
            && TurnText(chunks[..i + 1]) == TurnText(chunks[..i]) + (if c.Text? then c.text else "")
            && PendingCalls(chunks[..i + 1]) == if c.ToolCalls? then c.calls else PendingCalls(chunks[..i])
  {
    assert chunks[..i + 1][..i] == chunks[..i];
  }

  lemma {:induction false} TurnProtocol(chunks: seq<Chunk>)
    ensures RunPhase(Idle, TurnEvents(chunks)) == Idle
    ensures TokenText(TurnEvents(chunks)) == TurnText(chunks)
    ensures forall i :: 0 <= i < |TurnEvents(chunks)| ==> TurnEvents(chunks)[i].Token?
  {
    if chunks != [] {
      var front, c := chunks[..|chunks| - 1], chunks[|chunks| - 1];
      TurnProtocol(front);
      if c.Text? {
        RunConcat(Idle, TurnEvents(front), [Token(c.text)]);
        TextConcat(TurnEvents(front), [Token(c.text)]);
        PhaseOfOne(Idle, Token(c.text));
      } else {
        assert TurnEvents(front) + [] == TurnEvents(front);
      }
    }
  }

  // ---------- what the protocol means, event by event ----------

  lemma PhaseStep(events: seq<Event>, k: nat)
    requires k < |events|
    ensures PhaseAfter(events[..k + 1]) == Next(PhaseAfter(events[..k]), events[k])
  {
    assert events[..k + 1] == events[..k] + [events[k]];
    RunConcat(Idle, events[..k], [events[k]]);
    PhaseOfOne(PhaseAfter(events[..k]), events[k]);
  }

  /** A stream that is not broken at the end was not broken, nor ended, anywhere before. */
  lemma {:induction false} SoundPrefix(events: seq<Event>, k: nat)
    requires k <= |events| && PhaseAfter(events) != Broken
    ensures PhaseAfter(events[..k]) != Broken && (k < |events| ==> PhaseAfter(events[..k]) != Ended)
    decreases |events| - k
  {
    if k == |events| {
      assert events[..k] == events;
    } else {
      SoundPrefix(events, k + 1);
      PhaseStep(events, k);
    }
  }

  /** Result `j` answers call `i`: nothing but this call's approval request stands between them. */
  ghost predicate Answers(events: seq<Event>, i: nat, j: nat) {
    && i < j < |events| && events[i].ToolCall? && events[j].ToolResult? && events[j].id == events[i].id
    && forall k :: i < k < j ==> events[k].ApprovalRequired? && events[k].id == events[i].id
  }

  /** Call `i` was cut short: an error event follows, with at most its approval request in between. */
  ghost predicate CutShort(events: seq<Event>, i: nat) {
    && i < |events| - 1 && events[i].ToolCall? && events[|events| - 1].Error?
    && forall k :: i < k < |events| - 1 ==> events[k].ApprovalRequired? && events[k].id == events[i].id
  }

  lemma CallAnswered(events: seq<Event>, i: nat)
    requires PhaseAfter(events) in {Idle, Ended} && i < |events| && events[i].ToolCall?
    ensures CutShort(events, i) || exists j :: Answers(events, i, j)
  {
    SoundPrefix(events, i);
    SoundPrefix(events, i + 1);
    PhaseStep(events, i);
    assert events[..|events|] == events;
    PhaseStep(events, i + 1);
    SoundPrefix(events, i + 2);
    if events[i + 1].ToolResult? {
      assert Answers(events, i, i + 1);
    } else if events[i + 1].ApprovalRequired? {
      PhaseStep(events, i + 2);
      SoundPrefix(events, i + 3);
      if events[i + 2].ToolResult? {
        assert Answers(events, i, i + 2);
      }
    }
  }

  lemma ResultAnswers(events: seq<Event>, j: nat)
    requires PhaseAfter(events) in {Idle, Ended} && j < |events| && events[j].ToolResult?
    ensures exists i :: Answers(events, i, j)
  {
    SoundPrefix(events, j);
    SoundPrefix(events, j + 1);
    PhaseStep(events, j);
    var i := Waiting(events, j);
    assert Answers(events, i, j);
  }

  /** While a call is waiting, its announcement is the last thing but for its approval request. */
  lemma Waiting(events: seq<Event>, n: nat) returns (i: nat)
    requires n <= |events| && PhaseAfter(events[..n]) !in {Idle, Ended, Broken}
    ensures i < n && events[i].ToolCall? && PhaseAfter(events[..n]) in {Called(events[i].id), Asked(events[i].id)}
    ensures forall k :: i < k < n ==> events[k].ApprovalRequired? && events[k].id == events[i].id
  {
    assert events[..0] == [];
    PhaseStep(events, n - 1);
    if events[n - 1].ToolCall? {
      i := n - 1;
    } else {
      PhaseStep(events, n - 2);
      i := n - 2;
    }
  }

  /** `j` is the only result of call `i`. */
  ghost predicate OnlyAnswer(events: seq<Event>, i: nat, j: nat) {
    && Answers(events, i, j)
    && forall k :: 0 <= k < |events| && events[k].ToolResult? && events[k].id == events[i].id ==> k == j
  }

  /** Every announced call has exactly one result, before any other call, unless an error cut it short. */
  lemma OneResultPerCall(events: seq<Event>, bound: nat, i: nat)
    requires PhaseAfter(events) in {Idle, Ended} && FreshCalls(events, bound)
    requires i < |events| && events[i].ToolCall?
    ensures if CutShort(events, i) then
              forall j :: 0 <= j < |events| && events[j].ToolResult? ==> events[j].id != events[i].id
            else exists j :: OnlyAnswer(events, i, j)
  {
    CallAnswered(events, i);
    FreshMeans(events, bound);
    forall j | 0 <= j < |events| && events[j].ToolResult? && events[j].id == events[i].id
      ensures Answers(events, i, j)
    {
      ResultAnswers(events, j);
      var c :| Answers(events, c, j);
      assert c == i;
    }
    if !CutShort(events, i) {
      var j :| Answers(events, i, j);
      assert OnlyAnswer(events, i, j);
    }
  }

  /** A finished stream ends with its only done or error event. */
  lemma OneEnding(events: seq<Event>)
    requires PhaseAfter(events) == Ended
    ensures events != [] && (events[|events| - 1].Done? || events[|events| - 1].Error?)
    ensures forall k :: 0 <= k < |events| - 1 ==> !events[k].Done? && !events[k].Error?
  {
    assert events[..|events|] == events;
    PhaseStep(events, |events| - 1);
    SoundPrefix(events, |events| - 1);
    forall k | 0 <= k < |events| - 1
      ensures !events[k].Done? && !events[k].Error?
    {
      SoundPrefix(events, k);
      SoundPrefix(events, k + 1);
      PhaseStep(events, k);
    }
  }

  // ---------- the script of a run, as a function of the world ----------

  /** What a piece of the stream adds: events, executions, relayed text and model calls. */
  datatype Trace = Trace(events: seq<Event>, executions: seq<Execution>, text: string, modelCalls: nat)

  /** A piece of the stream: its trace, the next free call id, and the exception that ends it, if one does. */
  datatype Script = Script(trace: Trace, nextId: nat, failure: Option<Failure>)

  function Add(a: Trace, b: Trace): Trace {
    Trace(a.events + b.events, a.executions + b.executions, a.text + b.text, a.modelCalls + b.modelCalls)
  }

  function Nothing(): Trace {
    Trace([], [], "", 0)
  }

  /** One piece after another; an exception skips the second. */
  function Then(a: Script, b: Script): Script {
    if a.failure.Some? then a else Script(Add(a.trace, b.trace), b.nextId, b.failure)
  }

  /** What handling a call with a given id in a given pass adds. */
  type Act = (Call, nat, nat) -> Script

  function CallScript(mode: Mode, world: World, call: Call, id: nat, iteration: nat): Script {
    var o := PerformCall(mode, call, id, iteration, world);
    Script(Trace(o.events, if o.executed.Some? then [o.executed.value] else [], "", 0), id + 1, o.failure)
  }

  /** Calls are handled by this policy in this world. */
  ghost predicate Follows(act: Act, mode: Mode, world: World) {
    forall call: Call, id: nat, n: nat {:trigger CallScript(mode, world, call, id, n)} ::
      act(call, id, n) == CallScript(mode, world, call, id, n)
  }

  /** The calls of a round from the k-th on. */
  function RoundScript(act: Act, calls: seq<Call>, k: nat, id: nat, iteration: nat): Script
    requires k <= |calls|
    decreases |calls| - k
  {
    if k == |calls| then Script(Nothing(), id, None)
    else
      var first := act(calls[k], id, iteration);
      Then(first, RoundScript(act, calls, k + 1, first.nextId, iteration))
  }

  function TurnScript(turn: Turn, id: nat): Script {
    Script(Trace(TurnEvents(turn.chunks), [], TurnText(turn.chunks), 1), id, turn.failure)
  }

  /** One pass of the loop: a turn and, if it asked for calls, their round. */
  function PassScript(act: Act, world: World, iteration: nat, id: nat): Script {
    var turn := world.turn(iteration);
    Then(TurnScript(turn, id), RoundScript(act, PendingCalls(turn.chunks), 0, id, iteration))
  }

  /** What the n-th pass of the loop adds, given the next free call id. */
  type Pass = (nat, nat) -> Script

  /** Passes are made by this policy in this world. */
  ghost predicate Passes(pass: Pass, act: Act, world: World) {
    forall n: nat, id: nat {:trigger PassScript(act, world, n, id)} :: pass(n, id) == PassScript(act, world, n, id)
  }

  /** None of the first `n` turns fails. */
  ghost predicate Smooth(world: World, n: nat) {
    forall k :: 0 <= k < n ==> world.turn(k).failure.None?
  }

  lemma SmoothNext(world: World, n: nat)
    requires Smooth(world, n) && world.turn(n).failure.None?
    ensures Smooth(world, n + 1)
  {
  }

  /** Each of the first `n` turns asked for calls. */
  ghost predicate AllAsked(world: World, n: nat) {
    forall k :: 0 <= k < n ==> PendingCalls(world.turn(k).chunks) != []
  }

  /** How a loop of `n` model calls ended. */
  ghost predicate LoopEnd(world: World, mode: Mode, n: nat, failure: Option<Failure>) {
    && 1 <= n <= MAX_TOOL_ITERATIONS && AllAsked(world, n - 1) && Smooth(world, n - 1)
    && (world.turn(n - 1).failure.Some? ==> failure == world.turn(n - 1).failure)
    && (failure.None? ==>
          n == MAX_TOOL_ITERATIONS || mode == Suggest || PendingCalls(world.turn(n - 1).chunks) == [])
  }

  lemma LoopBound(world: World, mode: Mode)
    requires AllAsked(world, MAX_TOOL_ITERATIONS) && Smooth(world, MAX_TOOL_ITERATIONS)
    ensures LoopEnd(world, mode, MAX_TOOL_ITERATIONS, None)
  {
  }

  /** The loop goes on after a pass that asked for calls, outside suggest mode. */
  predicate GoesOn(mode: Mode, world: World, iteration: nat) {
    mode != Suggest && PendingCalls(world.turn(iteration).chunks) != []
  }

  /** The loop from a pass on. */
  function LoopScript(pass: Pass, mode: Mode, world: World, iteration: nat, id: nat): Script
    requires iteration <= MAX_TOOL_ITERATIONS
    decreases MAX_TOOL_ITERATIONS - iteration
  {
    if iteration == MAX_TOOL_ITERATIONS then Script(Nothing(), id, None)
    else
      var first := pass(iteration, id);
      if !GoesOn(mode, world, iteration) then first
      else Then(first, LoopScript(pass, mode, world, iteration + 1, first.nextId))
  }

  /** The exception the generator ends with, if any: the loop's, or else the epilogue's. */
  function FinalFailure(loop: Option<Failure>, world: World): Option<Failure> {
    if loop.Some? then loop
    else match world.epilogue
      case CommitFails(f) => Some(f)
      case FailsAfterCommit(f) => Some(f)
      case Completes => None
  }

  function Ending(failure: Option<Failure>): Event {
    if failure.Some? then Error(failure.value) else Done
  }

  /** The user message goes exactly when the loop ended well, the epilogue fails by httpx, and deleting works. */
  predicate DeletesUserMessage(loop: Option<Failure>, world: World) {
    loop.None? && world.deleteWorks && FinalFailure(loop, world).Some? && FinalFailure(loop, world).value != Unexpected
  }

  /** The last event: the loop's failure, or what the epilogue does. */
  ghost predicate EndsBy(world: World, loop: Option<Failure>, last: Event) {
    match loop
    case Some(f) => last == Error(f)
    case None =>
      match world.epilogue
      case CommitFails(f) => last == Error(f)
      case FailsAfterCommit(f) => last == Error(f)
      case Completes => last.Done?
  }

  lemma AddAssoc(a: Trace, b: Trace, c: Trace)
    ensures Add(Add(a, b), c) == Add(a, Add(b, c))
  {
    Append(a.events, b.events, c.events);
    Append(a.executions, b.executions, c.executions);
    Append(a.text, b.text, c.text);
  }

  lemma ThenAssoc(a: Script, b: Script, c: Script)
    ensures Then(Then(a, b), c) == Then(a, Then(b, c))
  {
    AddAssoc(a.trace, b.trace, c.trace);
  }

  lemma AddNothing(a: Trace)
    ensures Add(a, Nothing()) == a && Add(Nothing(), a) == a
  {
  }

  lemma CallTrace(act: Act, mode: Mode, world: World, call: Call, id: nat, iteration: nat, before: Trace, after: Trace)
    requires Follows(act, mode, world)
    requires var o := PerformCall(mode, call, id, iteration, world);
      after == before.(events := before.events + o.events,
                       executions := before.executions + if o.executed.Some? then [o.executed.value] else [])
    ensures var c := act(call, id, iteration);
      && after == Add(before, c.trace) && c.nextId == id + 1
      && c.failure == PerformCall(mode, call, id, iteration, world).failure
  {
    assert act(call, id, iteration) == CallScript(mode, world, call, id, iteration);
  }

  // ---------- what the script says ----------

  /** The text of the turns from one on, up to another. */
  function TextOfTurns(world: World, from: nat, upTo: nat): string
    requires from <= upTo
    decreases upTo - from
  {
    if from == upTo then "" else TurnText(world.turn(from).chunks) + TextOfTurns(world, from + 1, upTo)
  }

  /** A call relays no text, makes no model call, and announces itself unless it cannot be read. */
  ghost predicate Announces(act: Act) {
    forall call: Call, id: nat, n: nat ::
      && act(call, id, n).trace.text == "" && act(call, id, n).trace.modelCalls == 0
      && act(call, id, n).nextId == id + 1
      && (act(call, id, n).failure.None? ==>
            call.Call? && ToolCall(id, call.name, call.args, n) in act(call, id, n).trace.events)
  }

  lemma ActsAnnounce(act: Act, mode: Mode, world: World)
    requires Follows(act, mode, world)
    ensures Announces(act)
  {
    forall call: Call, id: nat, n: nat
      ensures act(call, id, n) == CallScript(mode, world, call, id, n)
      ensures act(call, id, n).failure.None? ==>
        call.Call? && ToolCall(id, call.name, call.args, n) in act(call, id, n).trace.events
    {
      if call.Call? {
        var rest := CallEvents(mode, call, id, n, world);
        assert CallScript(mode, world, call, id, n).trace.events[0] == ToolCall(id, call.name, call.args, n);
      }
    }
  }

  lemma {:induction false} RoundHasNoText(act: Act, calls: seq<Call>, k: nat, id: nat, iteration: nat)
    requires k <= |calls| && Announces(act)
    ensures RoundScript(act, calls, k, id, iteration).trace.text == ""
    ensures RoundScript(act, calls, k, id, iteration).trace.modelCalls == 0
    decreases |calls| - k
  {
    if k < |calls| {
      RoundHasNoText(act, calls, k + 1, id + 1, iteration);
    }
  }

  /** A pass makes one model call and relays the text of its turn; if it completes, it announces its calls. */
  ghost predicate Relays(pass: Pass, world: World) {
    forall n: nat, id: nat ::
      && pass(n, id).trace.modelCalls == 1 && pass(n, id).trace.text == TurnText(world.turn(n).chunks)
      && (pass(n, id).failure.None? ==> AllAnnounced(PendingCalls(world.turn(n).chunks), n, pass(n, id).trace.events))
  }

  ghost predicate AllAnnounced(calls: seq<Call>, n: nat, events: seq<Event>) {
    forall j :: 0 <= j < |calls| ==> calls[j].Call? && AnnouncedIn(calls[j], n, events)
  }

  /** The call is announced in this pass under some id, with its own name and arguments. */
  ghost predicate AnnouncedIn(call: Call, n: nat, events: seq<Event>)
    requires call.Call?
  {
    exists id :: ToolCall(id, call.name, call.args, n) in events
  }

  lemma PassesRelay(pass: Pass, act: Act, mode: Mode, world: World)
    requires Follows(act, mode, world) && Passes(pass, act, world)
    ensures Relays(pass, world)
  {
    ActsAnnounce(act, mode, world);
    forall n: nat, id: nat
      ensures pass(n, id) == PassScript(act, world, n, id)
      ensures pass(n, id).trace.modelCalls == 1 && pass(n, id).trace.text == TurnText(world.turn(n).chunks)
      ensures pass(n, id).failure.None? ==>
        AllAnnounced(PendingCalls(world.turn(n).chunks), n, pass(n, id).trace.events)
    {
      RoundHasNoText(act, PendingCalls(world.turn(n).chunks), 0, id, n);
      if PassScript(act, world, n, id).failure.None? {
        PassAnnounces(act, world, n, id);
      }
    }
  }

  /** The relayed text is the text of the turns made, in order. */
  lemma {:induction false} LoopText(pass: Pass, mode: Mode, world: World, iteration: nat, id: nat)
    requires iteration <= MAX_TOOL_ITERATIONS && Relays(pass, world)
    ensures var t := LoopScript(pass, mode, world, iteration, id).trace;
      t.text == TextOfTurns(world, iteration, iteration + t.modelCalls)
    decreases MAX_TOOL_ITERATIONS - iteration
  {
    if iteration < MAX_TOOL_ITERATIONS {
      var first := pass(iteration, id);
      TextOfOne(world, iteration);
      if GoesOn(mode, world, iteration) && first.failure.None? {
        LoopText(pass, mode, world, iteration + 1, first.nextId);
        TextOfMore(world, iteration, first, LoopScript(pass, mode, world, iteration + 1, first.nextId));
      }
    }
  }

  lemma TextOfOne(world: World, k: nat)
    ensures TextOfTurns(world, k, k + 1) == TurnText(world.turn(k).chunks)
  {
    assert TextOfTurns(world, k + 1, k + 1) == "";
  }

  lemma TextOfMore(world: World, k: nat, pass: Script, rest: Script)
    requires pass.failure.None? && pass.trace.modelCalls == 1 && pass.trace.text == TurnText(world.turn(k).chunks)
    requires rest.trace.text == TextOfTurns(world, k + 1, k + 1 + rest.trace.modelCalls)
    ensures var t := Then(pass, rest).trace; t.text == TextOfTurns(world, k, k + t.modelCalls)
  {
  }

  /** Nothing is left after the last call. */
  lemma RoundDone(act: Act, calls: seq<Call>, iteration: nat, past: Script)
    requires past.failure.None?
    ensures Then(past, RoundScript(act, calls, |calls|, past.nextId, iteration)) == past
  {
    AddNothing(past.trace);
  }

  /** One more call moves from what is left to what is done. */
  lemma RoundNext(act: Act, calls: seq<Call>, i: nat, iteration: nat, start: Trace, past: Script)
    requires i < |calls| && past.failure.None?
    ensures var next := act(calls[i], past.nextId, iteration);
      && Add(start, Then(past, next).trace) == Add(Add(start, past.trace), next.trace)
      && Then(past, RoundScript(act, calls, i, past.nextId, iteration)) ==
           if next.failure.Some? then Then(past, next)
           else Then(Then(past, next), RoundScript(act, calls, i + 1, next.nextId, iteration))
  {
    var next := act(calls[i], past.nextId, iteration);
    ThenAssoc(past, next, RoundScript(act, calls, i + 1, next.nextId, iteration));
    AddAssoc(start, past.trace, next.trace);
  }

  /** A pass in two steps, its turn and its round. */
  lemma PassParts(act: Act, world: World, iteration: nat, id: nat, start: Trace)
    ensures var turn := world.turn(iteration);
      var first, calls := TurnScript(turn, id), PendingCalls(turn.chunks);
      var pass, round := PassScript(act, world, iteration, id), RoundScript(act, calls, 0, id, iteration);
      && (turn.failure.Some? || calls == [] ==> pass == first)
      && (turn.failure.None? ==> pass.nextId == round.nextId && pass.failure == round.failure)
      && (turn.failure.None? ==> Add(start, pass.trace) == Add(Add(start, first.trace), round.trace))
  {
    var turn := world.turn(iteration);
    AddNothing(TurnScript(turn, id).trace);
    AddAssoc(start, TurnScript(turn, id).trace, RoundScript(act, PendingCalls(turn.chunks), 0, id, iteration).trace);
  }

  /** One more pass moves from what is left of the loop to what is done. */
  lemma LoopNext(pass: Pass, mode: Mode, world: World, iteration: nat, start: Trace, past: Script)
    requires iteration < MAX_TOOL_ITERATIONS && past.failure.None?
    ensures var next := pass(iteration, past.nextId);
      && Add(start, Then(past, next).trace) == Add(Add(start, past.trace), next.trace)
      && Then(past, LoopScript(pass, mode, world, iteration, past.nextId)) ==
           if next.failure.Some? || !GoesOn(mode, world, iteration) then Then(past, next)
           else Then(Then(past, next), LoopScript(pass, mode, world, iteration + 1, next.nextId))
  {
    var next := pass(iteration, past.nextId);
    ThenAssoc(past, next, LoopScript(pass, mode, world, iteration + 1, next.nextId));
    AddAssoc(start, past.trace, next.trace);
  }

  lemma LoopEnds(pass: Pass, mode: Mode, world: World, past: Script)
    requires past.failure.None?
    ensures Then(past, LoopScript(pass, mode, world, MAX_TOOL_ITERATIONS, past.nextId)) == past
  {
    AddNothing(past.trace);
  }

  /** And nothing is behind before the first. */
  lemma RoundStarts(start: Trace, id: nat, whole: Script)
    ensures Then(Script(Nothing(), id, None), whole) == whole && Add(start, Nothing()) == start
  {
    AddNothing(start);
    AddNothing(whole.trace);
  }

  /** Every call of a completed round is readable and announced under its own id, with its own arguments. */
  lemma {:induction false} RoundAnnounces(act: Act, calls: seq<Call>, k: nat, id: nat, iteration: nat, j: nat)
    requires Announces(act) && k <= j < |calls| && RoundScript(act, calls, k, id, iteration).failure.None?
    ensures calls[j].Call?
    ensures ToolCall(id + j - k, calls[j].name, calls[j].args, iteration)
         in RoundScript(act, calls, k, id, iteration).trace.events
    decreases j - k
  {
    var first := act(calls[k], id, iteration);
    var rest := RoundScript(act, calls, k + 1, id + 1, iteration);
    assert first.failure.None?;
    if j > k {
      RoundAnnounces(act, calls, k + 1, id + 1, iteration, j);
    }
  }

  lemma PassAnnounces(act: Act, world: World, iteration: nat, id: nat)
    requires Announces(act) && PassScript(act, world, iteration, id).failure.None?
    ensures AllAnnounced(PendingCalls(world.turn(iteration).chunks), iteration,
                         PassScript(act, world, iteration, id).trace.events)
  {
    var calls := PendingCalls(world.turn(iteration).chunks);
    forall j | 0 <= j < |calls|
      ensures calls[j].Call?
      ensures ToolCall(id + j, calls[j].name, calls[j].args, iteration)
           in PassScript(act, world, iteration, id).trace.events
    {
      RoundAnnounces(act, calls, 0, id, iteration, j);
    }
  }

  /** Every call a turn asked for is announced, if the loop went on after it or ended without an exception. */
  lemma {:induction false} LoopAnnounces(pass: Pass, mode: Mode, world: World, iteration: nat, id: nat, m: nat)
    requires Relays(pass, world) && iteration <= m && iteration < MAX_TOOL_ITERATIONS
    requires var loop := LoopScript(pass, mode, world, iteration, id);
      m + 1 < iteration + loop.trace.modelCalls || (m + 1 == iteration + loop.trace.modelCalls && loop.failure.None?)
    ensures AllAnnounced(PendingCalls(world.turn(m).chunks), m,
                         LoopScript(pass, mode, world, iteration, id).trace.events)
    decreases m - iteration
  {
    var first := pass(iteration, id);
    if m > iteration {
      LoopAnnounces(pass, mode, world, iteration + 1, first.nextId, m);
    }
  }

  /** Everything a loop was asked to say: its turns' texts in order, and the calls of every turn that it answered. */
  ghost predicate Says(world: World, text: string, modelCalls: nat, completed: bool, events: seq<Event>) {
    && text == TextOfTurns(world, 0, modelCalls)
    && forall m :: 0 <= m && (m + 1 < modelCalls || (m + 1 == modelCalls && completed)) ==>
         AllAnnounced(PendingCalls(world.turn(m).chunks), m, events)
  }

  lemma ScriptSays(pass: Pass, act: Act, mode: Mode, world: World, id: nat)
    requires Follows(act, mode, world) && Passes(pass, act, world)
    ensures var loop := LoopScript(pass, mode, world, 0, id);
      Says(world, loop.trace.text, loop.trace.modelCalls, loop.failure.None?, loop.trace.events)
  {
    var loop := LoopScript(pass, mode, world, 0, id);
    PassesRelay(pass, act, mode, world);
    LoopText(pass, mode, world, 0, id);
    forall m | 0 <= m && (m + 1 < loop.trace.modelCalls || (m + 1 == loop.trace.modelCalls && loop.failure.None?))
      ensures AllAnnounced(PendingCalls(world.turn(m).chunks), m, loop.trace.events)
    {
      LoopAnnounces(pass, mode, world, 0, id, m);
    }
  }

  lemma SaysMore(world: World, text: string, modelCalls: nat, completed: bool, less: bool, events: seq<Event>,
                 last: Event)
    requires Says(world, text, modelCalls, completed, events) && (less ==> completed)
    ensures Says(world, text, modelCalls, less, events + [last])
  {
    forall m | 0 <= m && (m + 1 < modelCalls || (m + 1 == modelCalls && less))
      ensures AllAnnounced(PendingCalls(world.turn(m).chunks), m, events + [last])
    {
      AnnouncedMore(PendingCalls(world.turn(m).chunks), m, events, last);
    }
  }

  lemma AnnouncedMore(calls: seq<Call>, n: nat, events: seq<Event>, last: Event)
    requires AllAnnounced(calls, n, events)
    ensures AllAnnounced(calls, n, events + [last])
  {
    forall j | 0 <= j < |calls|
      ensures AnnouncedIn(calls[j], n, events + [last])
    {
      var id :| ToolCall(id, calls[j].name, calls[j].args, n) in events;
      assert ToolCall(id, calls[j].name, calls[j].args, n) in events + [last];
    }
  }

  /** A model that cannot be reached on the first turn: the run ends in an error and the user message stays. */
  lemma EarlyFailureKeepsMessage(pass: Pass, act: Act, mode: Mode, world: World, id: nat)
    requires Passes(pass, act, world) && world.turn(0) == Turn([], Some(Connection))
    ensures var loop := LoopScript(pass, mode, world, 0, id);
      Ending(FinalFailure(loop.failure, world)) == Error(Connection) && !DeletesUserMessage(loop.failure, world)
  {
    assert pass(0, id) == PassScript(act, world, 0, id);
  }

  // ---------- the stream ----------

  class Stream {
    const mode: Mode
    const world: World
    const initial: seq<Message>
    /** The policy, as a function of the call. */
    ghost const act: Act
    /** What each pass of the loop adds. */
    ghost const pass: Pass

    var events: seq<Event>
    var history: seq<Message>
    var fullContent: string
    var executions: seq<Execution>
    var nextId: nat
    var modelCalls: nat
    var persisted: Option<string>
    // set once the generator has passed its import of the session factory
    var sessionBound: bool
    var userMessageDeleted: bool
    /** The history each model call was given. */
    ghost var prompts: seq<seq<Message>>

    ghost predicate Valid()
      reads this
    {
      StreamOk(mode, world, events, fullContent, executions, nextId) && Follows(act, mode, world)
      && Passes(pass, act, world)
    }

    /** Between calls and turns: nothing outstanding, nothing ended. */
    ghost predicate Ready()
      reads this
    {
      Valid() && PhaseAfter(events) == Idle && persisted.None? && !sessionBound && !userMessageDeleted
    }

    /** The stream so far. */
    ghost function Now(): Trace
      reads this
    {
      Trace(events, executions, fullContent, modelCalls)
    }

    constructor (mode: Mode, world: World, initial: seq<Message>)
      ensures this.mode == mode && this.world == world && this.initial == initial
      ensures Ready() && events == [] && history == initial && modelCalls == 0 && prompts == []
      ensures executions == [] && fullContent == ""
    {
      this.mode, this.world, this.initial := mode, world, initial;
      var how: Act := (call: Call, id: nat, n: nat) => CallScript(mode, world, call, id, n);
      act, pass := how, (n: nat, id: nat) => PassScript(how, world, n, id);
      events, history, fullContent, executions, nextId, modelCalls := [], initial, "", [], 0, 0;
      persisted, sessionBound, userMessageDeleted, prompts := None, false, false, [];
    }

    /** One model turn: tokens are relayed as they come, the last batch of calls is kept. */
    method StreamTurn(iteration: nat) returns (text: string, pending: seq<Call>, failure: Option<Failure>)
      requires Ready()
      modifies this
      ensures Ready() && history == old(history) && executions == old(executions) && nextId == old(nextId)
      ensures modelCalls == old(modelCalls) + 1 && prompts == old(prompts) + [history]
      ensures var turn := world.turn(iteration);
              && Now() == Add(old(Now()), TurnScript(turn, nextId).trace)
              && text == TurnText(turn.chunks)
              && pending == PendingCalls(turn.chunks) && failure == turn.failure
    {
      var turn := world.turn(iteration);
      modelCalls, prompts := modelCalls + 1, prompts + [history];
      TurnKeeps(mode, world, events, fullContent, turn.chunks, executions, nextId);
      text, pending := Relay(turn.chunks);
      failure := turn.failure;
    }

    /** The chunk loop: text is relayed at once, a batch of calls is remembered. */
    method Relay(chunks: seq<Chunk>) returns (text: string, pending: seq<Call>)
      modifies this`events, this`fullContent
      ensures events == old(events) + TurnEvents(chunks) && fullContent == old(fullContent) + TurnText(chunks)
      ensures text == TurnText(chunks) && pending == PendingCalls(chunks)
    {
      text, pending := "", [];
      ghost var events0, content0 := events, fullContent;
      assert chunks[..0] == [];
      for i := 0 to |chunks|
        invariant events == events0 + TurnEvents(chunks[..i])
        invariant fullContent == content0 + TurnText(chunks[..i])
        invariant text == TurnText(chunks[..i]) && pending == PendingCalls(chunks[..i])
      {
        TurnPush(chunks, i);
        if chunks[i].ToolCalls? {
          pending := chunks[i].calls;
        } else if chunks[i].Text? {
          Append(events0, TurnEvents(chunks[..i]), [Token(chunks[i].text)]);
          Append(content0, TurnText(chunks[..i]), chunks[i].text);
          text := text + chunks[i].text;
          fullContent := fullContent + chunks[i].text;
          events := events + [Token(chunks[i].text)];
        }
      }
      assert chunks[..|chunks|] == chunks;
    }

    /** One tool call of a round: the invariant kept, and one tool message of the call's name added. */
    method HandleCall(call: Call, iteration: nat) returns (failure: Option<Failure>, ghost reply: Option<Message>)
      requires Ready()
      modifies this`events, this`history, this`executions, this`nextId
      ensures Valid() && PhaseAfter(events) !in {Ended, Broken}
      ensures failure.None? ==> PhaseAfter(events) == Idle && Replies(call, reply)
      ensures reply.Some? ==> history == old(history) + [reply.value]
      // its events and its execution are the ones the policy gives this call
      ensures Follow(act(call, old(nextId), iteration), old(Now()), failure)
    {
      ghost var o := PerformCall(mode, call, nextId, iteration, world);
      CallKeeps(mode, call, nextId, iteration, world, events, fullContent, executions);
      CallReply(mode, call, nextId, iteration, world);
      failure := Perform(call, iteration, o);
      CallTrace(act, mode, world, call, old(nextId), iteration, old(Now()), Now());
      reply := o.reply;
    }

    /** The tool calls of one turn, in order; the round is complete unless one of them fails. */
    method HandleRound(text: string, calls: seq<Call>, iteration: nat)
      returns (failure: Option<Failure>, ghost round: seq<Message>)
      requires Ready() && calls != []
      modifies this`events, this`history, this`executions, this`nextId
      ensures Valid() && PhaseAfter(events) !in {Ended, Broken}
      ensures failure.None? ==> PhaseAfter(events) == Idle && history == old(history) + round
      ensures failure.None? ==> IsRound(round) && round[0] == Assistant(text, calls)
      ensures Follow(RoundScript(act, calls, 0, old(nextId), iteration), old(Now()), failure)
    {
      ghost var history0, start, id0, past := history, Now(), nextId, Script(Nothing(), nextId, None);
      history := history + [Assistant(text, calls)];
      round := [Assistant(text, calls)];
      RoundStarts(start, id0, RoundScript(act, calls, 0, id0, iteration));
      for i := 0 to |calls|
        invariant Midway(history0, text, calls, i, iteration, round, start, id0, past)
      {
        failure, round, past := NextCall(history0, text, calls, i, iteration, round, start, id0, past);
        if failure.Some? {
          return;
        }
      }
      RoundDone(act, calls, iteration, past);
      failure := None;
    }

    /** After `i` calls: the history so far, and the script of the round in two parts, done and left. */
    ghost predicate Midway(history0: seq<Message>, text: string, calls: seq<Call>, i: nat, iteration: nat,
                           round: seq<Message>, start: Trace, id0: nat, past: Script)
      reads this
    {
      && Ready() && history == history0 + round && PartialRound(round, text, calls, i)
      && past.failure.None? && past.nextId == nextId && Now() == Add(start, past.trace)
      && Then(past, RoundScript(act, calls, i, nextId, iteration)) == RoundScript(act, calls, 0, id0, iteration)
    }

    method NextCall(ghost history0: seq<Message>, ghost text: string, calls: seq<Call>, i: nat, iteration: nat,
                    ghost round: seq<Message>, ghost start: Trace, ghost id0: nat, ghost past: Script)
      returns (failure: Option<Failure>, ghost round': seq<Message>, ghost past': Script)
      requires i < |calls| && Midway(history0, text, calls, i, iteration, round, start, id0, past)
      modifies this`events, this`history, this`executions, this`nextId
      ensures Valid() && PhaseAfter(events) !in {Ended, Broken}
      ensures failure.None? ==> Midway(history0, text, calls, i + 1, iteration, round', start, id0, past')
      ensures failure.Some? ==> Follow(RoundScript(act, calls, 0, id0, iteration), start, failure)
    {
      ghost var next := act(calls[i], nextId, iteration);
      RoundNext(act, calls, i, iteration, start, past);
      ghost var reply;
      failure, reply := HandleCall(calls[i], iteration);
      past', round' := Then(past, next), round;
      if failure.None? {
        round' := round + [reply.value];
      }
    }

    /** The stream moved on by exactly the outcome `o`. */
    ghost predicate Performed(o: CallOutcome, failure: Option<Failure>, events0: seq<Event>, history0: seq<Message>,
                              executions0: seq<Execution>)
      reads this
    {
      && failure == o.failure && events == events0 + o.events
      && history == history0 + (if o.reply.Some? then [o.reply.value] else [])
      && executions == (if o.executed.Some? then executions0 + [o.executed.value] else executions0)
    }

    method Perform(call: Call, iteration: nat, ghost o: CallOutcome) returns (failure: Option<Failure>)
      requires o == PerformCall(mode, call, nextId, iteration, world)
      modifies this`events, this`history, this`executions, this`nextId
      ensures nextId == old(nextId) + 1 && Performed(o, failure, old(events), old(history), old(executions))
    {
      var id := nextId;
      nextId := nextId + 1;
      if call.Malformed? {
        return Some(Unexpected);
      }
      events := events + [ToolCall(id, call.name, call.args, iteration)];
      if NeedsApproval(mode, call.name) {
        events := events + [ApprovalRequired(id, call.name, call.args)];
      }
      assert events == old(events) + Announced(mode, call.name, call.args, id, iteration);
      var decision := Decide(mode, call.name, call.args, world.ask(id));
      failure := Conclude(call.name, id, decision);
      assert events == old(events) + o.events;
    }

    /** Carries a decision out. */
    method Conclude(name: string, id: nat, decision: Decision) returns (failure: Option<Failure>)
      modifies this`events, this`history, this`executions
      ensures var o := Finish(name, id, decision, world.execute(id));
              && failure == o.failure && events == old(events) + o.events
              && history == old(history) + (if o.reply.Some? then [o.reply.value] else [])
              && executions == (if o.executed.Some? then old(executions) + [o.executed.value] else old(executions))
    {
      var status, content := PendingApproval, "";
      match decision {
        case Abort(f) =>
          return Some(f);
        case Refuse(s) =>
          status := s;
        case Run(args, approved) =>
          executions := executions + [Execution(id, name, args, approved)];
          var outcome := world.execute(id);
          if !outcome.encodable {
            return Some(Unexpected);
          }
          status, content := Ran(outcome.success), outcome.content;
      }
      events := events + [ToolResult(id, name, status)];
      history := history + [Tool(name, status, content)];
      failure := None;
    }

    /** What holds at every loop head: the model's n-th call sees the initial history and n complete rounds. */
    ghost predicate LoopHead(n: nat, rounds: seq<seq<Message>>)
      reads this
    {
      && Ready() && modelCalls == |prompts| == n
      && Progress(world, initial, prompts, rounds, history)
      && Smooth(world, n)
    }

    /** Nothing was persisted or cleaned up yet, and the protocol is still open. */
    ghost predicate Open()
      reads this
    {
      Valid() && PhaseAfter(events) !in {Ended, Broken} && persisted.None? && !sessionBound && !userMessageDeleted
    }

    /** One pass of the loop: a model turn, and the round of calls it asked for, if it asked for any. */
    method Iterate(iteration: nat, ghost rounds0: seq<seq<Message>>)
      returns (failure: Option<Failure>, called: bool, ghost rounds: seq<seq<Message>>)
      requires LoopHead(iteration, rounds0)
      modifies this
      ensures Open() && modelCalls == |prompts| == iteration + 1
      ensures PromptsOk(prompts, initial, rounds) && AskedBy(world, rounds)
      ensures failure.None? ==> PhaseAfter(events) == Idle && Smooth(world, iteration + 1)
      ensures failure.None? && called ==> LoopHead(iteration + 1, rounds)
      ensures called <==> PendingCalls(world.turn(iteration).chunks) != []
      ensures world.turn(iteration).failure.Some? ==> failure == world.turn(iteration).failure
      ensures Follow(pass(iteration, old(nextId)), old(Now()), failure)
    {
      rounds := rounds0;
      ProgressTurn(world, initial, prompts, rounds, history);
      PassParts(act, world, iteration, nextId, Now());
      assert pass(iteration, nextId) == PassScript(act, world, iteration, nextId);
      ghost var prompts0 := prompts;
      var text, pending;
      text, pending, failure := StreamTurn(iteration);
      called := pending != [];
      if failure.None? {
        SmoothNext(world, iteration);
      }
      if failure.None? && called {
        failure, rounds := AnswerCalls(text, pending, iteration, prompts0, rounds0);
      }
    }

    /** The stream moved from `start` by this piece of script. */
    ghost predicate Follow(s: Script, start: Trace, failure: Option<Failure>)
      reads this
    {
      Now() == Add(start, s.trace) && nextId == s.nextId && failure == s.failure
    }

    /** The round of calls a turn asked for; if it completes, the loop can go on. */
    method AnswerCalls(text: string, calls: seq<Call>, iteration: nat, ghost prompts0: seq<seq<Message>>,
                       ghost rounds0: seq<seq<Message>>)
      returns (failure: Option<Failure>, ghost rounds: seq<seq<Message>>)
      requires Ready() && modelCalls == |prompts| == iteration + 1 && calls != []
      requires Progress(world, initial, prompts0, rounds0, history) && prompts == prompts0 + [history]
      requires PromptsOk(prompts, initial, rounds0)
      requires |rounds0| == iteration && OpensWith([Assistant(text, calls)], world.turn(iteration).chunks)
      requires Smooth(world, iteration + 1)
      modifies this`events, this`history, this`executions, this`nextId
      ensures Valid() && PhaseAfter(events) !in {Ended, Broken}
      ensures PromptsOk(prompts, initial, rounds) && AskedBy(world, rounds)
      ensures failure.None? ==> LoopHead(iteration + 1, rounds)
      ensures Follow(RoundScript(act, calls, 0, old(nextId), iteration), old(Now()), failure)
    {
      rounds := rounds0;
      ghost var round;
      failure, round := HandleRound(text, calls, iteration);
      if failure.None? {
        ProgressRound(world, initial, prompts0, rounds0, old(history), round);
        rounds := rounds0 + [round];
      }
    }

    /** The tool loop: at most ten model turns, and only one in suggest mode. */
    method Loop() returns (failure: Option<Failure>, ghost rounds: seq<seq<Message>>)
      requires LoopHead(0, [])
      modifies this
      ensures Open()
      ensures 1 <= modelCalls == |prompts| <= MAX_TOOL_ITERATIONS && (mode == Suggest ==> modelCalls == 1)
      ensures PromptsOk(prompts, initial, rounds) && AskedBy(world, rounds)
      ensures failure.None? ==>
        PhaseAfter(events) == Idle && Smooth(world, modelCalls)
      ensures LoopEnd(world, mode, modelCalls, failure)
      ensures Follow(LoopScript(pass, mode, world, 0, old(nextId)), old(Now()), failure)
    {
      rounds := [];
      ghost var start, id0, past := Now(), nextId, Script(Nothing(), nextId, None);
      RoundStarts(start, id0, LoopScript(pass, mode, world, 0, id0));
      for iteration := 0 to MAX_TOOL_ITERATIONS
        invariant LoopHead(iteration, rounds)
        invariant mode == Suggest ==> iteration == 0
        invariant AllAsked(world, iteration)
        invariant Looping(iteration, start, id0, past)
      {
        var stops;
        failure, stops, rounds, past := LoopPass(iteration, rounds, start, id0, past);
        if failure.Some? || stops {
          return;
        }
      }
      LoopEnds(pass, mode, world, past);
      LoopBound(world, mode);
      failure := None;
    }

    method LoopPass(iteration: nat, ghost rounds0: seq<seq<Message>>, ghost start: Trace, ghost id0: nat,
                    ghost past0: Script)
      returns (failure: Option<Failure>, stops: bool, ghost rounds: seq<seq<Message>>, ghost past: Script)
      requires LoopHead(iteration, rounds0) && iteration < MAX_TOOL_ITERATIONS && (mode == Suggest ==> iteration == 0)
      requires Looping(iteration, start, id0, past0) && AllAsked(world, iteration)
      modifies this
      ensures Open() && modelCalls == |prompts| == iteration + 1
      ensures PromptsOk(prompts, initial, rounds) && AskedBy(world, rounds)
      ensures failure.None? ==> PhaseAfter(events) == Idle && Smooth(world, iteration + 1)
      ensures failure.None? && !stops ==> mode != Suggest && LoopHead(iteration + 1, rounds)
      ensures failure.None? && !stops ==> AllAsked(world, iteration + 1)
      ensures failure.Some? || stops ==> LoopEnd(world, mode, iteration + 1, failure)
      ensures failure.None? && !stops ==> Looping(iteration + 1, start, id0, past)
      ensures failure.Some? || stops ==> Follow(LoopScript(pass, mode, world, 0, id0), start, failure)
    {
      LoopNext(pass, mode, world, iteration, start, past0);
      past := Then(past0, pass(iteration, nextId));
      var called;
      failure, called, rounds := Iterate(iteration, rounds0);
      stops := !called || mode == Suggest;
    }

    /** Before a pass: the script of the loop in two parts, done and left. */
    ghost predicate Looping(iteration: nat, start: Trace, id0: nat, past: Script)
      reads this
    {
      && iteration <= MAX_TOOL_ITERATIONS && past.failure.None? && past.nextId == nextId
      && Now() == Add(start, past.trace)
      && Then(past, LoopScript(pass, mode, world, iteration, nextId)) == LoopScript(pass, mode, world, 0, id0)
    }

    /** After the loop: commit the assistant message, follow up, report completion. */
    method Finalize() returns (failure: Option<Failure>)
      requires Ready()
      modifies this`sessionBound, this`persisted, this`events
      ensures sessionBound && TokenText(events) == fullContent
      ensures persisted == if world.epilogue.CommitFails? then None else Some(fullContent)
      ensures match world.epilogue
              case Completes => failure == None && events == old(events) + [Done]
              case CommitFails(f) => failure == Some(f) && events == old(events)
              case FailsAfterCommit(f) => failure == Some(f) && events == old(events)
    {
      sessionBound := true;
      match world.epilogue {
        case CommitFails(f) =>
          failure := Some(f);
        case FailsAfterCommit(f) =>
          persisted := Some(fullContent);
          failure := Some(f);
        case Completes =>
          persisted := Some(fullContent);
          TextConcat(events, [Done]);
          events := events + [Done];
          failure := None;
      }
    }

    /**
     The exception handlers.  For the two httpx kinds they try to delete the user message with the
     session factory, a local of the generator that is unbound until the loop is over.
     */
    method Report(failure: Failure)
      modifies this`events, this`userMessageDeleted
      ensures events == old(events) + [Error(failure)]
      ensures userMessageDeleted ==
        (old(userMessageDeleted) || (failure != Unexpected && sessionBound && world.deleteWorks))
    {
      if failure != Unexpected && sessionBound && world.deleteWorks {
        userMessageDeleted := true;
      }
      events := events + [Error(failure)];
    }

    /** The whole stream. */
    method Run() returns (ghost rounds: seq<seq<Message>>, ghost loop: Option<Failure>)
      requires LoopHead(0, [])
      modifies this
      // a well-formed event sequence that ends with its one done or error event
      ensures PhaseAfter(events) == Ended && FreshCalls(events, nextId)
      // done: the relayed text is the persisted text; whatever was persisted is what was relayed
      ensures TokenText(events) == fullContent
      ensures events[|events| - 1].Done? ==> persisted == Some(TokenText(events))
      ensures persisted.Some? ==> persisted.value == TokenText(events)
      // between one and ten model calls, one in suggest mode, each seeing only complete rounds
      ensures 1 <= modelCalls == |prompts| <= MAX_TOOL_ITERATIONS && (mode == Suggest ==> modelCalls == 1)
      ensures PromptsOk(prompts, initial, rounds) && AskedBy(world, rounds)
      // every turn but the last asked for calls; a loop that no failure ended stopped at its bound, in suggest mode,
      // or at a turn that asked for none; and a failing turn is the last
      ensures LoopEnd(world, mode, modelCalls, loop)
      // every execution was allowed, at most one per call; a call that may run does, and each result tells the truth
      ensures ExecutionsOk(mode, world, events, executions, nextId) && Truthful(mode, world, events, executions)
      // and the whole run is the script its world determines: what the loop adds, then the one ending,
      ensures var script := LoopScript(pass, mode, world, 0, old(nextId));
        && loop == script.failure
        && events == old(events) + script.trace.events + [Ending(FinalFailure(loop, world))]
        && executions == old(executions) + script.trace.executions
        && fullContent == old(fullContent) + script.trace.text
        && modelCalls == old(modelCalls) + script.trace.modelCalls
      // it ends by done exactly when neither the loop nor what follows fails, and otherwise by that failure,
      ensures EndsBy(world, loop, events[|events| - 1])
      // with the text persisted when the loop ended well and the commit worked,
      ensures persisted == if loop.None? && !world.epilogue.CommitFails? then Some(fullContent) else None
      // and the user message deleted only on an httpx failure after a loop that ended well
      ensures userMessageDeleted <==> DeletesUserMessage(loop, world)
    {
      var failure;
      failure, rounds := Loop();
      loop := failure;
      Close(failure);
    }

    /** The end of the generator, after a loop that ended with this exception or without one. */
    method Close(loop: Option<Failure>)
      requires Open() && (loop.None? ==> PhaseAfter(events) == Idle)
      modifies this`events, this`sessionBound, this`persisted, this`userMessageDeleted
      ensures PhaseAfter(events) == Ended && TokenText(events) == fullContent
      ensures FreshCalls(events, nextId) && ExecutionsOk(mode, world, events, executions, nextId)
      ensures Truthful(mode, world, events, executions)
      ensures events == old(events) + [Ending(FinalFailure(loop, world))]
      ensures persisted == if loop.None? && !world.epilogue.CommitFails? then Some(fullContent) else None
      ensures userMessageDeleted <==> DeletesUserMessage(loop, world)
    {
      var failure := loop;
      if loop.None? {
        failure := Finalize();
      }
      if failure.Some? {
        Report(failure.value);
      }
      Closed(mode, world, old(events), executions, nextId, events[|events| - 1]);
    }
  }

  lemma EndTruthful(mode: Mode, world: World, events: seq<Event>, last: Event, executions: seq<Execution>)
    requires Truthful(mode, world, events, executions) && (last.Error? || last.Done?)
    ensures Truthful(mode, world, events + [last], executions)
  {
    TruthfulAppend(mode, world, events, [last], executions);
  }

  /** Appending the ending to an open stream finishes it. */
  lemma Closed(mode: Mode, world: World, events: seq<Event>, executions: seq<Execution>, bound: nat, last: Event)
    requires PhaseAfter(events) !in {Ended, Broken} && (last.Error? || (last.Done? && PhaseAfter(events) == Idle))
    requires FreshCalls(events, bound) && ExecutionsOk(mode, world, events, executions, bound)
    requires Truthful(mode, world, events, executions)
    ensures var all := events + [last];
            && PhaseAfter(all) == Ended && TokenText(all) == TokenText(events)
            && FreshCalls(all, bound) && ExecutionsOk(mode, world, all, executions, bound)
            && Truthful(mode, world, all, executions)
  {
    EndTruthful(mode, world, events, last, executions);
    RunConcat(Idle, events, [last]);
    TextConcat(events, [last]);
    PhaseOfOne(PhaseAfter(events), last);
    FreshAppend(events, bound, [last]);
    ExecutionsGrow(mode, world, events, [last], executions, bound);
  }

  lemma TurnKeeps(mode: Mode, world: World, events: seq<Event>, text: string, chunks: seq<Chunk>,
                  executions: seq<Execution>, bound: nat)
    requires PhaseAfter(events) == Idle && StreamOk(mode, world, events, text, executions, bound)
    ensures var all := events + TurnEvents(chunks);
            PhaseAfter(all) == Idle && StreamOk(mode, world, all, text + TurnText(chunks), executions, bound)
  {
    TurnProtocol(chunks);
    RunConcat(Idle, events, TurnEvents(chunks));
    TextConcat(events, TurnEvents(chunks));
    FreshAppend(events, bound, TurnEvents(chunks));
    ExecutionsGrow(mode, world, events, TurnEvents(chunks), executions, bound);
    TruthfulAppend(mode, world, events, TurnEvents(chunks), executions);
  }

  lemma RunSays(pass: Pass, act: Act, mode: Mode, world: World, id: nat, events: seq<Event>, text: string,
                modelCalls: nat, last: Event, completed: bool)
    requires Follows(act, mode, world) && Passes(pass, act, world)
    requires var script := LoopScript(pass, mode, world, 0, id);
      && events == [] + script.trace.events + [last] && text == "" + script.trace.text
      && modelCalls == 0 + script.trace.modelCalls && (completed ==> script.failure.None?)
    ensures Says(world, text, modelCalls, completed, events)
  {
    var script := LoopScript(pass, mode, world, 0, id);
    ScriptSays(pass, act, mode, world, id);
    assert [] + script.trace.events == script.trace.events;
    SaysMore(world, text, modelCalls, script.failure.None?, completed, script.trace.events, last);
  }

  /** Running a stream that has done nothing yet. */
  method RunFresh(stream: Stream) returns (ghost loop: Option<Failure>)
    requires stream.LoopHead(0, []) && stream.events == [] && stream.fullContent == ""
    modifies stream
    ensures PhaseAfter(stream.events) == Ended && FreshCalls(stream.events, stream.nextId)
    ensures stream.events != [] && EndsBy(stream.world, loop, stream.events[|stream.events| - 1])
    ensures stream.userMessageDeleted <==> DeletesUserMessage(loop, stream.world)
    ensures LoopEnd(stream.world, stream.mode, stream.modelCalls, loop) && (stream.persisted.Some? ==> loop.None?)
    ensures ExecutionsOk(stream.mode, stream.world, stream.events, stream.executions, stream.nextId)
    ensures Truthful(stream.mode, stream.world, stream.events, stream.executions)
    ensures TokenText(stream.events) == stream.fullContent
    ensures stream.mode == Suggest ==> stream.modelCalls == 1
    ensures Says(stream.world, stream.fullContent, stream.modelCalls, stream.persisted.Some?, stream.events)
    ensures stream.persisted.Some? ==> stream.persisted.value == stream.fullContent
  {
    ghost var id := stream.nextId;
    ghost var rounds;
    rounds, loop := stream.Run();
    RunSays(stream.pass, stream.act, stream.mode, stream.world, id, stream.events, stream.fullContent,
            stream.modelCalls, Ending(FinalFailure(loop, stream.world)), stream.persisted.Some?);
  }

  /** A stream from its creation to its end says what its turns said, and announces the calls of each answered turn. */
  method Answer(mode: Mode, world: World, initial: seq<Message>)
    returns (stream: Stream, ghost loop: Option<Failure>)
    ensures fresh(stream) && PhaseAfter(stream.events) == Ended && FreshCalls(stream.events, stream.nextId)
    ensures 1 <= stream.modelCalls <= MAX_TOOL_ITERATIONS && (mode == Suggest ==> stream.modelCalls == 1)
    ensures stream.events != [] && EndsBy(world, loop, stream.events[|stream.events| - 1])
    ensures stream.userMessageDeleted <==>
      loop.None? && world.deleteWorks && stream.events[|stream.events| - 1] in {Error(Connection), Error(HttpStatus)}
    ensures LoopEnd(world, mode, stream.modelCalls, loop) && (stream.persisted.Some? ==> loop.None?)
    ensures ExecutionsOk(mode, world, stream.events, stream.executions, stream.nextId)
    ensures Truthful(mode, world, stream.events, stream.executions)
    ensures TokenText(stream.events) == stream.fullContent
    ensures Says(world, stream.fullContent, stream.modelCalls, stream.persisted.Some?, stream.events)
    ensures stream.persisted.Some? ==> stream.persisted.value == TextOfTurns(world, 0, stream.modelCalls)
  {
    stream := new Stream(mode, world, initial);
    loop := RunFresh(stream);
  }
}
