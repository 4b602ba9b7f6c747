/** One agent run, written event by event (scripts/seed-dev.py, `llm_call`, `tool_call`, `agent_run`). */
module AgentRuns {
  import opened AgentTrace
  import opened CallBrackets
  import opened Texts
  import opened Timelines
  import opened Wrappers
  import Draws

  /**
   The tables the script draws from: nominal seconds of a reply by model, low and high
   seconds of a tool, and the errors a provider answers that are retried or end a run.
   */
  datatype Catalogue = Catalogue(
    models: map<string, real>, tools: map<string, (real, real)>, retryable: seq<string>, fatal: seq<string>)

  predicate Sound(c: Catalogue) {
    && c.retryable != [] && c.fatal != []
    && (forall m :: m in c.models ==> c.models[m] > 0.0)
    && forall t :: t in c.tools ==> 0.0 <= c.tools[t].0 <= c.tools[t].1
  }

  datatype Scenario = Scenario(workflow: string, agents: seq<Agent>)

  datatype Fate = Fine | LlmRetry | ToolError | Failing

  /** The scenario's agents, and which errors are worth another attempt. */
  function CastOf(c: Catalogue, scenario: Scenario): Cast { Cast(scenario.agents, c.retryable, c.fatal) }

  predicate Equipped(c: Catalogue, a: Agent) {
    && a.models != [] && a.least <= a.most
    && (forall m :: m in a.models ==> m in c.models)
    && forall t :: t in a.tools ==> t in c.tools
  }

  /** What `agent_run` raises on otherwise: a draw from nothing, or a model or tool it has no entry for. */
  predicate Playable(c: Catalogue, scenario: Scenario, outcome: Fate) {
    && Sound(c)
    && (outcome.Failing? ==> scenario.agents != [])
    && forall a :: a in scenario.agents ==> Equipped(c, a)
  }

  /** At least one agent, and at least one call each. */
  predicate CallsSomething(scenario: Scenario) {
    scenario.agents != [] && forall a :: a in scenario.agents ==> a.least >= 1
  }

  /** Every id handed out so far was numbered by an earlier length of the event list. */
  predicate IdsBelow(used: set<CallId>, n: nat) {
    forall id :: id in used ==> !id.AttemptId? && id.n < n
  }

  /** Calls balanced, and their ids all older than the next one. */
  ghost predicate Orderly(events: seq<Event>) {
    Balanced(events) && IdsBelow(CallsOf(events).value.used, |events|)
  }

  /** Low and high seconds of a step, by the node it belongs to. */
  type Steps = map<string, (real, real)>

  predicate Within(x: real, low: real, high: real) {
    low <= x <= high
  }

  /** How long after the event before it an event comes. */
  predicate Timely(c: Catalogue, steps: Steps, before: Body, body: Body, gap: real) {
    match body
    case LlmStarted(_, _) => if before.LlmFailed? then Within(gap, 1.02, 8.3) else Within(gap, 0.02, 0.3)
    case LlmFirstToken(_) => before.LlmStarted? && Begins(c, before.request.model, gap)
    case LlmChunk(_, _) => gap >= 0.0
    case LlmCompleted(_, model) => if before.LlmStarted? then Lasts(c, model, gap) else gap == 0.0
    case LlmFailed(_, _, cause) => if Contains(cause, "timed out") then gap == 60.0 else Within(gap, 0.2, 1.5)
    case ToolStarted(_, _) => Within(gap, 0.02, 0.2)
    case ToolCompleted(_, tool) => Takes(c.tools, tool, gap)
    case ToolFailed(_, tool) => Takes(c.tools, tool, gap)
    case AgentStarted => Within(gap, 0.05, 0.4)
    case AgentCompleted => Within(gap, 0.01, 0.2)
    case RunStarted => Within(gap, 0.2, 2.0)
    case StepStarted(_, _) => if before.StepFailed? then Within(gap, 5.0, 30.0) else gap == 0.0
    case StepFailed(node, _, _) => Takes(steps, node, gap)
    case ArtifactProduced(node) => Takes(steps, node, gap)
    case _ => gap == 0.0
  }

  predicate Takes(times: map<string, (real, real)>, name: string, gap: real) {
    name in times && Within(gap, times[name].0, times[name].1)
  }

  /** A whole reply of a model may take so long. */
  predicate Lasts(c: Catalogue, model: string, seconds: real) {
    model in c.models && 0.4 * c.models[model] <= seconds <= 2.2 * c.models[model]
  }

  /** The first token of a model may take so long: a tenth to three tenths of a reply. */
  predicate Begins(c: Catalogue, model: string, seconds: real) {
    model in c.models && 0.04 * c.models[model] <= seconds <= 0.66 * c.models[model]
  }

  predicate TimelyAt(c: Catalogue, steps: Steps, trace: seq<Event>, moments: seq<real>, i: nat)
    requires 0 < i < |trace| <= |moments|
  {
    var m := |moments| - |trace| + i;
    Timely(c, steps, trace[i - 1].body, trace[i].body, moments[m] - moments[m - 1])
  }

  /** The events of a trace, which happened at the last of the moments, came neither early nor late. */
  ghost predicate Paced(c: Catalogue, steps: Steps, trace: seq<Event>, moments: seq<real>) {
    && |trace| <= |moments|
    && forall i: nat {:trigger TimelyAt(c, steps, trace, moments, i)} :: 0 < i < |trace| ==>
         TimelyAt(c, steps, trace, moments, i)
  }

  lemma PaceAppend(
    c: Catalogue, steps: Steps, a: seq<Event>, b: seq<Event>, before: seq<real>, after: seq<real>)
    requires Paced(c, steps, a, before) && Paced(c, steps, b, after)
    requires before <= after && |after| == |before| + |b|
    requires a != [] && b != [] ==>
      Timely(c, steps, a[|a| - 1].body, b[0].body, after[|before|] - before[|before| - 1])
    ensures Paced(c, steps, a + b, after)
  {
    forall i: nat | 0 < i < |a + b|
      ensures TimelyAt(c, steps, a + b, after, i)
    {
      if i < |a| {
        assert TimelyAt(c, steps, a, before, i);
      } else if i > |a| {
        assert TimelyAt(c, steps, b, after, i - |a|);
      }
    }
  }

  lemma PaceOneMore(c: Catalogue, steps: Steps, trace: seq<Event>, moments: seq<real>, e: Event, moment: real)
    requires Paced(c, steps, trace, moments)
    requires trace != [] ==>
      Timely(c, steps, trace[|trace| - 1].body, e.body, moment - moments[|moments| - 1])
    ensures Paced(c, steps, trace + [e], moments + [moment])
  {
    PaceAppend(c, steps, trace, [e], moments, moments + [moment]);
  }

  /** No steps: an agent's run has none. */
  const NO_STEPS: Steps := map[]

  /** Every event of a trace came in its time, and nothing has been waited for since. */
  ghost predicate OnTime(c: Catalogue, steps: Steps, tl: Timeline, trace: seq<Event>)
    reads tl
  {
    Paced(c, steps, trace, tl.moments) && (trace != [] ==> tl.Elapsed() == 0.0)
  }

  /** `Timeline.Emit` of the next event of a trace, in its time. */
  method EmitOnTime(
    tl: Timeline, runId: string, body: Body, agent: string, after: real, ghost c: Catalogue, ghost steps: Steps,
    ghost trace: seq<Event>)
    returns (ghost e: Event)
    requires tl.Valid() && after >= 0.0 && Paced(c, steps, trace, tl.moments)
    requires trace != [] ==> Timely(c, steps, trace[|trace| - 1].body, body, tl.Elapsed() + after)
    modifies tl
    ensures tl.Valid() && tl.GoesOn()
    ensures tl.events == old(tl.events) + [e] && Says(e, runId, agent, body)
    ensures OnTime(c, steps, tl, trace + [e]) && tl.moments == old(tl.moments) + [old(tl.clock) + after]
  {
    e := tl.Emit(runId, body, agent, after);
    if trace != [] {
      assert tl.clock - old(tl.moments[|tl.moments| - 1]) == old(tl.Elapsed()) + after;
    }
    PaceOneMore(c, steps, trace, old(tl.moments), e, tl.clock);
  }

  lemma Regroup<T>(a: seq<T>, b: seq<T>, c: seq<T>)
    ensures a + b + c == a + (b + c)
  {
  }

  /** What the event at position `k` of an answered call says, `last` being the position of its end. */
  function AnswerBody(k: nat, last: nat, call: CallId, model: string): Body
    requires k >= 1
  {
    if k == last then LlmCompleted(call, model) else if k == 1 then LlmFirstToken(call) else LlmChunk(call, k - 2)
  }

  /** What the event at position `k` of a model call says. */
  function ReplyBody(k: nat, last: nat, call: CallId, request: Request, error: Option<string>): Body {
    if k == 0 then LlmStarted(call, request)
    else if k == last && error.Some? then LlmFailed(call, request.model, error.value)
    else AnswerBody(k, last, call, request.model)
  }

  /** The events of one model call: refused at once, answered whole, or streamed in six to fourteen chunks. */
  ghost predicate Reply(
    wrote: seq<Event>, call: CallId, runId: string, agent: string, request: Request, error: Option<string>)
  {
    var last := |wrote| - 1;
    && (last == 1 || (error.None? && 8 <= last <= 16))
    && forall k :: 0 <= k <= last ==> Says(wrote[k], runId, agent, ReplyBody(k, last, call, request, error))
  }

  /** The settings `llm_call` draws for a request. */
  predicate Drawable(p: Params) {
    && p.temperature in {0.0, 0.2, 0.7, 1.0} && p.maxTokens in {1024, 2048, 4096}
    && p.topP in {None, Some(0.9)} && (p.seed.Some? ==> 1 <= p.seed.value < 10_000)
  }

  method DrawParams() returns (p: Params)
    ensures Drawable(p)
  {
    var temperatures, lengths := [0.0, 0.2, 0.2, 0.7, 1.0], [1024, 2048, 4096];
    var temperature := Draws.Below(|temperatures|);
    var maxTokens := Draws.Below(|lengths|);
    var hasTopP: bool, hasSeed: bool := *, *;
    var seed := Draws.Between(1, 9_999);
    p := Params(
      temperatures[temperature], lengths[maxTokens], if hasTopP then Some(0.9) else None,
      if hasSeed then Some(seed) else None);
  }

  /** The provider's error, a minute later when it timed out and at once otherwise. */
  method Refuse(
    tl: Timeline, runId: string, call: CallId, agent: string, model: string, cause: string, ghost c: Catalogue,
    ghost steps: Steps, ghost request: Request, ghost asked: Event)
    returns (ghost wrote: seq<Event>)
    requires tl.Valid() && tl.Settled() && request.model == model
    requires Says(asked, runId, agent, LlmStarted(call, request))
    requires tl.events != [] && tl.events[|tl.events| - 1] == asked
    modifies tl
    ensures tl.Valid() && tl.GoesOn()
    ensures tl.events == old(tl.events[..|tl.events| - 1]) + wrote
    ensures Reply(wrote, call, runId, agent, request, Some(cause))
    ensures tl.moments == old(tl.moments) + [tl.clock] && Paced(c, steps, wrote, tl.moments)
  {
    var waited := 60.0;
    if !Contains(cause, "timed out") {
      waited := Draws.Uniform(0.2, 1.5);
    }
    ghost var e := tl.Emit(runId, LlmFailed(call, model, cause), agent, waited);
    wrote := [asked, e];
    Refused(asked, e, call, runId, agent, request, cause);
    PaceOneMore(c, steps, [asked], old(tl.moments), e, tl.clock);
  }

  /** The whole reply to a request just made. */
  method AnswerAll(
    tl: Timeline, runId: string, call: CallId, agent: string, model: string, seconds: real, ghost c: Catalogue,
    ghost steps: Steps, ghost request: Request, ghost asked: Event)
    returns (ghost wrote: seq<Event>)
    requires tl.Valid() && tl.Settled() && Sound(c) && Lasts(c, model, seconds)
    requires request.model == model && Says(asked, runId, agent, LlmStarted(call, request))
    requires tl.events != [] && tl.events[|tl.events| - 1] == asked
    modifies tl
    ensures tl.Valid() && tl.GoesOn()
    ensures tl.events == old(tl.events[..|tl.events| - 1]) + wrote
    ensures Reply(wrote, call, runId, agent, request, None)
    ensures tl.clock == old(tl.clock) + seconds && tl.Settled()
    ensures |tl.moments| + 1 == |old(tl.moments)| + |wrote| && Paced(c, steps, wrote, tl.moments)
  {
    ghost var answer := Answer(tl, runId, call, agent, model, seconds, c, steps, asked);
    wrote := [asked] + answer;
    Replied(asked, answer, call, runId, agent, request);
  }

  /** The request, with settings drawn for it alone. */
  method AskModel(tl: Timeline, runId: string, call: CallId, agent: string, model: string, prompt: Option<string>)
    returns (ghost request: Request, ghost e: Event)
    requires tl.Valid()
    modifies tl
    ensures tl.Valid() && tl.GoesOn()
    ensures tl.events == old(tl.events) + [e] && Says(e, runId, agent, LlmStarted(call, request))
    ensures tl.moments == old(tl.moments) + [tl.clock]
    ensures Within(tl.clock - old(tl.clock), 0.02, 0.3)
    ensures request.model == model && request.prompt == prompt && Drawable(request.params)
  {
    var params := DrawParams();
    request := Request(model, prompt, params);
    var delay := Draws.Uniform(0.02, 0.3);
    e := tl.Emit(runId, LlmStarted(call, Request(model, prompt, params)), agent, delay);
  }

  lemma Refused(asked: Event, e: Event, call: CallId, runId: string, agent: string, request: Request, cause: string)
    requires Says(asked, runId, agent, LlmStarted(call, request))
    requires Says(e, runId, agent, LlmFailed(call, request.model, cause))
    ensures Reply([asked, e], call, runId, agent, request, Some(cause))
  {
  }

  lemma Replied(asked: Event, answer: seq<Event>, call: CallId, runId: string, agent: string, request: Request)
    requires Says(asked, runId, agent, LlmStarted(call, request))
    requires Answered(answer, runId, agent, call, request.model)
    ensures Reply([asked] + answer, call, runId, agent, request, None)
  {
    var wrote := [asked] + answer;
    forall k | 0 < k < |wrote|
      ensures Says(wrote[k], runId, agent, ReplyBody(k, |answer|, call, request, None))
    {
      assert wrote[k] == answer[k - 1];
    }
  }

  /** One call to a model; false when it was refused. */
  method LlmCall(
    c: Catalogue, tl: Timeline, runId: string, agent: string, model: string, prompt: Option<string>,
    error: Option<string>, ghost steps: Steps)
    returns (ok: bool, ghost request: Request, ghost wrote: seq<Event>)
    requires tl.Valid() && Sound(c) && model in c.models
    modifies tl
    ensures tl.Valid() && tl.GoesOn()
    ensures tl.events == old(tl.events) + wrote
    ensures ok <==> error.None?
    ensures request.model == model && request.prompt == prompt && Drawable(request.params)
    ensures Reply(wrote, LlmId(|old(tl.events)|), runId, agent, request, error)
    ensures |tl.moments| == |old(tl.moments)| + |wrote| && tl.Settled() && Paced(c, steps, wrote, tl.moments)
    ensures Within(tl.moments[|old(tl.moments)|] - old(tl.clock), 0.02, 0.3)
    // A streamed reply takes as long as the same draw would have taken whole.
    ensures var took := tl.moments[|tl.moments| - 1] - tl.moments[|old(tl.events)|];
            ok ==> Lasts(c, model, took)
  {
    var call := LlmId(|tl.events|);
    ghost var asked;
    request, asked := AskModel(tl, runId, call, agent, model, prompt);
    var seconds := Draws.Scaled(c.models[model], 0.4, 2.2);
    ok := error.None?;
    if error.Some? {
      wrote := Refuse(tl, runId, call, agent, model, error.value, c, steps, request, asked);
    } else {
      wrote := AnswerAll(tl, runId, call, agent, model, seconds, c, steps, request, asked);
    }
  }

  /** What an answered call says after it was opened. */
  ghost predicate Answered(wrote: seq<Event>, runId: string, agent: string, call: CallId, model: string) {
    && (|wrote| == 1 || 8 <= |wrote| <= 16)
    && forall k :: 0 <= k < |wrote| ==> Says(wrote[k], runId, agent, AnswerBody(k + 1, |wrote|, call, model))
  }

  /** The reply, streamed or not: `seconds` of it either way. */
  method Answer(
    tl: Timeline, runId: string, call: CallId, agent: string, model: string, seconds: real, ghost c: Catalogue,
    ghost steps: Steps, ghost asked: Event)
    returns (ghost wrote: seq<Event>)
    requires tl.Valid() && tl.Settled() && Sound(c) && Lasts(c, model, seconds)
    requires asked.body.LlmStarted? && asked.body.request.model == model
    modifies tl
    ensures tl.Valid() && tl.GoesOn()
    ensures tl.events == old(tl.events) + wrote
    ensures tl.clock == old(tl.clock) + seconds && tl.Settled()
    ensures |tl.moments| == |old(tl.moments)| + |wrote| && Paced(c, steps, [asked] + wrote, tl.moments)
    ensures Answered(wrote, runId, agent, call, model)
  {
    wrote := [];
    assert [asked] + wrote == [asked];
    var streamed: bool := *;
    if streamed {
      wrote := Stream(tl, runId, call, agent, seconds, c, steps, asked);
    }
    ghost var before, moments := wrote, tl.moments;
    ghost var done := tl.Emit(runId, LlmCompleted(call, model), agent, if streamed then 0.0 else seconds);
    wrote := wrote + [done];
    PaceOneMore(c, steps, [asked] + before, moments, done, tl.clock);
    Regroup([asked], before, [done]);
  }

  function StreamBody(k: nat, call: CallId): Body {
    if k == 0 then LlmFirstToken(call) else LlmChunk(call, k - 1)
  }

  ghost predicate Streamed(wrote: seq<Event>, runId: string, agent: string, call: CallId) {
    forall k :: 0 <= k < |wrote| ==> Says(wrote[k], runId, agent, StreamBody(k, call))
  }

  /** The first token and the chunks, which share what the first token left of `seconds`. */
  method Stream(
    tl: Timeline, runId: string, call: CallId, agent: string, seconds: real, ghost c: Catalogue, ghost steps: Steps,
    ghost asked: Event)
    returns (ghost wrote: seq<Event>)
    requires tl.Valid() && tl.Settled() && Sound(c) && asked.body.LlmStarted?
    requires Lasts(c, asked.body.request.model, seconds)
    modifies tl
    ensures tl.Valid() && tl.GoesOn()
    ensures tl.events == old(tl.events) + wrote
    ensures tl.clock == old(tl.clock) + seconds && tl.Settled()
    ensures |tl.moments| == |old(tl.moments)| + |wrote| && Paced(c, steps, [asked] + wrote, tl.moments)
    ensures 7 <= |wrote| <= 15 && Streamed(wrote, runId, agent, call)
  {
    var first := Draws.Scaled(seconds, 0.1, 0.3);
    ghost var e := tl.Emit(runId, LlmFirstToken(call), agent, first);
    wrote := [e];
    PaceOneMore(c, steps, [asked], old(tl.moments), e, tl.clock);
    var chunks := Draws.Between(6, 14);
    var gap := Share(seconds - first, chunks);
    for index := 0 to chunks
      invariant tl.Valid() && tl.GoesOn()
      invariant tl.events == old(tl.events) + wrote
      invariant |wrote| == 1 + index && Streamed(wrote, runId, agent, call)
      invariant tl.clock == old(tl.clock) + first + Times(gap, index) && tl.Settled()
      invariant |tl.moments| == |old(tl.moments)| + |wrote| && Paced(c, steps, [asked] + wrote, tl.moments)
    {
      ghost var before, moments := wrote, tl.moments;
      e := tl.Emit(runId, LlmChunk(call, index), agent, gap);
      wrote := wrote + [e];
      PaceOneMore(c, steps, [asked] + before, moments, e, tl.clock);
      Regroup([asked], before, [e]);
    }
  }

  /** One of `n` equal parts, and those parts put together again. */
  function Share(whole: real, n: nat): (part: real)
    requires n > 0 && whole >= 0.0
    ensures part >= 0.0 && Times(part, n) == whole
  {
    TimesIsProduct(whole / n as real, n);
    whole / n as real
  }

  function Times(part: real, n: nat): real {
    if n == 0 then 0.0 else Times(part, n - 1) + part
  }

  lemma {:induction false} TimesIsProduct(part: real, n: nat)
    ensures Times(part, n) == part * n as real
  {
    if n > 0 {
      TimesIsProduct(part, n - 1);
      assert part * n as real == part * (n - 1) as real + part;
    }
  }

  ghost predicate ToolReply(wrote: seq<Event>, call: CallId, runId: string, agent: string, tool: string, failed: bool) {
    && |wrote| == 2
    && Says(wrote[0], runId, agent, ToolStarted(call, tool))
    && Says(wrote[1], runId, agent, if failed then ToolFailed(call, tool) else ToolCompleted(call, tool))
  }

  method ToolCall(
    c: Catalogue, tl: Timeline, runId: string, agent: string, tool: string, error: bool, ghost steps: Steps)
    returns (ghost wrote: seq<Event>)
    requires tl.Valid() && Sound(c) && tool in c.tools
    modifies tl
    ensures tl.Valid() && tl.GoesOn()
    ensures tl.events == old(tl.events) + wrote
    ensures ToolReply(wrote, ToolId(|old(tl.events)|), runId, agent, tool, error)
    ensures |tl.moments| == |old(tl.moments)| + 2 && tl.Settled() && Paced(c, steps, wrote, tl.moments)
    ensures Within(tl.moments[|old(tl.moments)|] - old(tl.clock), 0.02, 0.2)
  {
    var call := ToolId(|tl.events|);
    var delay := Draws.Uniform(0.02, 0.2);
    ghost var asked := tl.Emit(runId, ToolStarted(call, tool), agent, delay);
    var took := Draws.Uniform(c.tools[tool].0, c.tools[tool].1);
    ghost var answered :=
      tl.Emit(runId, if error then ToolFailed(call, tool) else ToolCompleted(call, tool), agent, took);
    wrote := [asked, answered];
    PaceOneMore(c, steps, [asked], tl.moments[..|tl.moments| - 1], answered, tl.clock);
  }

  // ── What a call does to the two acceptors ──────────────────────────────────

  function Receiving(call: CallId, runId: string, agent: string, k: nat, used: set<CallId>): Calls
    requires k >= 1
  {
    Calls(Some(Open(call, false, runId, agent, if k == 1 then None else Some(k - 2))), used)
  }

  lemma StreamStep(call: CallId, runId: string, agent: string, k: nat, used: set<CallId>, e: Event)
    requires k >= 1 && Says(e, runId, agent, if k == 1 then LlmFirstToken(call) else LlmChunk(call, k - 2))
    ensures CallBrackets.Next(Receiving(call, runId, agent, k, used), e)
         == Some(Receiving(call, runId, agent, k + 1, used))
  {
  }

  lemma TakeOneMore<T>(a: seq<T>, b: seq<T>, k: nat)
    requires k < |b|
    ensures a + b[..k + 1] == a + b[..k] + [b[k]]
    ensures k + 1 == |b| ==> b[..k + 1] == b
  {
  }

  lemma Pieces<T>(a: seq<T>, b: seq<T>)
    requires |b| >= 2
    ensures a + b == a + [b[0]] + b[1..|b| - 1] + [b[|b| - 1]]
  {
  }

  lemma AskStep(call: CallId, runId: string, agent: string, used: set<CallId>, e: Event)
    requires call !in used && Starts(e) && !IsTool(e) && CallOf(e) == call && e.runId == runId && e.agent == agent
    ensures CallBrackets.Next(Calls(None, used), e) == Some(Receiving(call, runId, agent, 1, used + {call}))
  {
  }

  lemma EndStep(call: CallId, runId: string, agent: string, k: nat, used: set<CallId>, e: Event)
    requires k >= 1 && Closes(e) && !IsTool(e) && CallOf(e) == call && e.runId == runId && e.agent == agent
    requires e.body.LlmFailed? ==> k == 1
    ensures CallBrackets.Next(Receiving(call, runId, agent, k, used), e) == Some(Calls(None, used))
  {
  }

  lemma {:induction false} Streaming(
    wrote: seq<Event>, call: CallId, runId: string, agent: string, request: Request, error: Option<string>,
    used: set<CallId>, k: nat)
    requires Reply(wrote, call, runId, agent, request, error) && 1 <= k < |wrote|
    ensures From(Receiving(call, runId, agent, k, used), wrote[k..]) == Some(Calls(None, used))
    decreases |wrote| - k
  {
    assert wrote[k..][0] == wrote[k];
    if k + 1 == |wrote| {
      EndStep(call, runId, agent, k, used, wrote[k]);
    } else {
      StreamStep(call, runId, agent, k, used, wrote[k]);
      assert wrote[k..][1..] == wrote[k + 1..];
      Streaming(wrote, call, runId, agent, request, error, used, k + 1);
    }
  }

  lemma ReplyIsOrderly(
    was: seq<Event>, wrote: seq<Event>, runId: string, agent: string, request: Request, error: Option<string>)
    requires Orderly(was) && Reply(wrote, LlmId(|was|), runId, agent, request, error)
    ensures Orderly(was + wrote)
  {
    var call, used := LlmId(|was|), CallsOf(was).value.used;
    AskStep(call, runId, agent, used, wrote[0]);
    Streaming(wrote, call, runId, agent, request, error, used + {call}, 1);
    ReadOn(was, wrote);
  }

  lemma ToolReplyIsOrderly(
    was: seq<Event>, wrote: seq<Event>, runId: string, agent: string, tool: string, failed: bool)
    requires Orderly(was) && ToolReply(wrote, ToolId(|was|), runId, agent, tool, failed)
    ensures Orderly(was + wrote)
  {
    var call, used := ToolId(|was|), CallsOf(was).value.used;
    var during := Calls(Some(Open(call, true, runId, agent, None)), used + {call});
    assert CallBrackets.Next(Calls(None, used), wrote[0]) == Some(during);
    assert CallBrackets.Next(during, wrote[1]) == Some(Calls(None, used + {call}));
    assert wrote[1..] == [wrote[1]];
    assert From(during, [wrote[1]]) == Some(Calls(None, used + {call}));
    ReadOn(was, wrote);
  }

  lemma OtherIsOrderly(was: seq<Event>, e: Event)
    requires Orderly(was) && !Starts(e) && !Closes(e) && !Streams(e)
    ensures Orderly(was + [e])
  {
    CallBrackets.Extend(was, e);
  }

  /** The middle of an answer leaves its agent where it was. */
  lemma {:induction false} StreamKeepsPhase(
    cast: Cast, runId: string, trace: seq<Event>, work: seq<Event>, t: Turn, book: Book)
    requires PhaseOf(cast, runId, trace) == Some(Active(t, book)) && !t.handed && t.index < |cast.agents|
    requires forall k :: 0 <= k < |work| ==>
      work[k].runId == runId && work[k].agent == cast.agents[t.index].name
      && (work[k].body.LlmFirstToken? || work[k].body.LlmChunk?)
    ensures PhaseOf(cast, runId, trace + work) == Some(Active(t, book))
  {
    if work == [] {
      assert trace + work == trace;
    } else {
      var n := |work| - 1;
      StreamKeepsPhase(cast, runId, trace, work[..n], t, book);
      AgentTrace.Extend(cast, runId, trace + work[..n], work[n]);
      TakeOneMore(trace, work, n);
    }
  }

  /** A phase in which the agent may ask: at work, or with a refusal of its own to make good. */
  predicate CanAsk(cast: Cast, p: Phase, i: nat, model: string, prompt: Option<string>) {
    && i < |cast.agents|
    && match p
       case Active(t, _) => t.index == i && MayAsk(cast, t, model, prompt)
       case Unanswered(t, book, cause) => t.index == i && MayRetry(cast, t, book, cause, model, prompt)
       case _ => false
  }

  /** The turn once the call is made. */
  function AskedTurn(t: Turn, model: string, prompt: Option<string>): Turn {
    t.(handed := false, model := Some(model), prompt := prompt)
  }

  lemma AskPhase(cast: Cast, runId: string, p: Phase, e: Event, i: nat, call: CallId, request: Request)
    requires CanAsk(cast, p, i, request.model, request.prompt)
    requires Says(e, runId, cast.agents[i].name, LlmStarted(call, request))
    ensures AgentTrace.Next(cast, runId, p, e) == Some(Active(AskedTurn(p.turn, request.model, request.prompt), p.book))
  {
  }

  /** Where a call leaves its agent. */
  function PhaseAfterCall(t: Turn, book: Book, model: string, prompt: Option<string>, error: Option<string>): Phase {
    var asked := AskedTurn(t, model, prompt);
    if error.Some? then Unanswered(asked, book, error.value)
    else Active(asked.(calls := asked.calls + 1), book.(answered := true))
  }

  lemma EndPhase(
    cast: Cast, runId: string, e: Event, t: Turn, book: Book, call: CallId, request: Request, error: Option<string>)
    requires t.index < |cast.agents|
    requires Says(e, runId, cast.agents[t.index].name, ReplyBody(1, 1, call, request, error))
    ensures AgentTrace.Next(cast, runId, Active(AskedTurn(t, request.model, request.prompt), book), e)
         == Some(PhaseAfterCall(t, book, request.model, request.prompt, error))
  {
  }

  lemma ReplyPhase(
    cast: Cast, runId: string, trace: seq<Event>, wrote: seq<Event>, p: Phase, i: nat, call: CallId, request: Request,
    error: Option<string>)
    requires PhaseOf(cast, runId, trace) == Some(p) && CanAsk(cast, p, i, request.model, request.prompt)
    requires Reply(wrote, call, runId, cast.agents[i].name, request, error)
    ensures PhaseOf(cast, runId, trace + wrote)
         == Some(PhaseAfterCall(p.turn, p.book, request.model, request.prompt, error))
  {
    var last := |wrote| - 1;
    var asked := trace + [wrote[0]];
    AgentTrace.Extend(cast, runId, trace, wrote[0]);
    AskPhase(cast, runId, p, wrote[0], i, call, request);
    StreamKeepsPhase(
      cast, runId, asked, wrote[1..last], AskedTurn(p.turn, request.model, request.prompt), p.book);
    AgentTrace.Extend(cast, runId, asked + wrote[1..last], wrote[last]);
    EndPhase(cast, runId, wrote[last], p.turn, p.book, call, request, error);
    Pieces(trace, wrote);
  }

  // ── The run itself ─────────────────────────────────────────────────────────

  /** How many calls a trace has refused and answered, and how many tools it has failed and used. */
  datatype Tally = Tally(refusals: nat, answers: nat, toolFailures: nat, tools: nat)

  function Plus(a: Tally, b: Tally): Tally {
    Tally(a.refusals + b.refusals, a.answers + b.answers, a.toolFailures + b.toolFailures, a.tools + b.tools)
  }

  function TallyOfOne(e: Event): Tally {
    match e.body
    case LlmFailed(_, _, _) => Tally(1, 0, 0, 0)
    case LlmCompleted(_, _) => Tally(0, 1, 0, 0)
    case ToolFailed(_, _) => Tally(0, 0, 1, 0)
    case ToolStarted(_, _) => Tally(0, 0, 0, 1)
    case _ => Tally(0, 0, 0, 0)
  }

  function TallyOf(trace: seq<Event>): Tally {
    if trace == [] then Tally(0, 0, 0, 0)
    else
      var n := |trace| - 1;
      Plus(TallyOf(trace[..n]), TallyOfOne(trace[n]))
  }

  lemma TallyOneMore(trace: seq<Event>, e: Event)
    ensures TallyOf(trace + [e]) == Plus(TallyOf(trace), TallyOfOne(e))
  {
    assert (trace + [e])[..|trace|] == trace;
  }

  function CallTally(error: Option<string>): Tally {
    if error.Some? then Tally(1, 0, 0, 0) else Tally(0, 1, 0, 0)
  }

  lemma {:induction false} KeepsTally(trace: seq<Event>, work: seq<Event>)
    requires forall k :: 0 <= k < |work| ==> TallyOfOne(work[k]) == Tally(0, 0, 0, 0)
    ensures TallyOf(trace + work) == TallyOf(trace)
  {
    if work == [] {
      assert trace + work == trace;
    } else {
      var n := |work| - 1;
      KeepsTally(trace, work[..n]);
      TakeOneMore(trace, work, n);
      TallyOneMore(trace + work[..n], work[n]);
    }
  }

  /** Only the last event of a reply is counted. */
  lemma Uncounted(
    wrote: seq<Event>, k: nat, call: CallId, runId: string, agent: string, request: Request, error: Option<string>)
    requires Reply(wrote, call, runId, agent, request, error) && k < |wrote|
    ensures TallyOfOne(wrote[k]) == if k == |wrote| - 1 then CallTally(error) else Tally(0, 0, 0, 0)
  {
  }

  /** The timeline holds `was` and then the run's own trace, which has reached phase `p`. */
  ghost predicate At(
    events: seq<Event>, was: seq<Event>, trace: seq<Event>, cast: Cast, runId: string, p: Phase)
  {
    events == was + trace && Orderly(events) && PhaseOf(cast, runId, trace) == Some(p)
  }

  lemma AskEffect(
    events: seq<Event>, was: seq<Event>, trace: seq<Event>, wrote: seq<Event>, cast: Cast, runId: string,
    p: Phase, i: nat, request: Request, error: Option<string>)
    requires At(events, was, trace, cast, runId, p) && CanAsk(cast, p, i, request.model, request.prompt)
    requires Reply(wrote, LlmId(|events|), runId, cast.agents[i].name, request, error)
    ensures At(events + wrote, was, trace + wrote, cast, runId,
               PhaseAfterCall(p.turn, p.book, request.model, request.prompt, error))
  {
    ReplyIsOrderly(events, wrote, runId, cast.agents[i].name, request, error);
    ReplyPhase(cast, runId, trace, wrote, p, i, LlmId(|events|), request, error);
    Regroup(was, trace, wrote);
  }

  lemma AskTally(
    trace: seq<Event>, wrote: seq<Event>, call: CallId, runId: string, agent: string, request: Request,
    error: Option<string>)
    requires Reply(wrote, call, runId, agent, request, error)
    ensures TallyOf(trace + wrote) == Plus(TallyOf(trace), CallTally(error))
  {
    var last := |wrote| - 1;
    forall k | 0 <= k < |wrote|
      ensures TallyOfOne(wrote[k]) == if k == last then CallTally(error) else Tally(0, 0, 0, 0)
    {
      Uncounted(wrote, k, call, runId, agent, request, error);
    }
    KeepsTally(trace, wrote[..last]);
    TakeOneMore(trace, wrote, last);
    TallyOneMore(trace + wrote[..last], wrote[last]);
  }

  lemma LastTells(cast: Cast, runId: string, trace: seq<Event>, p: Phase)
    requires PhaseOf(cast, runId, trace) == Some(p) && Inside(p)
    ensures trace != [] && (trace[|trace| - 1].body.LlmFailed? <==> p.Unanswered?)
  {
    var n := |trace| - 1;
    UnansweredAfterRefusal(cast, runId, PhaseOf(cast, runId, trace[..n]).value, trace[n]);
  }

  /** `LlmCall` by agent `i` of a run, and what it does to the run's trace. */
  method Ask(
    c: Catalogue, tl: Timeline, cast: Cast, runId: string, i: nat, model: string, prompt: Option<string>,
    error: Option<string>, ghost was: seq<Event>, ghost trace: seq<Event>, ghost p: Phase)
    returns (ghost longer: seq<Event>)
    requires tl.Valid() && Sound(c) && model in c.models
    requires At(tl.events, was, trace, cast, runId, p) && CanAsk(cast, p, i, model, prompt)
    requires Paced(c, NO_STEPS, trace, tl.moments)
    requires if p.Unanswered? then Within(tl.Elapsed(), 1.0, 8.0) else tl.Elapsed() == 0.0
    modifies tl
    ensures tl.Valid() && tl.GoesOn()
    ensures At(tl.events, was, longer, cast, runId, PhaseAfterCall(p.turn, p.book, model, prompt, error))
    ensures OnTime(c, NO_STEPS, tl, longer)
    ensures TallyOf(longer) == Plus(TallyOf(trace), CallTally(error))
    ensures |longer| >= |trace| + 2
  {
    var _, request, wrote := LlmCall(c, tl, runId, cast.agents[i].name, model, prompt, error, NO_STEPS);
    longer := trace + wrote;
    LastTells(cast, runId, trace, p);
    PaceAppend(c, NO_STEPS, trace, wrote, old(tl.moments), tl.moments);
    AskEffect(old(tl.events), was, trace, wrote, cast, runId, p, i, request, error);
    AskTally(trace, wrote, LlmId(|old(tl.events)|), runId, cast.agents[i].name, request, error);
  }

  function ToolTally(error: bool): Tally { Tally(0, 0, if error then 1 else 0, 1) }

  lemma ToolPhase(
    cast: Cast, runId: string, trace: seq<Event>, wrote: seq<Event>, t: Turn, book: Book, call: CallId, tool: string,
    error: bool)
    requires PhaseOf(cast, runId, trace) == Some(Active(t, book)) && !t.handed && t.index < |cast.agents|
    requires tool in cast.agents[t.index].tools && (error ==> !book.tooled)
    requires ToolReply(wrote, call, runId, cast.agents[t.index].name, tool, error)
    ensures PhaseOf(cast, runId, trace + wrote) == Some(Active(t, book.(tooled := true)))
    ensures TallyOf(trace + wrote) == Plus(TallyOf(trace), ToolTally(error))
  {
    assert trace + wrote == trace + [wrote[0]] + [wrote[1]];
    AgentTrace.Extend(cast, runId, trace, wrote[0]);
    AgentTrace.Extend(cast, runId, trace + [wrote[0]], wrote[1]);
    TallyOneMore(trace, wrote[0]);
    TallyOneMore(trace + [wrote[0]], wrote[1]);
  }

  lemma ToolEffect(
    events: seq<Event>, was: seq<Event>, trace: seq<Event>, wrote: seq<Event>, cast: Cast, runId: string, t: Turn,
    book: Book, tool: string, error: bool)
    requires At(events, was, trace, cast, runId, Active(t, book)) && !t.handed && t.index < |cast.agents|
    requires tool in cast.agents[t.index].tools && (error ==> !book.tooled)
    requires ToolReply(wrote, ToolId(|events|), runId, cast.agents[t.index].name, tool, error)
    ensures At(events + wrote, was, trace + wrote, cast, runId, Active(t, book.(tooled := true)))
    ensures TallyOf(trace + wrote) == Plus(TallyOf(trace), ToolTally(error))
  {
    ToolReplyIsOrderly(events, wrote, runId, cast.agents[t.index].name, tool, error);
    ToolPhase(cast, runId, trace, wrote, t, book, ToolId(|events|), tool, error);
    Regroup(was, trace, wrote);
  }

  /** `ToolCall` by the agent whose turn it is. */
  method UseTool(
    c: Catalogue, tl: Timeline, cast: Cast, runId: string, i: nat, tool: string, error: bool,
    ghost was: seq<Event>, ghost trace: seq<Event>, ghost t: Turn, ghost book: Book)
    returns (ghost longer: seq<Event>)
    requires tl.Valid() && Sound(c) && tool in c.tools && i < |cast.agents|
    requires At(tl.events, was, trace, cast, runId, Active(t, book)) && t.index == i && !t.handed
    requires tool in cast.agents[i].tools && (error ==> !book.tooled) && OnTime(c, NO_STEPS, tl, trace)
    modifies tl
    ensures tl.Valid() && tl.GoesOn()
    ensures At(tl.events, was, longer, cast, runId, Active(t, book.(tooled := true)))
    ensures OnTime(c, NO_STEPS, tl, longer)
    ensures TallyOf(longer) == Plus(TallyOf(trace), ToolTally(error))
    ensures |longer| >= |trace|
  {
    ghost var wrote := ToolCall(c, tl, runId, cast.agents[i].name, tool, error, NO_STEPS);
    longer := trace + wrote;
    PaceAppend(c, NO_STEPS, trace, wrote, old(tl.moments), tl.moments);
    ToolEffect(old(tl.events), was, trace, wrote, cast, runId, t, book, tool, error);
  }

  predicate Marks(body: Body) {
    || body.RunStarted? || body.RunCompleted? || body.RunFailed?
    || body.AgentStarted? || body.AgentMessage? || body.AgentCompleted? || body.AgentFailed?
  }

  lemma MarkEffect(
    events: seq<Event>, was: seq<Event>, trace: seq<Event>, e: Event, cast: Cast, runId: string, p: Phase,
    q: Phase)
    requires At(events, was, trace, cast, runId, p) && Marks(e.body)
    requires AgentTrace.Next(cast, runId, p, e) == Some(q)
    ensures At(events + [e], was, trace + [e], cast, runId, q)
    ensures TallyOf(trace + [e]) == TallyOf(trace)
  {
    OtherIsOrderly(events, e);
    AgentTrace.Extend(cast, runId, trace, e);
    TallyOneMore(trace, e);
    Regroup(was, trace, [e]);
  }

  /** Any event that is neither a call nor part of one. */
  method Mark(
    tl: Timeline, ghost cast: Cast, runId: string, agent: string, body: Body, after: real, ghost c: Catalogue,
    ghost was: seq<Event>, ghost trace: seq<Event>, ghost p: Phase, ghost q: Phase)
    returns (ghost longer: seq<Event>)
    requires tl.Valid() && after >= 0.0 && OnTime(c, NO_STEPS, tl, trace)
    requires trace != [] ==> Timely(c, NO_STEPS, trace[|trace| - 1].body, body, after)
    requires At(tl.events, was, trace, cast, runId, p) && Marks(body)
    requires AgentTrace.Next(cast, runId, p, Event(runId, 0, agent, body)) == Some(q)
    modifies tl
    ensures tl.Valid() && tl.GoesOn()
    ensures At(tl.events, was, longer, cast, runId, q) && OnTime(c, NO_STEPS, tl, longer)
    ensures TallyOf(longer) == TallyOf(trace)
    ensures |longer| == |trace| + 1 && tl.moments == old(tl.moments) + [old(tl.clock) + after]
  {
    ghost var e := EmitOnTime(tl, runId, body, agent, after, c, NO_STEPS, trace);
    longer := trace + [e];
    MarkEffect(old(tl.events), was, trace, e, cast, runId, p, q);
  }

  /** Where the turn stands before its n-th round: nothing handed over, n calls behind it, all to the one model. */
  predicate AtRound(t: Turn, index: nat, n: nat, model: string) {
    t.index == index && !t.handed && t.calls == n && t.model == if n == 0 then None else Some(model)
  }

  /** At most one tool is used, and it is the one that fails if that is due. */
  predicate ToolMaybe(before: Tally, after: Tally, tools: bool, toolsLeft: bool) {
    && after.refusals == before.refusals && after.answers == before.answers
    && before.tools <= after.tools <= before.tools + 1 && (tools ==> (toolsLeft <==> after.tools == before.tools))
    && after.toolFailures == before.toolFailures + (if tools && !toolsLeft then 1 else 0)
  }

  /** A tool, perhaps: failing if that is due. */
  method MaybeTool(
    c: Catalogue, tl: Timeline, cast: Cast, runId: string, index: nat, tools: bool,
    ghost was: seq<Event>, ghost trace: seq<Event>, ghost t: Turn, ghost book: Book)
    returns (toolsLeft: bool, ghost longer: seq<Event>, ghost after: Book)
    requires tl.Valid() && Sound(c) && index < |cast.agents| && Equipped(c, cast.agents[index])
    requires At(tl.events, was, trace, cast, runId, Active(t, book)) && t.index == index && !t.handed
    requires (tools ==> !book.tooled) && OnTime(c, NO_STEPS, tl, trace)
    modifies tl
    ensures tl.Valid() && tl.GoesOn()
    ensures At(tl.events, was, longer, cast, runId, Active(t, after)) && after.answered == book.answered
    ensures (toolsLeft ==> tools && !after.tooled) && |longer| >= |trace| && OnTime(c, NO_STEPS, tl, longer)
    ensures ToolMaybe(TallyOf(trace), TallyOf(longer), tools, toolsLeft)
  {
    toolsLeft, longer, after := tools, trace, book;
    var wantsTool: bool := *;
    var agent := cast.agents[index];
    if agent.tools != [] && wantsTool {
      var tool := Draws.Below(|agent.tools|);
      toolsLeft := false;
      longer := UseTool(c, tl, cast, runId, index, agent.tools[tool], tools, was, longer, t, book);
      after := book.(tooled := true);
    }
  }

  /** A doomed agent ends with its error, and the run with it. */
  method GiveUp(
    tl: Timeline, cast: Cast, runId: string, index: nat, error: string, ghost c: Catalogue, ghost was: seq<Event>,
    ghost trace: seq<Event>, ghost t: Turn, ghost book: Book)
    returns (ghost longer: seq<Event>)
    requires tl.Valid() && index < |cast.agents|
    requires At(tl.events, was, trace, cast, runId, Unanswered(t, book, error)) && t.index == index
    requires error in cast.fatal && InRange(cast.agents[index], t.calls + 1) && OnTime(c, NO_STEPS, tl, trace)
    modifies tl
    ensures tl.Valid() && tl.GoesOn()
    ensures At(tl.events, was, longer, cast, runId, Over(true)) && OnTime(c, NO_STEPS, tl, longer)
    ensures TallyOf(longer) == TallyOf(trace)
    ensures |longer| == |trace| + 2
  {
    var agent := cast.agents[index].name;
    longer := Mark(
      tl, cast, runId, agent, AgentFailed(error), 0.0, c, was, trace, Unanswered(t, book, error), Broken(index, error));
    longer := Mark(
      tl, cast, runId, "", RunFailed(agent + ": " + error), 0.0, c, was, longer, Broken(index, error), Over(true));
  }

  lemma MayTryAgain(
    cast: Cast, t: Turn, book: Book, index: nat, model: string, prompt: Option<string>, error: string)
    requires CanAsk(cast, Active(t, book), index, model, prompt) && error in cast.retryable && !book.answered
    ensures CanAsk(cast, PhaseAfterCall(t, book, model, prompt, Some(error)), index, model, prompt)
  {
  }

  method Pause(ghost c: Catalogue, tl: Timeline, ghost trace: seq<Event>)
    requires tl.Valid() && OnTime(c, NO_STEPS, tl, trace) && trace != []
    modifies tl
    ensures tl.Valid() && tl.GoesOn() && tl.events == old(tl.events)
    ensures Paced(c, NO_STEPS, trace, tl.moments) && Within(tl.Elapsed(), 1.0, 8.0)
  {
    var pause := Draws.Uniform(1.0, 8.0);
    tl.Wait(pause);
  }

  /** The attempt that is refused, and the pause before it is made again. */
  method AskInVain(
    c: Catalogue, tl: Timeline, cast: Cast, runId: string, index: nat, model: string, prompt: Option<string>,
    ghost was: seq<Event>, ghost trace: seq<Event>, ghost t: Turn, ghost book: Book)
    returns (ghost longer: seq<Event>, ghost q: Phase)
    requires tl.Valid() && Sound(c) && model in c.models && cast.retryable == c.retryable && !book.answered
    requires At(tl.events, was, trace, cast, runId, Active(t, book))
    requires CanAsk(cast, Active(t, book), index, model, prompt) && OnTime(c, NO_STEPS, tl, trace)
    modifies tl
    ensures tl.Valid() && tl.GoesOn()
    ensures At(tl.events, was, longer, cast, runId, q) && CanAsk(cast, q, index, model, prompt)
    ensures q.Unanswered? && q.turn == AskedTurn(t, model, prompt) && q.book == book
    ensures Paced(c, NO_STEPS, longer, tl.moments) && Within(tl.Elapsed(), 1.0, 8.0)
    ensures TallyOf(longer) == Plus(TallyOf(trace), CallTally(Some("")))
    ensures |longer| >= |trace|
  {
    var which := Draws.Below(|c.retryable|);
    var error := c.retryable[which];
    longer := Ask(c, tl, cast, runId, index, model, prompt, Some(error), was, trace, Active(t, book));
    q := PhaseAfterCall(t, book, model, prompt, Some(error));
    MayTryAgain(cast, t, book, index, model, prompt, error);
    Pause(c, tl, longer);
  }

  /** The call that ends a round: answered, or the end of the run. */
  method AskLast(
    c: Catalogue, tl: Timeline, cast: Cast, runId: string, index: nat, model: string, n: nat,
    prompt: Option<string>, fatal: bool, ghost was: seq<Event>, ghost trace: seq<Event>, ghost p: Phase)
    returns (ghost longer: seq<Event>, ghost q: Phase)
    requires tl.Valid() && Sound(c) && model in c.models && cast.fatal == c.fatal
    requires At(tl.events, was, trace, cast, runId, p) && CanAsk(cast, p, index, model, prompt)
    requires p.turn.calls == n && (fatal ==> InRange(cast.agents[index], n + 1))
    requires Paced(c, NO_STEPS, trace, tl.moments)
    requires if p.Unanswered? then Within(tl.Elapsed(), 1.0, 8.0) else tl.Elapsed() == 0.0
    modifies tl
    ensures tl.Valid() && tl.GoesOn()
    ensures At(tl.events, was, longer, cast, runId, q) && OnTime(c, NO_STEPS, tl, longer)
    ensures if fatal then q == Over(true)
            else q.Active? && AtRound(q.turn, index, n + 1, model) && q.book.tooled == p.book.tooled
    ensures TallyOf(longer) == Plus(TallyOf(trace), CallTally(if fatal then Some("") else None))
    ensures |longer| >= |trace| + (if fatal then 4 else 2)
  {
    if fatal {
      var which := Draws.Below(|c.fatal|);
      var error := c.fatal[which];
      longer := Ask(c, tl, cast, runId, index, model, prompt, Some(error), was, trace, p);
      longer := GiveUp(tl, cast, runId, index, error, c, was, longer, AskedTurn(p.turn, model, prompt), p.book);
      q := Over(true);
    } else {
      longer := Ask(c, tl, cast, runId, index, model, prompt, None, was, trace, p);
      q := PhaseAfterCall(p.turn, p.book, model, prompt, None);
    }
  }

  /** What one round adds to the tally: the tool, the refusal that was due, and the call itself. */
  predicate RoundTally(
    before: Tally, after: Tally, fatal: bool, retry: bool, tools: bool, toolsLeft: bool)
  {
    && after.refusals == before.refusals + (if retry then 1 else 0) + (if fatal then 1 else 0)
    && after.answers == before.answers + (if fatal then 0 else 1)
    && after.toolFailures == before.toolFailures + (if tools && !toolsLeft then 1 else 0)
    && after.tools >= before.tools && (tools ==> (toolsLeft <==> after.tools == before.tools))
  }

  lemma RoundAdds(
    before: Tally, tooled: Tally, tried: Tally, after: Tally, fatal: bool, retry: bool, tools: bool, toolsLeft: bool)
    requires ToolMaybe(before, tooled, tools, toolsLeft)
    requires tried == if retry then Plus(tooled, CallTally(Some(""))) else tooled
    requires after == Plus(tried, CallTally(if fatal then Some("") else None))
    ensures RoundTally(before, after, fatal, retry, tools, toolsLeft)
  {
  }

  /** One round of an agent: a tool perhaps, a refused attempt if one is due, and the call that ends the round. */
  method Round(
    c: Catalogue, tl: Timeline, cast: Cast, runId: string, index: nat, model: string,
    n: nat, fatal: bool, retry: bool, tools: bool, ghost was: seq<Event>, ghost trace: seq<Event>, ghost t: Turn,
    ghost book: Book)
    returns (toolsLeft: bool, ghost longer: seq<Event>, ghost q: Phase)
    requires tl.Valid() && Sound(c) && index < |cast.agents| && Equipped(c, cast.agents[index])
    requires cast.retryable == c.retryable && cast.fatal == c.fatal && model in cast.agents[index].models
    requires At(tl.events, was, trace, cast, runId, Active(t, book)) && AtRound(t, index, n, model)
    requires (retry ==> !book.answered) && (tools ==> !book.tooled)
    requires (fatal ==> InRange(cast.agents[index], n + 1)) && OnTime(c, NO_STEPS, tl, trace)
    modifies tl
    ensures tl.Valid() && tl.GoesOn()
    ensures At(tl.events, was, longer, cast, runId, q) && OnTime(c, NO_STEPS, tl, longer)
    ensures if fatal then q == Over(true)
            else q.Active? && AtRound(q.turn, index, n + 1, model) && (toolsLeft ==> !q.book.tooled)
    ensures toolsLeft ==> tools
    ensures |longer| >= |trace| + (if fatal then 4 else 2)
    ensures RoundTally(TallyOf(trace), TallyOf(longer), fatal, retry, tools, toolsLeft)
  {
    ghost var after;
    toolsLeft, longer, after := MaybeTool(c, tl, cast, runId, index, tools, was, trace, t, book);
    ghost var tooled := TallyOf(longer);
    q := Active(t, after);
    var prompt: Option<string> := *;
    if !(index == 0 && n == 0) {
      prompt := None;
    }
    if retry {
      longer, q := AskInVain(c, tl, cast, runId, index, model, prompt, was, longer, t, after);
    }
    ghost var tried := TallyOf(longer);
    longer, q := AskLast(c, tl, cast, runId, index, model, n, prompt, fatal, was, longer, q);
    RoundAdds(TallyOf(trace), tooled, tried, TallyOf(longer), fatal, retry, tools, toolsLeft);
  }

  /** What a turn of `made` calls adds to the tally: its answers, and the refusals and tool failures that were due. */
  predicate TurnTally(
    before: Tally, after: Tally, made: nat, stopped: bool, retry: bool, retryLeft: bool, tools: bool, toolsLeft: bool)
  {
    && after.refusals == before.refusals + (if retry && !retryLeft then 1 else 0) + (if stopped then 1 else 0)
    && after.answers + (if stopped then 1 else 0) == before.answers + made
    && after.toolFailures == before.toolFailures + (if tools && !toolsLeft then 1 else 0)
    && after.tools >= before.tools && (tools ==> (toolsLeft <==> after.tools == before.tools))
  }

  /**
   One agent's turn, from its start to its end, or to the run's when it was doomed; `made` is how
   many calls it drew.
   */
  method TakeTurn(
    c: Catalogue, tl: Timeline, cast: Cast, runId: string, index: nat, doomed: bool, retry: bool,
    tools: bool, ghost was: seq<Event>, ghost trace: seq<Event>, ghost book: Book)
    returns (retryLeft: bool, toolsLeft: bool, stopped: bool, ghost longer: seq<Event>, ghost made: nat,
             ghost after: Book)
    requires tl.Valid() && Sound(c) && index < |cast.agents| && Equipped(c, cast.agents[index])
    requires cast.retryable == c.retryable && cast.fatal == c.fatal
    requires At(tl.events, was, trace, cast, runId, Between(index, book)) && OnTime(c, NO_STEPS, tl, trace)
    requires (retry ==> !book.answered) && (tools ==> !book.tooled)
    modifies tl
    ensures tl.Valid() && tl.GoesOn()
    ensures At(tl.events, was, longer, cast, runId, if stopped then Over(true) else Between(index + 1, after))
    ensures OnTime(c, NO_STEPS, tl, longer) && (stopped ==> |longer| >= |trace| + 5)
    ensures InRange(cast.agents[index], made)
    ensures stopped <==> doomed && made >= 1
    ensures retryLeft <==> retry && made == 0
    ensures toolsLeft ==> tools
    ensures !stopped ==> (retryLeft ==> !after.answered) && (toolsLeft ==> !after.tooled)
    ensures cast.agents[index].least >= 1 ==> |longer| >= |trace| + 4
    ensures TurnTally(TallyOf(trace), TallyOf(longer), made, stopped, retry, retryLeft, tools, toolsLeft)
  {
    var agent := cast.agents[index];
    retryLeft, toolsLeft, stopped, after := retry, tools, false, book;
    var delay := Draws.Uniform(0.05, 0.4);
    ghost var t := Turn(index, false, None, None, 0);
    longer := Mark(
      tl, cast, runId, agent.name, AgentStarted, delay, c, was, trace, Between(index, book), Active(t, book));
    var choice := Draws.Below(|agent.models|);
    var model := agent.models[choice];
    var calls := Draws.Between(agent.least, agent.most);
    made := if calls < 0 then 0 else calls;
    for n := 0 to if calls < 0 then 0 else calls
      invariant tl.Valid() && tl.GoesOn()
      invariant At(tl.events, was, longer, cast, runId, Active(t, after)) && AtRound(t, index, n, model)
      invariant OnTime(c, NO_STEPS, tl, longer)
      invariant (retryLeft <==> retry && n == 0) && (toolsLeft ==> tools)
      invariant (retryLeft ==> !after.answered) && (toolsLeft ==> !after.tooled)
      invariant doomed ==> n < calls || calls <= 0
      invariant |longer| >= |trace| + 1 + 2 * n
      invariant TurnTally(TallyOf(trace), TallyOf(longer), n, false, retry, retryLeft, tools, toolsLeft)
    {
      var fatal := doomed && n == calls - 1;
      ghost var q;
      toolsLeft, longer, q := Round(
        c, tl, cast, runId, index, model, n, fatal, retryLeft, toolsLeft, was, longer, t, after);
      retryLeft := false;
      if fatal {
        stopped := true;
        return;
      }
      t, after := q.turn, q.book;
    }
    longer := Leave(tl, cast, runId, index, c, was, longer, t, after);
  }

  /** The end of a turn: a handoff to the next agent, if there is one, and the agent's own end. */
  method Leave(
    tl: Timeline, cast: Cast, runId: string, index: nat, ghost c: Catalogue, ghost was: seq<Event>,
    ghost trace: seq<Event>, ghost t: Turn, ghost book: Book)
    returns (ghost longer: seq<Event>)
    requires tl.Valid() && index < |cast.agents| && OnTime(c, NO_STEPS, tl, trace)
    requires At(tl.events, was, trace, cast, runId, Active(t, book)) && t.index == index && !t.handed
    requires InRange(cast.agents[index], t.calls)
    modifies tl
    ensures tl.Valid() && tl.GoesOn()
    ensures At(tl.events, was, longer, cast, runId, Between(index + 1, book)) && OnTime(c, NO_STEPS, tl, longer)
    ensures TallyOf(longer) == TallyOf(trace)
    ensures |longer| > |trace|
  {
    longer := trace;
    ghost var left := t;
    if index + 1 < |cast.agents| {
      left := t.(handed := true);
      longer := Mark(
        tl, cast, runId, cast.agents[index].name, AgentMessage(cast.agents[index + 1].name), 0.0, c, was, longer,
        Active(t, book), Active(left, book));
    }
    var delay := Draws.Uniform(0.01, 0.2);
    longer := Mark(
      tl, cast, runId, cast.agents[index].name, AgentCompleted, delay, c, was, longer, Active(left, book),
      Between(index + 1, book));
  }

  /** Which agent is to fail; none unless the outcome says so. */
  method Doom(scenario: Scenario, outcome: Fate) returns (doomed: int)
    requires outcome.Failing? ==> scenario.agents != []
    ensures if outcome.Failing? then 0 <= doomed < |scenario.agents| else doomed == -1
  {
    doomed := -1;
    if outcome.Failing? {
      doomed := Draws.Below(|scenario.agents|);
    }
  }

  /**
   The refusal is due until the first call, and the tool failure until the first tool; once it is no
   longer due there has been exactly one.
   */
  predicate Owed(tally: Tally, outcome: Fate, retry: bool, tools: bool) {
    && (retry <==> outcome.LlmRetry? && tally.answers == 0) && (tools <==> outcome.ToolError? && tally.tools == 0)
    && tally.refusals == (if outcome.LlmRetry? && !retry then 1 else 0)
    && tally.toolFailures == (if outcome.ToolError? && !tools then 1 else 0)
  }

  /** What holds of the trace when `index` agents have had their turn. */
  ghost predicate SoFar(
    scenario: Scenario, outcome: Fate, doomed: int, index: nat, trace: seq<Event>, retry: bool, tools: bool)
    requires doomed < |scenario.agents|
  {
    && Owed(TallyOf(trace), outcome, retry, tools)
    && (0 <= doomed < index ==> scenario.agents[doomed].least <= 0)
    && (CallsSomething(scenario) ==> |trace| >= 1 + 4 * index && TallyOf(trace).answers >= index)
  }

  lemma TurnTaken(
    scenario: Scenario, outcome: Fate, doomed: int, index: nat, before: seq<Event>, retry: bool, tools: bool,
    after: seq<Event>, retryLeft: bool, toolsLeft: bool, made: nat)
    requires index < |scenario.agents| && doomed < |scenario.agents|
    requires SoFar(scenario, outcome, doomed, index, before, retry, tools)
    requires InRange(scenario.agents[index], made) && (index == doomed ==> made == 0)
    requires (retryLeft <==> retry && made == 0) && (toolsLeft ==> tools)
    requires scenario.agents[index].least >= 1 ==> |after| >= |before| + 4
    requires TurnTally(TallyOf(before), TallyOf(after), made, false, retry, retryLeft, tools, toolsLeft)
    ensures SoFar(scenario, outcome, doomed, index + 1, after, retryLeft, toolsLeft)
  {
    assert scenario.agents[index] in scenario.agents;
  }

  /**
   What an outcome comes to: one refusal when a call is to be retried and there is one, one more
   when the run failed, and one failed tool when one is to fail and there is one.
   */
  predicate AsFated(tally: Tally, outcome: Fate, failed: bool) {
    && tally.refusals == (if outcome.LlmRetry? && tally.answers > 0 then 1 else 0) + (if failed then 1 else 0)
    && tally.toolFailures == (if outcome.ToolError? && tally.tools > 0 then 1 else 0)
  }

  lemma TurnFailed(
    scenario: Scenario, outcome: Fate, doomed: int, index: nat, before: seq<Event>, retry: bool, tools: bool,
    after: seq<Event>, retryLeft: bool, toolsLeft: bool, made: nat)
    requires index < |scenario.agents| && doomed < |scenario.agents| && outcome.Failing?
    requires SoFar(scenario, outcome, doomed, index, before, retry, tools)
    requires |after| >= |before| + 5
    requires TurnTally(TallyOf(before), TallyOf(after), made, true, retry, retryLeft, tools, toolsLeft)
    ensures CallsSomething(scenario) ==> |after| >= 6
    ensures AsFated(TallyOf(after), outcome, true)
  {
  }

  /** The run has had `index` turns, and is where that leaves it. */
  ghost predicate Underway(
    c: Catalogue, tl: Timeline, cast: Cast, runId: string, scenario: Scenario, outcome: Fate, doomed: int, index: nat,
    retry: bool, tools: bool, was: seq<Event>, trace: seq<Event>, book: Book)
    requires doomed < |scenario.agents|
    reads tl
  {
    && tl.Valid() && OnTime(c, NO_STEPS, tl, trace)
    && At(tl.events, was, trace, cast, runId, Between(index, book))
    && (retry ==> !book.answered) && (tools ==> !book.tooled)
    && SoFar(scenario, outcome, doomed, index, trace, retry, tools)
  }

  /** The run has ended, one way or the other. */
  ghost predicate Ended(
    c: Catalogue, tl: Timeline, cast: Cast, runId: string, scenario: Scenario, outcome: Fate, failed: bool,
    was: seq<Event>, trace: seq<Event>)
    reads tl
  {
    && tl.Valid() && OnTime(c, NO_STEPS, tl, trace) && At(tl.events, was, trace, cast, runId, Over(failed))
    && AsFated(TallyOf(trace), outcome, failed)
    && (CallsSomething(scenario) ==> |trace| >= 6 && (!failed ==> TallyOf(trace).answers >= 1))
  }

  /** Every agent has had its turn. */
  ghost predicate PlayedOut(
    c: Catalogue, tl: Timeline, cast: Cast, runId: string, scenario: Scenario, outcome: Fate, was: seq<Event>,
    trace: seq<Event>, book: Book)
    reads tl
  {
    && tl.Valid() && OnTime(c, NO_STEPS, tl, trace)
    && At(tl.events, was, trace, cast, runId, Between(|scenario.agents|, book))
    && AsFated(TallyOf(trace), outcome, false)
    && (CallsSomething(scenario) ==> |trace| >= 5 && TallyOf(trace).answers >= 1)
  }

  lemma NoneTaken(
    c: Catalogue, tl: Timeline, cast: Cast, runId: string, scenario: Scenario, outcome: Fate, doomed: int,
    was: seq<Event>, opening: seq<Event>)
    requires tl.Valid() && OnTime(c, NO_STEPS, tl, opening) && |opening| == 1 && TallyOf(opening) == TallyOf([])
    requires At(tl.events, was, opening, cast, runId, Between(0, Book(false, false)))
    requires doomed < |scenario.agents|
    ensures Underway(
      c, tl, cast, runId, scenario, outcome, doomed, 0, outcome.LlmRetry?, outcome.ToolError?, was, opening,
      Book(false, false))
  {
  }

  lemma AllTaken(
    c: Catalogue, tl: Timeline, cast: Cast, runId: string, scenario: Scenario, outcome: Fate, doomed: int,
    retry: bool, tools: bool, was: seq<Event>, trace: seq<Event>, book: Book)
    requires doomed < |scenario.agents|
    requires Underway(
      c, tl, cast, runId, scenario, outcome, doomed, |scenario.agents|, retry, tools, was, trace, book)
    ensures PlayedOut(c, tl, cast, runId, scenario, outcome, was, trace, book)
    ensures doomed >= 0 ==> InRange(scenario.agents[doomed], 0)
  {
  }

  /** `TakeTurn` of the next agent, and what it comes to for the run. */
  method NextTurn(
    c: Catalogue, tl: Timeline, cast: Cast, runId: string, scenario: Scenario, outcome: Fate, doomed: int, index: nat,
    retry: bool, tools: bool, ghost was: seq<Event>, ghost trace: seq<Event>, ghost book: Book)
    returns (retryLeft: bool, toolsLeft: bool, stopped: bool, ghost longer: seq<Event>, ghost made: nat,
             ghost after: Book)
    requires Playable(c, scenario, outcome) && cast == CastOf(c, scenario)
    requires index < |scenario.agents| && doomed < |scenario.agents| && (doomed >= 0 ==> outcome.Failing?)
    requires Underway(c, tl, cast, runId, scenario, outcome, doomed, index, retry, tools, was, trace, book)
    modifies tl
    ensures tl.GoesOn() && InRange(scenario.agents[index], made)
    ensures stopped <==> index == doomed && made >= 1
    ensures if stopped then Ended(c, tl, cast, runId, scenario, outcome, true, was, longer)
            else Underway(
              c, tl, cast, runId, scenario, outcome, doomed, index + 1, retryLeft, toolsLeft, was, longer, after)
  {
    assert scenario.agents[index] in scenario.agents;
    retryLeft, toolsLeft, stopped, longer, made, after := TakeTurn(
      c, tl, cast, runId, index, index == doomed, retry, tools, was, trace, book);
    if stopped {
      TurnFailed(scenario, outcome, doomed, index, trace, retry, tools, longer, retryLeft, toolsLeft, made);
    } else {
      TurnTaken(scenario, outcome, doomed, index, trace, retry, tools, longer, retryLeft, toolsLeft, made);
    }
  }

  /** Every agent's turn, up to the doomed one's failure if it makes a call; `made` is how many calls it drew. */
  method TakeTurns(
    c: Catalogue, tl: Timeline, cast: Cast, runId: string, scenario: Scenario, outcome: Fate, doomed: int,
    ghost was: seq<Event>, ghost opening: seq<Event>)
    returns (stopped: bool, ghost trace: seq<Event>, ghost made: nat, ghost book: Book)
    requires Playable(c, scenario, outcome) && cast == CastOf(c, scenario)
    requires if outcome.Failing? then 0 <= doomed < |scenario.agents| else doomed == -1
    requires Underway(
      c, tl, cast, runId, scenario, outcome, doomed, 0, outcome.LlmRetry?, outcome.ToolError?, was, opening,
      Book(false, false))
    modifies tl
    ensures tl.GoesOn()
    ensures stopped <==> outcome.Failing? && made >= 1
    ensures outcome.Failing? ==> InRange(scenario.agents[doomed], made)
    ensures if stopped then Ended(c, tl, cast, runId, scenario, outcome, true, was, trace)
            else PlayedOut(c, tl, cast, runId, scenario, outcome, was, trace, book)
  {
    var retry, tools := outcome.LlmRetry?, outcome.ToolError?;
    stopped, trace, made, book := false, opening, 0, Book(false, false);
    for index := 0 to |scenario.agents|
      invariant tl.GoesOn() && !stopped && made == 0
      invariant Underway(c, tl, cast, runId, scenario, outcome, doomed, index, retry, tools, was, trace, book)
    {
      ghost var drawn;
      retry, tools, stopped, trace, drawn, book := NextTurn(
        c, tl, cast, runId, scenario, outcome, doomed, index, retry, tools, was, trace, book);
      if stopped {
        made := drawn;
        return;
      }
    }
    AllTaken(c, tl, cast, runId, scenario, outcome, doomed, retry, tools, was, trace, book);
  }

  /** `TakeTurns` from a run that has only just started. */
  method TakeAllTurns(
    c: Catalogue, tl: Timeline, cast: Cast, runId: string, scenario: Scenario, outcome: Fate, doomed: int,
    ghost was: seq<Event>, ghost opening: seq<Event>)
    returns (stopped: bool, ghost trace: seq<Event>, ghost made: nat, ghost book: Book)
    requires Playable(c, scenario, outcome) && cast == CastOf(c, scenario)
    requires if outcome.Failing? then 0 <= doomed < |scenario.agents| else doomed == -1
    requires tl.Valid() && OnTime(c, NO_STEPS, tl, opening) && |opening| == 1 && TallyOf(opening) == TallyOf([])
    requires At(tl.events, was, opening, cast, runId, Between(0, Book(false, false)))
    modifies tl
    ensures tl.GoesOn()
    ensures stopped <==> outcome.Failing? && made >= 1
    ensures outcome.Failing? ==> InRange(scenario.agents[doomed], made)
    ensures if stopped then Ended(c, tl, cast, runId, scenario, outcome, true, was, trace)
            else PlayedOut(c, tl, cast, runId, scenario, outcome, was, trace, book)
  {
    NoneTaken(c, tl, cast, runId, scenario, outcome, doomed, was, opening);
    stopped, trace, made, book := TakeTurns(c, tl, cast, runId, scenario, outcome, doomed, was, opening);
  }

  method FinishRun(
    ghost c: Catalogue, tl: Timeline, cast: Cast, runId: string, ghost scenario: Scenario, ghost outcome: Fate,
    ghost was: seq<Event>, ghost trace: seq<Event>, ghost book: Book)
    returns (ghost longer: seq<Event>)
    requires |cast.agents| == |scenario.agents|
    requires PlayedOut(c, tl, cast, runId, scenario, outcome, was, trace, book)
    modifies tl
    ensures tl.GoesOn() && Ended(c, tl, cast, runId, scenario, outcome, false, was, longer)
  {
    longer := Mark(
      tl, cast, runId, "", RunCompleted, 0.0, c, was, trace, Between(|cast.agents|, book), Over(false));
  }

  /**
   One run of one scenario, to its end. Whatever is drawn, the trace is accepted by both
   acceptors; it fails exactly when the outcome says so and the doomed agent makes a call at all.
   */
  method AgentRun(c: Catalogue, tl: Timeline, runId: string, scenario: Scenario, outcome: Fate)
    returns (ghost trace: seq<Event>, ghost doomedCalls: nat)
    requires tl.Valid() && Playable(c, scenario, outcome) && Orderly(tl.events)
    modifies tl
    ensures tl.Valid() && tl.GoesOn()
    ensures tl.events == old(tl.events) + trace && Orderly(tl.events)
    ensures Complete(CastOf(c, scenario), runId, trace, outcome.Failing? && doomedCalls >= 1)
    ensures Paced(c, NO_STEPS, trace, tl.moments) && tl.moments[|old(tl.events)|] == old(tl.clock)
    ensures outcome.Failing? ==> exists a :: a in scenario.agents && InRange(a, doomedCalls)
    // So it cannot fail, whatever it is told, where no agent makes a call.
    ensures outcome.Failing? && (forall a :: a in scenario.agents ==> a.most <= 0) ==>
      Complete(CastOf(c, scenario), runId, trace, false)
    ensures CallsSomething(scenario) ==> |trace| >= 6 && (outcome.Failing? ==> doomedCalls >= 1)
    ensures CallsSomething(scenario) && !outcome.Failing? ==> TallyOf(trace).answers >= 1
    ensures AsFated(TallyOf(trace), outcome, outcome.Failing? && doomedCalls >= 1)
  {
    var cast := CastOf(c, scenario);
    ghost var was := tl.events;
    assert was + [] == was;
    trace := Mark(tl, cast, runId, "", RunStarted, 0.0, c, was, [], Fresh, Between(0, Book(false, false)));
    var doomed := Doom(scenario, outcome);
    var stopped;
    ghost var book;
    stopped, trace, doomedCalls, book := TakeAllTurns(c, tl, cast, runId, scenario, outcome, doomed, was, trace);
    assert outcome.Failing? ==> scenario.agents[doomed] in scenario.agents;
    if !stopped {
      trace := FinishRun(c, tl, cast, runId, scenario, outcome, was, trace, book);
    }
  }

  /** A second call with the first one's model and prompt, under an id of its own. */
  predicate Repeats(first: Event, second: Event)
    requires first.body.LlmStarted?
  {
    && Asks(second, first.body.request.model, first.body.request.prompt)
    && second.body.call != first.body.call
  }

  /**
   What a complete trace says of a refused call, from the two acceptors together: it is either
   the agent's end, or followed at once by a call to the same model with the same prompt under
   another id. The rest of the request is drawn again: the request recurs if and only if the draws do.
   */
  lemma RefusedCallIsRepeated(
    cast: Cast, runId: string, was: seq<Event>, trace: seq<Event>, failed: bool, j: nat)
    requires Balanced(was + trace) && Complete(cast, runId, trace, failed)
    requires j < |trace| && trace[j].body.LlmFailed?
    ensures 0 < j && j + 1 < |trace| && trace[j - 1].body.LlmStarted?
    ensures trace[j + 1].body == AgentFailed(trace[j].body.cause) || Repeats(trace[j - 1], trace[j + 1])
    ensures trace[j + 1].body.LlmStarted? ==>
      (trace[j + 1].body.request == trace[j - 1].body.request
       <==> trace[j + 1].body.request.params == trace[j - 1].body.request.params)
  {
    RequestBefore(cast, runId, was, trace, failed, j);
    RefusalIsAnswered(cast, runId, trace, failed, j);
    if trace[j + 1].body.LlmStarted? {
      var events, n := was + trace, |was|;
      assert events[n + j - 1] == trace[j - 1] && events[n + j + 1] == trace[j + 1];
      CallIdsUnique(events, n + j - 1, n + j + 1);
    }
  }

  lemma RequestBefore(
    cast: Cast, runId: string, was: seq<Event>, trace: seq<Event>, failed: bool, j: nat)
    requires Balanced(was + trace) && Complete(cast, runId, trace, failed)
    requires j < |trace| && trace[j].body.LlmFailed?
    ensures j > 0 && trace[j - 1].body.LlmStarted?
  {
    Enclosed(cast, runId, trace, failed);
    var events, n := was + trace, |was|;
    assert events[n + j] == trace[j] && events[n + j - 1] == trace[j - 1];
    RefusalFollowsRequest(events, n + j);
  }

  /** Two settings drawn for one call of one agent, which is refused and asked again. */
  datatype Retry = Retry(
    runId: string, agent: string, model: string, prompt: Option<string>, cause: string, first: Params, second: Params)

  function RetriedEvent(r: Retry, k: nat): Event {
    var body := match k
      case 0 => RunStarted
      case 1 => AgentStarted
      case 2 => LlmStarted(LlmId(2), Request(r.model, r.prompt, r.first))
      case 3 => LlmFailed(LlmId(2), r.model, r.cause)
      case 4 => LlmStarted(LlmId(4), Request(r.model, r.prompt, r.second))
      case 5 => LlmCompleted(LlmId(4), r.model)
      case 6 => AgentCompleted
      case _ => RunCompleted;
    Event(r.runId, k + 1, if 1 <= k <= 6 then r.agent else "", body)
  }

  /** One agent of one call, whose model and error are the ones drawn. */
  function RetriedCast(r: Retry): Cast {
    Cast([Agent(r.agent, [r.model], [], 1, 1)], [r.cause], [])
  }

  function RetriedPhase(r: Retry, k: nat): Phase {
    var asked := Turn(0, false, Some(r.model), r.prompt, 0);
    match k
    case 0 => Fresh
    case 1 => Between(0, Book(false, false))
    case 2 => Active(Turn(0, false, None, None, 0), Book(false, false))
    case 4 => Unanswered(asked, Book(false, false), r.cause)
    case 6 => Active(asked.(calls := 1), Book(true, false))
    case 7 => Between(1, Book(true, false))
    case 8 => Over(false)
    case _ => Active(asked, Book(false, false))
  }

  function RetriedCalls(r: Retry, k: nat): Calls {
    match k
    case 3 => Receiving(LlmId(2), r.runId, r.agent, 1, {LlmId(2)})
    case 4 => Calls(None, {LlmId(2)})
    case 5 => Receiving(LlmId(4), r.runId, r.agent, 1, {LlmId(2), LlmId(4)})
    case _ => Calls(None, if k < 3 then {} else {LlmId(2), LlmId(4)})
  }

  lemma RetriedStep(r: Retry, k: nat)
    requires k < 8
    ensures AgentTrace.Next(RetriedCast(r), r.runId, RetriedPhase(r, k), RetriedEvent(r, k))
         == Some(RetriedPhase(r, k + 1))
    ensures CallBrackets.Next(RetriedCalls(r, k), RetriedEvent(r, k)) == Some(RetriedCalls(r, k + 1))
  {
    var none: set<CallId> := {};
    assert none + {LlmId(2)} == {LlmId(2)} && {LlmId(2)} + {LlmId(4)} == {LlmId(2), LlmId(4)};
  }

  /** The run up to its k-th event. */
  function Retried(r: Retry, k: nat): seq<Event> { seq(k, i requires 0 <= i < k => RetriedEvent(r, i)) }

  lemma RetriedGrows(r: Retry, k: nat)
    requires k > 0
    ensures Retried(r, k) == Retried(r, k - 1) + [RetriedEvent(r, k - 1)]
  {
  }

  lemma {:induction false} RetriedByAgent(r: Retry, k: nat)
    requires k <= 8
    ensures PhaseOf(RetriedCast(r), r.runId, Retried(r, k)) == Some(RetriedPhase(r, k))
  {
    if k > 0 {
      RetriedByAgent(r, k - 1);
      RetriedStep(r, k - 1);
      AgentTrace.Extend(RetriedCast(r), r.runId, Retried(r, k - 1), RetriedEvent(r, k - 1));
      RetriedGrows(r, k);
    }
  }

  lemma {:induction false} RetriedInBrackets(r: Retry, k: nat)
    requires k <= 8
    ensures CallsOf(Retried(r, k)) == Some(RetriedCalls(r, k))
  {
    if k > 0 {
      RetriedInBrackets(r, k - 1);
      RetriedStep(r, k - 1);
      CallBrackets.Extend(Retried(r, k - 1), RetriedEvent(r, k - 1));
      RetriedGrows(r, k);
    }
  }

  /** Whatever the two draws, the run is well formed: so what is asked again is something else whenever they differ. */
  lemma RetryMayDiffer(r: Retry)
    ensures var trace := Retried(r, 8);
      && Complete(RetriedCast(r), r.runId, trace, false) && Balanced(trace)
      && trace[2].body.LlmStarted? && trace[3].body.LlmFailed? && trace[4].body.LlmStarted?
      && (trace[2].body.request == trace[4].body.request <==> r.first == r.second)
  {
    RetriedByAgent(r, 8);
    RetriedInBrackets(r, 8);
  }

  /** A call opened while an agent is at work is closed before that agent ends. */
  lemma CallsCloseInTurn(was: seq<Event>, trace: seq<Event>, a: nat, b: nat, i: nat) returns (j: nat)
    requires Balanced(was + trace) && AgentBrackets(trace, a, b) && a < i < b && Starts(trace[i])
    ensures i < j < b && Brackets(was + trace, |was| + i, |was| + j)
  {
    var events := was + trace;
    assert events[|was| + i] == trace[i] && events[|was| + b] == trace[b];
    var m := EveryCallClosesOnce(events, |was| + i);
    assert !Streams(events[|was| + b]) && !Closes(events[|was| + b]);
    j := m - |was|;
  }
}
