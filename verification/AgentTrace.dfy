/**
 What one agent run's trace must look like: an acceptor over its events for a given list
 of agents, and the plain statements acceptance amounts to.
 */
module AgentTrace {
  import opened Timelines
  import opened Wrappers

  /** An agent of a scenario: what it may ask and use, and how many calls it draws in its turn. */
  datatype Agent = Agent(name: string, models: seq<string>, tools: seq<string>, least: int, most: int)

  /** Who appears in a run, and which refusals are tried again and which end it. */
  datatype Cast = Cast(agents: seq<Agent>, retryable: seq<string>, fatal: seq<string>)

  /** What a run has seen so far: an answered call, a tool used. */
  datatype Book = Book(answered: bool, tooled: bool)

  /** One agent's turn: `calls` are behind it; `model` is the one they go to, once there was one. */
  datatype Turn = Turn(index: nat, handed: bool, model: Option<string>, prompt: Option<string>, calls: nat)

  datatype Phase =
    | Fresh
    | Between(finished: nat, book: Book)
    | Active(turn: Turn, book: Book)
    | Unanswered(turn: Turn, book: Book, cause: string)
    | Broken(index: nat, cause: string)
    | Over(failed: bool)

  predicate Terminal(e: Event) {
    e.body.RunCompleted? || e.body.RunFailed?
  }

  predicate AgentCloses(e: Event) {
    e.body.AgentCompleted? || e.body.AgentFailed?
  }

  predicate Asks(e: Event, model: string, prompt: Option<string>) {
    e.body.LlmStarted? && e.body.request.model == model && e.body.request.prompt == prompt
  }

  /** The agent's number of calls is within its bounds; a bound below zero draws none. */
  predicate InRange(agent: Agent, calls: nat) {
    agent.least <= calls && (calls == 0 || calls <= agent.most)
  }

  /** A first attempt: to the turn's one model, with a prompt only where the run's very first call may have one. */
  predicate MayAsk(cast: Cast, t: Turn, model: string, prompt: Option<string>)
    requires t.index < |cast.agents|
  {
    && !t.handed && model in cast.agents[t.index].models && (t.model == None || t.model == Some(model))
    && (prompt.Some? ==> t.index == 0 && t.calls == 0)
  }

  /** A refused attempt is made again only for an error that is worth it, and before any call was answered. */
  predicate MayRetry(cast: Cast, t: Turn, book: Book, cause: string, model: string, prompt: Option<string>) {
    t.model == Some(model) && t.prompt == prompt && cause in cast.retryable && !book.answered
  }

  /** What an agent at work may say. */
  function NextInTurn(cast: Cast, t: Turn, book: Book, e: Event): Option<Phase>
    requires t.index < |cast.agents|
  {
    match e.body
    case LlmStarted(_, request) =>
      if MayAsk(cast, t, request.model, request.prompt)
      then Some(Active(t.(model := Some(request.model), prompt := request.prompt), book)) else None
    case LlmFirstToken(_) => if t.handed then None else Some(Active(t, book))
    case LlmChunk(_, _) => if t.handed then None else Some(Active(t, book))
    case LlmCompleted(_, model) =>
      if t.handed || t.model != Some(model) then None
      else Some(Active(t.(calls := t.calls + 1), book.(answered := true)))
    case LlmFailed(_, model, cause) =>
      if t.handed || t.model != Some(model) then None else Some(Unanswered(t, book, cause))
    case ToolStarted(_, tool) =>
      if t.handed || tool !in cast.agents[t.index].tools then None else Some(Active(t, book))
    case ToolCompleted(_, _) => if t.handed then None else Some(Active(t, book.(tooled := true)))
    case ToolFailed(_, _) => if t.handed || book.tooled then None else Some(Active(t, book.(tooled := true)))
    case AgentMessage(to) =>
      if !t.handed && t.index + 1 < |cast.agents| && to == cast.agents[t.index + 1].name
      then Some(Active(t.(handed := true), book)) else None
    case AgentCompleted =>
      if t.handed == (t.index + 1 < |cast.agents|) && InRange(cast.agents[t.index], t.calls)
      then Some(Between(t.index + 1, book)) else None
    case _ => None
  }

  /** What may follow a refusal: the same again, or the end of the agent. */
  function NextAfterRefusal(cast: Cast, t: Turn, book: Book, cause: string, e: Event): Option<Phase>
    requires t.index < |cast.agents|
  {
    match e.body
    case LlmStarted(_, request) =>
      if MayRetry(cast, t, book, cause, request.model, request.prompt)
      then Some(Active(t.(handed := false), book)) else None
    case AgentFailed(why) =>
      if why == cause && cause in cast.fatal && InRange(cast.agents[t.index], t.calls + 1)
      then Some(Broken(t.index, cause)) else None
    case _ => None
  }

  function Next(cast: Cast, runId: string, p: Phase, e: Event): Option<Phase> {
    if e.runId != runId then None
    else match p
      case Fresh =>
        if e.body.RunStarted? && e.agent == "" then Some(Between(0, Book(false, false))) else None
      case Between(i, book) =>
        if e.body.AgentStarted? && i < |cast.agents| && e.agent == cast.agents[i].name
        then Some(Active(Turn(i, false, None, None, 0), book))
        else if e.body.RunCompleted? && i == |cast.agents| && e.agent == "" then Some(Over(false))
        else None
      case Active(t, book) =>
        if t.index < |cast.agents| && e.agent == cast.agents[t.index].name then NextInTurn(cast, t, book, e) else None
      case Unanswered(t, book, cause) =>
        if t.index < |cast.agents| && e.agent == cast.agents[t.index].name
        then NextAfterRefusal(cast, t, book, cause, e) else None
      case Broken(i, cause) =>
        if i < |cast.agents| && e.agent == "" && e.body == RunFailed(cast.agents[i].name + ": " + cause)
        then Some(Over(true)) else None
      case Over(_) => None
  }

  function PhaseOf(cast: Cast, runId: string, trace: seq<Event>): Option<Phase> {
    if trace == [] then Some(Fresh)
    else
      var n := |trace| - 1;
      var before := PhaseOf(cast, runId, trace[..n]);
      if before.None? then None else Next(cast, runId, before.value, trace[n])
  }

  predicate Complete(cast: Cast, runId: string, trace: seq<Event>, failed: bool) {
    PhaseOf(cast, runId, trace) == Some(Over(failed))
  }

  lemma Extend(cast: Cast, runId: string, trace: seq<Event>, e: Event)
    requires PhaseOf(cast, runId, trace).Some?
    ensures PhaseOf(cast, runId, trace + [e]) == Next(cast, runId, PhaseOf(cast, runId, trace).value, e)
  {
    assert (trace + [e])[..|trace|] == trace;
  }

  lemma {:induction false} Accepted(cast: Cast, runId: string, trace: seq<Event>, i: nat)
    requires PhaseOf(cast, runId, trace).Some? && i <= |trace|
    ensures PhaseOf(cast, runId, trace[..i]).Some?
  {
    var n := |trace| - 1;
    if i == |trace| {
      assert trace[..i] == trace;
    } else {
      Accepted(cast, runId, trace[..n], i);
      assert trace[..n][..i] == trace[..i];
    }
  }

  lemma StepAt(cast: Cast, runId: string, trace: seq<Event>, i: nat)
    requires PhaseOf(cast, runId, trace).Some? && i < |trace|
    ensures PhaseOf(cast, runId, trace[..i]).Some? && PhaseOf(cast, runId, trace[..i + 1]).Some?
    ensures PhaseOf(cast, runId, trace[..i + 1])
         == Next(cast, runId, PhaseOf(cast, runId, trace[..i]).value, trace[i])
  {
    Accepted(cast, runId, trace, i);
    Accepted(cast, runId, trace, i + 1);
    assert trace[..i + 1][..i] == trace[..i];
  }

  lemma StartsOnce(cast: Cast, runId: string, trace: seq<Event>, i: nat)
    requires PhaseOf(cast, runId, trace).Some? && i < |trace|
    ensures trace[i].runId == runId && (trace[i].body.RunStarted? <==> i == 0)
  {
    StepAt(cast, runId, trace, i);
    NotFreshAgain(cast, runId, trace, i);
  }

  lemma OverAfterTerminal(cast: Cast, runId: string, p: Phase, e: Event)
    requires Next(cast, runId, p, e).Some?
    ensures !p.Over?
    ensures Next(cast, runId, p, e).value.Over? <==> Terminal(e)
    ensures Terminal(e) ==> Next(cast, runId, p, e) == Some(Over(e.body.RunFailed?))
  {
  }

  lemma PhaseAfter(cast: Cast, runId: string, trace: seq<Event>, i: nat)
    requires PhaseOf(cast, runId, trace).Some? && i < |trace|
    ensures PhaseOf(cast, runId, trace[..i + 1]).Some?
    ensures PhaseOf(cast, runId, trace[..i + 1]).value.Over? <==> Terminal(trace[i])
    ensures Terminal(trace[i]) ==> PhaseOf(cast, runId, trace[..i + 1]) == Some(Over(trace[i].body.RunFailed?))
    ensures i > 0 ==> !Terminal(trace[i - 1])
  {
    StepAt(cast, runId, trace, i);
    OverAfterTerminal(cast, runId, PhaseOf(cast, runId, trace[..i]).value, trace[i]);
    if i > 0 {
      StepAt(cast, runId, trace, i - 1);
      OverAfterTerminal(cast, runId, PhaseOf(cast, runId, trace[..i - 1]).value, trace[i - 1]);
    }
  }

  lemma EndsOnce(cast: Cast, runId: string, trace: seq<Event>, failed: bool, i: nat)
    requires Complete(cast, runId, trace, failed) && i < |trace|
    ensures Terminal(trace[i]) <==> i == |trace| - 1
    ensures Terminal(trace[i]) ==> (failed <==> trace[i].body.RunFailed?)
  {
    PhaseAfter(cast, runId, trace, i);
    if i + 1 < |trace| {
      PhaseAfter(cast, runId, trace, i + 1);
    } else {
      assert trace[..i + 1] == trace;
    }
  }

  /** The first event is the run's start, the last its only terminal one, and that one says whether it failed. */
  lemma Enclosed(cast: Cast, runId: string, trace: seq<Event>, failed: bool)
    requires Complete(cast, runId, trace, failed)
    ensures |trace| >= 2
    ensures forall i :: 0 <= i < |trace| ==> trace[i].runId == runId
    ensures forall i :: 0 <= i < |trace| ==> (trace[i].body.RunStarted? <==> i == 0)
    ensures forall i :: 0 <= i < |trace| ==> (Terminal(trace[i]) <==> i == |trace| - 1)
    ensures failed <==> trace[|trace| - 1].body.RunFailed?
  {
    forall i | 0 <= i < |trace|
      ensures trace[i].runId == runId && (trace[i].body.RunStarted? <==> i == 0)
      ensures Terminal(trace[i]) <==> i == |trace| - 1
      ensures Terminal(trace[i]) ==> (failed <==> trace[i].body.RunFailed?)
    {
      StartsOnce(cast, runId, trace, i);
      EndsOnce(cast, runId, trace, failed, i);
    }
  }

  lemma NotFreshAgain(cast: Cast, runId: string, trace: seq<Event>, i: nat)
    requires PhaseOf(cast, runId, trace).Some? && i <= |trace|
    ensures PhaseOf(cast, runId, trace[..i]) == Some(Fresh) <==> i == 0
  {
    if i > 0 {
      StepAt(cast, runId, trace, i - 1);
      NeverFresh(cast, runId, PhaseOf(cast, runId, trace[..i - 1]).value, trace[i - 1]);
    }
  }

  lemma NeverFresh(cast: Cast, runId: string, p: Phase, e: Event)
    requires Next(cast, runId, p, e).Some?
    ensures Next(cast, runId, p, e).value != Fresh
  {
  }

  function Names(agents: seq<Agent>): (names: seq<string>)
    ensures |names| == |agents| && forall i :: 0 <= i < |agents| ==> names[i] == agents[i].name
  {
    seq(|agents|, i requires 0 <= i < |agents| => agents[i].name)
  }

  /** The agents that started, in the order they did. */
  function Started(trace: seq<Event>): seq<string> {
    if trace == [] then []
    else
      var n := |trace| - 1;
      Started(trace[..n]) + if trace[n].body.AgentStarted? then [trace[n].agent] else []
  }

  function Reached(p: Phase): nat {
    match p
    case Between(i, _) => i
    case Active(t, _) => t.index + 1
    case Unanswered(t, _, _) => t.index + 1
    case Broken(i, _) => i + 1
    case _ => 0
  }

  lemma ReachedStep(cast: Cast, runId: string, p: Phase, e: Event)
    requires Next(cast, runId, p, e).Some? && !Next(cast, runId, p, e).value.Over?
    ensures !p.Over?
    ensures var k, q := Reached(p), Reached(Next(cast, runId, p, e).value);
      if e.body.AgentStarted? then q == k + 1 && k < |cast.agents| && e.agent == cast.agents[k].name else q == k
  {
  }

  lemma NamesGrow(agents: seq<Agent>, k: nat)
    requires k < |agents|
    ensures Names(agents[..k + 1]) == Names(agents[..k]) + [agents[k].name]
  {
  }

  lemma {:induction false} StartedIsPrefix(cast: Cast, runId: string, trace: seq<Event>)
    requires PhaseOf(cast, runId, trace).Some? && !PhaseOf(cast, runId, trace).value.Over?
    ensures var k := Reached(PhaseOf(cast, runId, trace).value);
            k <= |cast.agents| && Started(trace) == Names(cast.agents[..k])
  {
    if trace != [] {
      var n := |trace| - 1;
      var p := PhaseOf(cast, runId, trace[..n]).value;
      ReachedStep(cast, runId, p, trace[n]);
      StartedIsPrefix(cast, runId, trace[..n]);
      if trace[n].body.AgentStarted? {
        NamesGrow(cast.agents, Reached(p));
      }
    }
  }

  lemma NamesPrefix(agents: seq<Agent>, k: nat)
    requires k <= |agents|
    ensures Names(agents[..k]) <= Names(agents)
    ensures k > 0 ==> Names(agents[..k]) != []
    ensures k == |agents| ==> Names(agents[..k]) == Names(agents)
  {
  }

  lemma LastStep(cast: Cast, runId: string, p: Phase, e: Event)
    requires Next(cast, runId, p, e).Some? && Next(cast, runId, p, e).value.Over?
    ensures !p.Over? && !e.body.AgentStarted?
    ensures if e.body.RunFailed? then Reached(p) > 0 else Reached(p) == |cast.agents|
    ensures Next(cast, runId, p, e).value.failed <==> e.body.RunFailed?
  {
  }

  /** Agents start in the scenario's order; a run that succeeded went through every one of them. */
  lemma AgentsInOrder(cast: Cast, runId: string, trace: seq<Event>, failed: bool)
    requires Complete(cast, runId, trace, failed)
    ensures Started(trace) <= Names(cast.agents)
    ensures !failed ==> Started(trace) == Names(cast.agents)
    ensures failed ==> Started(trace) != []
  {
    var n := |trace| - 1;
    var p := PhaseOf(cast, runId, trace[..n]).value;
    StartedIsPrefix(cast, runId, trace[..n]);
    LastStep(cast, runId, p, trace[n]);
    NamesPrefix(cast.agents, Reached(p));
  }

  /** Event j ends the agent event i started, and every event in between is that agent's own work. */
  ghost predicate AgentBrackets(trace: seq<Event>, i: int, j: int) {
    && 0 <= i < j < |trace|
    && trace[i].body.AgentStarted? && AgentCloses(trace[j]) && trace[i].agent == trace[j].agent
    && forall k :: i < k < j ==>
         trace[k].agent == trace[i].agent && !trace[k].body.AgentStarted? && !AgentCloses(trace[k])
  }

  predicate Inside(p: Phase) {
    p.Active? || p.Unanswered?
  }

  lemma InsideStep(cast: Cast, runId: string, p: Phase, e: Event)
    requires Inside(p) && Next(cast, runId, p, e).Some?
    ensures p.turn.index < |cast.agents| && e.agent == cast.agents[p.turn.index].name && !e.body.AgentStarted?
    ensures !AgentCloses(e) ==>
      Inside(Next(cast, runId, p, e).value) && Next(cast, runId, p, e).value.turn.index == p.turn.index
  {
  }

  /** At `k` the agent that event `i` started is still at work, on nothing but its own business. */
  ghost predicate AtWork(cast: Cast, runId: string, trace: seq<Event>, i: nat, k: nat) {
    && i < k <= |trace| && trace[i].body.AgentStarted? && PhaseOf(cast, runId, trace[..k]).Some?
    && (var p := PhaseOf(cast, runId, trace[..k]).value;
        Inside(p) && p.turn.index < |cast.agents| && cast.agents[p.turn.index].name == trace[i].agent)
    && forall m :: i < m < k ==>
         trace[m].agent == trace[i].agent && !trace[m].body.AgentStarted? && !AgentCloses(trace[m])
  }

  lemma WorksOn(cast: Cast, runId: string, trace: seq<Event>, i: nat, k: nat)
    requires PhaseOf(cast, runId, trace).Some? && k < |trace| && AtWork(cast, runId, trace, i, k)
    ensures if AgentCloses(trace[k]) then AgentBrackets(trace, i, k) else AtWork(cast, runId, trace, i, k + 1)
  {
    StepAt(cast, runId, trace, k);
    InsideStep(cast, runId, PhaseOf(cast, runId, trace[..k]).value, trace[k]);
  }

  lemma HandingStep(cast: Cast, runId: string, p: Phase, e: Event)
    requires Next(cast, runId, p, e).Some?
    ensures e.body.AgentCompleted? ==> p.Active? && (p.turn.handed <==> p.turn.index + 1 < |cast.agents|)
    ensures var q := Next(cast, runId, p, e).value;
      q.Active? && q.turn.handed ==>
        q.turn.index + 1 < |cast.agents| && e.body == AgentMessage(cast.agents[q.turn.index + 1].name)
  {
  }

  lemma CompletedAt(cast: Cast, runId: string, trace: seq<Event>, j: nat)
    requires PhaseOf(cast, runId, trace).Some? && j < |trace| && trace[j].body.AgentCompleted?
    ensures j > 0 && PhaseOf(cast, runId, trace[..j]).Some?
    ensures var p := PhaseOf(cast, runId, trace[..j]).value;
      p.Active? && (p.turn.handed <==> p.turn.index + 1 < |cast.agents|)
  {
    StepAt(cast, runId, trace, j);
    HandingStep(cast, runId, PhaseOf(cast, runId, trace[..j]).value, trace[j]);
  }

  /** Every agent but the last ends by handing off to the one after it. */
  lemma HandsOff(cast: Cast, runId: string, trace: seq<Event>, j: nat)
    requires PhaseOf(cast, runId, trace).Some? && j < |trace| && trace[j].body.AgentCompleted?
    requires Started(trace[..j]) != Names(cast.agents)
    ensures j > 0 && |Started(trace[..j])| < |cast.agents|
    ensures trace[j - 1].body == AgentMessage(cast.agents[|Started(trace[..j])|].name)
  {
    CompletedAt(cast, runId, trace, j);
    StartedIsPrefix(cast, runId, trace[..j]);
    StepAt(cast, runId, trace, j - 1);
    HandingStep(cast, runId, PhaseOf(cast, runId, trace[..j - 1]).value, trace[j - 1]);
  }

  lemma RequestStep(cast: Cast, runId: string, p: Phase, e: Event)
    requires Next(cast, runId, p, e).Some? && e.body.LlmStarted?
    ensures var q := Next(cast, runId, p, e).value;
      q.Active? && q.turn.model == Some(e.body.request.model) && q.turn.prompt == e.body.request.prompt
  {
  }

  lemma RefusalStep(cast: Cast, runId: string, p: Phase, e: Event)
    requires Next(cast, runId, p, e).Some? && e.body.LlmFailed? && p.Active?
    ensures Next(cast, runId, p, e).value == Unanswered(p.turn, p.book, e.body.cause)
  {
  }

  lemma AnswerStep(cast: Cast, runId: string, p: Phase, e: Event)
    requires Next(cast, runId, p, e).Some? && p.Unanswered?
    ensures e.body == AgentFailed(p.cause) || (e.body.LlmStarted? && p.turn.model == Some(e.body.request.model)
                                               && p.turn.prompt == e.body.request.prompt)
  {
  }

  lemma RequestAt(cast: Cast, runId: string, trace: seq<Event>, i: nat)
    requires PhaseOf(cast, runId, trace).Some? && i < |trace| && trace[i].body.LlmStarted?
    ensures PhaseOf(cast, runId, trace[..i + 1]).Some?
    ensures var q := PhaseOf(cast, runId, trace[..i + 1]).value;
      q.Active? && q.turn.model == Some(trace[i].body.request.model) && q.turn.prompt == trace[i].body.request.prompt
  {
    StepAt(cast, runId, trace, i);
    RequestStep(cast, runId, PhaseOf(cast, runId, trace[..i]).value, trace[i]);
  }

  lemma RefusalAt(cast: Cast, runId: string, trace: seq<Event>, j: nat)
    requires PhaseOf(cast, runId, trace).Some? && 0 < j < |trace|
    requires trace[j].body.LlmFailed? && trace[j - 1].body.LlmStarted?
    ensures PhaseOf(cast, runId, trace[..j + 1]).Some?
    ensures var q, request := PhaseOf(cast, runId, trace[..j + 1]).value, trace[j - 1].body.request;
      && q.Unanswered? && q.cause == trace[j].body.cause
      && q.turn.model == Some(request.model) && q.turn.prompt == request.prompt
  {
    RequestAt(cast, runId, trace, j - 1);
    StepAt(cast, runId, trace, j);
    RefusalStep(cast, runId, PhaseOf(cast, runId, trace[..j]).value, trace[j]);
  }

  /**
   A refused call is never left standing: the next event either ends the agent with that
   error or asks the same model with the same prompt again.
   */
  lemma RefusalIsAnswered(cast: Cast, runId: string, trace: seq<Event>, failed: bool, j: nat)
    requires Complete(cast, runId, trace, failed) && 0 < j < |trace|
    requires trace[j].body.LlmFailed? && trace[j - 1].body.LlmStarted?
    ensures j + 1 < |trace|
    ensures trace[j + 1].body == AgentFailed(trace[j].body.cause)
            || Asks(trace[j + 1], trace[j - 1].body.request.model, trace[j - 1].body.request.prompt)
  {
    RefusalAt(cast, runId, trace, j);
    assert trace[..|trace|] == trace;
    if j + 1 < |trace| {
      StepAt(cast, runId, trace, j + 1);
      AnswerStep(cast, runId, PhaseOf(cast, runId, trace[..j + 1]).value, trace[j + 1]);
    }
  }

  // ── What an agent does in its turn ─────────────────────────────────────────

  /** How many calls are answered in a stretch of a trace. */
  function Answers(work: seq<Event>): nat {
    if work == [] then 0
    else
      var n := |work| - 1;
      Answers(work[..n]) + if work[n].body.LlmCompleted? then 1 else 0
  }

  /** All between two positions is to the agent's liking: its own tools, and one of its models for every call. */
  ghost predicate InCharacter(agent: Agent, model: Option<string>, trace: seq<Event>, i: int, j: int) {
    && 0 <= i < j <= |trace| && (model.Some? ==> model.value in agent.models)
    && forall m :: i < m < j ==> AsCast(agent, model, trace[m])
  }

  predicate AsCast(agent: Agent, model: Option<string>, e: Event) {
    && (e.body.LlmStarted? ==> model == Some(e.body.request.model))
    && (e.body.ToolStarted? ==> e.body.tool in agent.tools)
  }

  lemma CastStep(cast: Cast, runId: string, p: Phase, e: Event)
    requires Inside(p) && Next(cast, runId, p, e).Some?
    requires p.turn.index < |cast.agents| && (p.Unanswered? ==> p.turn.model.Some?)
    requires p.turn.model.Some? ==> p.turn.model.value in cast.agents[p.turn.index].models
    ensures var agent, q := cast.agents[p.turn.index], Next(cast, runId, p, e).value;
      if AgentCloses(e) then InRange(agent, p.turn.calls + if e.body.AgentFailed? then 1 else 0)
      else
        && Inside(q) && q.turn.index == p.turn.index && (q.Unanswered? ==> q.turn.model.Some?)
        && q.turn.calls == p.turn.calls + (if e.body.LlmCompleted? then 1 else 0)
        && (q.turn.model == p.turn.model || p.turn.model == None)
        && (q.turn.model.Some? ==> q.turn.model.value in agent.models)
        && AsCast(agent, q.turn.model, e)
  {
  }

  /** At `k` the agent that event `i` started has kept to its part. */
  ghost predicate OnPart(cast: Cast, runId: string, trace: seq<Event>, i: nat, k: nat, index: nat) {
    && AtWork(cast, runId, trace, i, k) && index < |cast.agents|
    && (var p := PhaseOf(cast, runId, trace[..k]).value;
        && p.turn.index == index && (p.Unanswered? ==> p.turn.model.Some?)
        && p.turn.calls == Answers(trace[i + 1..k])
        && InCharacter(cast.agents[index], p.turn.model, trace, i, k))
  }

  lemma AnswersOneMore(trace: seq<Event>, i: nat, k: nat)
    requires i <= k < |trace|
    ensures Answers(trace[i..k + 1]) == Answers(trace[i..k]) + if trace[k].body.LlmCompleted? then 1 else 0
  {
    assert trace[i..k + 1][..k - i] == trace[i..k];
  }

  lemma CharacterKept(agent: Agent, was: Option<string>, now: Option<string>, trace: seq<Event>, i: nat, k: nat)
    requires k < |trace| && InCharacter(agent, was, trace, i, k) && AsCast(agent, now, trace[k])
    requires (now == was || was == None) && (now.Some? ==> now.value in agent.models)
    ensures InCharacter(agent, now, trace, i, k + 1)
  {
    forall m | i < m < k + 1
      ensures AsCast(agent, now, trace[m])
    {
      if m < k {
        assert AsCast(agent, was, trace[m]);
      }
    }
  }

  lemma PartGoesOn(cast: Cast, runId: string, trace: seq<Event>, i: nat, k: nat, index: nat)
    requires PhaseOf(cast, runId, trace).Some? && k < |trace| && OnPart(cast, runId, trace, i, k, index)
    ensures if AgentCloses(trace[k]) then Played(cast.agents[index], trace, i, k)
            else OnPart(cast, runId, trace, i, k + 1, index)
  {
    var p := PhaseOf(cast, runId, trace[..k]).value;
    StepAt(cast, runId, trace, k);
    CastStep(cast, runId, p, trace[k]);
    WorksOn(cast, runId, trace, i, k);
    if !AgentCloses(trace[k]) {
      var q := PhaseOf(cast, runId, trace[..k + 1]).value;
      AnswersOneMore(trace, i + 1, k);
      CharacterKept(cast.agents[index], p.turn.model, q.turn.model, trace, i, k);
    }
  }

  /**
   A whole turn: it asks one of the agent's models throughout, uses only the agent's tools, and
   answers as many calls as the agent may draw, one fewer when the last of them ended it.
   */
  ghost predicate Played(agent: Agent, trace: seq<Event>, i: int, j: int) {
    && AgentBrackets(trace, i, j) && trace[i].agent == agent.name
    && InRange(agent, Answers(trace[i + 1..j]) + if trace[j].body.AgentFailed? then 1 else 0)
    && exists model :: InCharacter(agent, model, trace, i, j)
  }

  lemma {:induction false} PartEnds(
    cast: Cast, runId: string, trace: seq<Event>, failed: bool, i: nat, k: nat, index: nat)
    returns (j: nat)
    requires Complete(cast, runId, trace, failed) && OnPart(cast, runId, trace, i, k, index)
    ensures Played(cast.agents[index], trace, i, j)
    decreases |trace| - k
  {
    assert trace[..|trace|] == trace;
    if k == |trace| {
      assert false;
    } else {
      PartGoesOn(cast, runId, trace, i, k, index);
      if AgentCloses(trace[k]) {
        j := k;
      } else {
        j := PartEnds(cast, runId, trace, failed, i, k + 1, index);
      }
    }
  }

  lemma StartStep(cast: Cast, runId: string, p: Phase, e: Event)
    requires Next(cast, runId, p, e).Some? && e.body.AgentStarted?
    ensures Reached(p) < |cast.agents| && e.agent == cast.agents[Reached(p)].name && !p.Over?
    ensures var q := Next(cast, runId, p, e).value; q.Active? && q.turn == Turn(Reached(p), false, None, None, 0)
  {
  }

  /** The n-th agent to start is the scenario's n-th, and it plays its own part to the end. */
  lemma EveryTurnIsPlayed(cast: Cast, runId: string, trace: seq<Event>, failed: bool, i: nat)
    returns (j: nat)
    requires Complete(cast, runId, trace, failed) && i < |trace| && trace[i].body.AgentStarted?
    ensures |Started(trace[..i])| < |cast.agents| && Played(cast.agents[|Started(trace[..i])|], trace, i, j)
  {
    StepAt(cast, runId, trace, i);
    var p := PhaseOf(cast, runId, trace[..i]).value;
    StartStep(cast, runId, p, trace[i]);
    StartedIsPrefix(cast, runId, trace[..i]);
    assert trace[i + 1..i + 1] == [];
    j := PartEnds(cast, runId, trace, failed, i, i + 1, Reached(p));
  }

  // ── What a run may do only once ────────────────────────────────────────────

  predicate NothingAnswered(trace: seq<Event>) {
    forall k :: 0 <= k < |trace| ==> !trace[k].body.LlmCompleted?
  }

  predicate NothingUsed(trace: seq<Event>) {
    forall k :: 0 <= k < |trace| ==> !trace[k].body.ToolCompleted? && !trace[k].body.ToolFailed?
  }

  predicate NobodyDone(trace: seq<Event>) {
    forall k :: 0 <= k < |trace| ==> !trace[k].body.AgentCompleted?
  }

  predicate BookTells(trace: seq<Event>, book: Book) {
    (!book.answered ==> NothingAnswered(trace)) && (!book.tooled ==> NothingUsed(trace))
  }

  /** Before the first agent's first answer there is none, and nobody is done. */
  predicate TurnTells(trace: seq<Event>, t: Turn) {
    t.index == 0 ==> NobodyDone(trace) && (t.calls == 0 ==> NothingAnswered(trace))
  }

  /** What a phase remembers of the trace is so. */
  predicate Remembers(trace: seq<Event>, p: Phase) {
    match p
    case Fresh => trace == []
    case Between(i, book) => BookTells(trace, book) && (i == 0 ==> NobodyDone(trace) && NothingAnswered(trace))
    case Active(t, book) => BookTells(trace, book) && TurnTells(trace, t)
    case Unanswered(t, book, _) => BookTells(trace, book) && TurnTells(trace, t)
    case Broken(_, _) => true
    case Over(_) => true
  }

  lemma RemembersStep(cast: Cast, runId: string, trace: seq<Event>, p: Phase, e: Event)
    requires Remembers(trace, p) && Next(cast, runId, p, e).Some?
    ensures Remembers(trace + [e], Next(cast, runId, p, e).value)
  {
    var longer := trace + [e];
    assert NothingAnswered(trace) && !e.body.LlmCompleted? ==> NothingAnswered(longer);
    assert NothingUsed(trace) && !e.body.ToolCompleted? && !e.body.ToolFailed? ==> NothingUsed(longer);
    assert NobodyDone(trace) && !e.body.AgentCompleted? ==> NobodyDone(longer);
  }

  lemma {:induction false} PhaseRemembers(cast: Cast, runId: string, trace: seq<Event>)
    requires PhaseOf(cast, runId, trace).Some?
    ensures Remembers(trace, PhaseOf(cast, runId, trace).value)
  {
    if trace != [] {
      var n := |trace| - 1;
      PhaseRemembers(cast, runId, trace[..n]);
      RemembersStep(cast, runId, trace[..n], PhaseOf(cast, runId, trace[..n]).value, trace[n]);
      assert trace[..n] + [trace[n]] == trace;
    }
  }

  /** A tool fails only as the first one used in the run. */
  lemma FailedToolIsFirst(cast: Cast, runId: string, trace: seq<Event>, i: nat)
    requires PhaseOf(cast, runId, trace).Some? && i < |trace| && trace[i].body.ToolFailed?
    ensures NothingUsed(trace[..i])
  {
    StepAt(cast, runId, trace, i);
    PhaseRemembers(cast, runId, trace[..i]);
  }

  lemma UnansweredAfterRefusal(cast: Cast, runId: string, p: Phase, e: Event)
    requires Next(cast, runId, p, e).Some?
    ensures var q := Next(cast, runId, p, e).value;
      (q.Unanswered? <==> e.body.LlmFailed?) && (q.Unanswered? ==> q.cause == e.body.cause)
  {
  }

  lemma FirstTry(cast: Cast, runId: string, p: Phase, e: Event)
    requires Next(cast, runId, p, e).Some? && e.body.LlmStarted?
    ensures if p.Unanswered? then p.cause in cast.retryable && !p.book.answered
            else p.Active? && (e.body.request.prompt.Some? ==> p.turn.index == 0 && p.turn.calls == 0)
  {
  }

  /** Only the first round of the run's first agent carries a prompt; a retry carries the one it repeats. */
  lemma PromptIsFirst(cast: Cast, runId: string, trace: seq<Event>, i: nat)
    requires PhaseOf(cast, runId, trace).Some? && 0 < i < |trace| && trace[i].body.LlmStarted?
    requires trace[i].body.request.prompt.Some? && !trace[i - 1].body.LlmFailed?
    ensures NobodyDone(trace[..i]) && NothingAnswered(trace[..i])
  {
    StepAt(cast, runId, trace, i - 1);
    StepAt(cast, runId, trace, i);
    PhaseRemembers(cast, runId, trace[..i]);
    UnansweredAfterRefusal(cast, runId, PhaseOf(cast, runId, trace[..i - 1]).value, trace[i - 1]);
    FirstTry(cast, runId, PhaseOf(cast, runId, trace[..i]).value, trace[i]);
  }

  /** A refusal is tried again only for an error worth it, and before the run's first answer. */
  lemma RetryIsEarly(cast: Cast, runId: string, trace: seq<Event>, j: nat)
    requires PhaseOf(cast, runId, trace).Some? && j + 1 < |trace|
    requires trace[j].body.LlmFailed? && trace[j + 1].body.LlmStarted?
    ensures trace[j].body.cause in cast.retryable && NothingAnswered(trace[..j])
  {
    StepAt(cast, runId, trace, j);
    StepAt(cast, runId, trace, j + 1);
    PhaseRemembers(cast, runId, trace[..j + 1]);
    UnansweredAfterRefusal(cast, runId, PhaseOf(cast, runId, trace[..j]).value, trace[j]);
    FirstTry(cast, runId, PhaseOf(cast, runId, trace[..j + 1]).value, trace[j + 1]);
    assert NothingAnswered(trace[..j + 1]) ==> NothingAnswered(trace[..j]) by {
      assert trace[..j + 1][..j] == trace[..j];
    }
  }

  lemma FailureStep(cast: Cast, runId: string, p: Phase, e: Event)
    requires Next(cast, runId, p, e).Some?
    ensures e.body.RunFailed? ==>
      p.Broken? && p.index < |cast.agents| && e.body.cause == cast.agents[p.index].name + ": " + p.cause
    ensures var q := Next(cast, runId, p, e).value;
      q.Broken? ==>
        && p.Unanswered? && e.body == AgentFailed(q.cause) && p.cause == q.cause && q.cause in cast.fatal
        && q.index < |cast.agents| && e.agent == cast.agents[q.index].name
  {
  }

  /** A run fails over a fatal refusal: the agent ends with its error, and the run names both. */
  lemma FailureIsFatal(cast: Cast, runId: string, trace: seq<Event>)
    requires Complete(cast, runId, trace, true)
    ensures var n := |trace| - 1;
      && n >= 3 && trace[n - 2].body.LlmFailed? && trace[n - 2].body.cause in cast.fatal
      && trace[n - 1].body == AgentFailed(trace[n - 2].body.cause)
      && trace[n].body == RunFailed(trace[n - 1].agent + ": " + trace[n - 2].body.cause)
  {
    Enclosed(cast, runId, trace, true);
    var n := |trace| - 1;
    StepAt(cast, runId, trace, n);
    assert trace[..n + 1] == trace;
    FailureStep(cast, runId, PhaseOf(cast, runId, trace[..n]).value, trace[n]);
    StepAt(cast, runId, trace, n - 1);
    FailureStep(cast, runId, PhaseOf(cast, runId, trace[..n - 1]).value, trace[n - 1]);
    NotFreshAgain(cast, runId, trace, n - 1);
    StepAt(cast, runId, trace, n - 2);
    UnansweredAfterRefusal(cast, runId, PhaseOf(cast, runId, trace[..n - 2]).value, trace[n - 2]);
  }
}
