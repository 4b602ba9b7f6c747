/**
 What the trace of one workflow execution must look like: a driver's run around one run per
 node taken, in the topology's order. An acceptor, and what acceptance means for the edges.
 */
module WorkflowTrace {
  import opened Timelines
  import opened Wrappers

  /** `agent` is empty for a node no agent runs. */
  datatype Node = Node(id: string, agent: string, optional: bool, shortest: real, longest: real)

  datatype Topology = Topology(nodes: seq<Node>, edges: seq<(string, string)>, errors: map<string, string>)

  predicate Distinct(t: Topology) {
    forall i, j :: 0 <= i < j < |t.nodes| ==> t.nodes[i].id != t.nodes[j].id
  }

  /** The nodes are listed in an order every edge respects. */
  predicate Ordered(t: Topology) {
    forall e :: e in t.edges ==>
      exists i, j :: 0 <= i < j < |t.nodes| && t.nodes[i].id == e.0 && t.nodes[j].id == e.1
  }

  function Ids(nodes: seq<Node>): (ids: seq<string>)
    ensures |ids| == |nodes| && forall i :: 0 <= i < |nodes| ==> ids[i] == nodes[i].id
  {
    seq(|nodes|, i requires 0 <= i < |nodes| => nodes[i].id)
  }

  function DriverRun(execution: string): string { execution + "-driver" }

  function NodeRun(execution: string, node: Node): string { execution + "-" + node.id }

  /** The model every agent of a workflow asks. */
  const MODEL := "claude-opus-5"

  /** Where a running step is: its agent's call to be made, being answered, or behind, and then its artifact. */
  datatype Doing = Asking | Answering(call: CallId) | Ready | Produced

  datatype Stage =
    | Unopened
    | Undeclared
    | Idle
    | Opened(node: nat)
    | Running(node: nat, attempt: nat, doing: Doing)
    | Waiting(node: nat, attempt: nat)
    | Closing(node: nat)
    | Abandoned(node: nat)
    | Over(failed: bool)

  /** `at` nodes have been decided, `done` of them by completing; `failures` are node and attempt. */
  datatype Work = Work(stage: Stage, at: nat, done: set<nat>, failures: seq<(nat, nat)>)

  predicate AllOptional(t: Topology, low: int, high: int) {
    forall k :: 0 <= k < |t.nodes| && low <= k < high ==> t.nodes[k].optional
  }

  /** A node with an agent asks it first; any other gets straight to work. */
  function Begin(agent: string): Doing { if agent == "" then Ready else Asking }

  predicate StreamOf(e: Event, call: CallId) {
    (e.body.LlmFirstToken? || e.body.LlmChunk?) && e.body.call == call
  }

  /** The node a run of this execution belongs to, by position, from `k` on. */
  function Owner(t: Topology, execution: string, runId: string, k: nat): Option<nat>
    requires k <= |t.nodes|
    decreases |t.nodes| - k
  {
    if k == |t.nodes| then None
    else if NodeRun(execution, t.nodes[k]) == runId then Some(k)
    else Owner(t, execution, runId, k + 1)
  }

  predicate FromDriver(execution: string, e: Event) {
    e.runId == DriverRun(execution) && e.agent == ""
  }

  predicate FromNode(t: Topology, execution: string, i: nat, e: Event) {
    i < |t.nodes| && e.runId == NodeRun(execution, t.nodes[i])
  }

  predicate StartsAttempt(node: Node, e: Event, attempt: nat) {
    e.body == StepStarted(node.id, AttemptId(node.id, attempt)) && e.agent == node.agent
  }

  /** From the start of an attempt to its failure or its completion. */
  function NextInStep(t: Topology, w: Work, i: nat, attempt: nat, doing: Doing, e: Event): Option<Work>
    requires i < |t.nodes|
  {
    var id, call := t.nodes[i].id, AttemptId(t.nodes[i].id, attempt);
    match doing
    case Asking =>
      if e.body.LlmStarted? && e.body.request.model == MODEL && e.body.request.prompt.None?
      then Some(w.(stage := Running(i, attempt, Answering(e.body.call)))) else None
    case Answering(asked) =>
      if StreamOf(e, asked) then Some(w)
      else if e.body == LlmCompleted(asked, MODEL) then Some(w.(stage := Running(i, attempt, Ready)))
      else None
    case Ready =>
      if id in t.errors && e.body == StepFailed(id, call, t.errors[id]) then
        Some(w.(stage := Waiting(i, attempt), failures := w.failures + [(i, attempt)]))
      else if e.body == ArtifactProduced(id) then Some(w.(stage := Running(i, attempt, Produced)))
      else None
    case Produced =>
      if e.body == StepCompleted(id, call) then Some(w.(stage := Closing(i), done := w.done + {i})) else None
  }

  function Next(t: Topology, execution: string, w: Work, e: Event): Option<Work> {
    match w.stage
    case Unopened =>
      if e.body.RunStarted? && FromDriver(execution, e) then Some(w.(stage := Undeclared)) else None
    case Undeclared =>
      if e.body == WorkflowDeclared(Ids(t.nodes), t.edges) && FromDriver(execution, e)
      then Some(w.(stage := Idle)) else None
    case Idle =>
      if e.body.RunCompleted? then
        if FromDriver(execution, e) && AllOptional(t, w.at, |t.nodes|) then Some(w.(stage := Over(false))) else None
      else if e.body.RunStarted? && w.at <= |t.nodes| then
        var owner := Owner(t, execution, e.runId, w.at);
        if owner.Some? && AllOptional(t, w.at, owner.value) && e.agent == ""
        then Some(w.(stage := Opened(owner.value), at := owner.value + 1)) else None
      else None
    case Opened(i) =>
      if FromNode(t, execution, i, e) && StartsAttempt(t.nodes[i], e, 1)
      then Some(w.(stage := Running(i, 1, Begin(e.agent)))) else None
    case Running(i, attempt, doing) =>
      if FromNode(t, execution, i, e) && e.agent == t.nodes[i].agent then NextInStep(t, w, i, attempt, doing, e)
      else None
    case Waiting(i, attempt) =>
      if !FromNode(t, execution, i, e) then None
      else if StartsAttempt(t.nodes[i], e, attempt + 1) then
        Some(w.(stage := Running(i, attempt + 1, Begin(e.agent))))
      else if e.body == RunFailed("the stage failed") && e.agent == "" then Some(w.(stage := Abandoned(i)))
      else None
    case Closing(i) =>
      if FromNode(t, execution, i, e) && e.body.RunCompleted? && e.agent == "" then Some(w.(stage := Idle)) else None
    case Abandoned(i) =>
      if FromDriver(execution, e) && i < |t.nodes| && e.body == RunFailed(t.nodes[i].id + " failed")
      then Some(w.(stage := Over(true))) else None
    case Over(_) => None
  }

  function WorkOf(t: Topology, execution: string, trace: seq<Event>): Option<Work> {
    if trace == [] then Some(Work(Unopened, 0, {}, []))
    else
      var n := |trace| - 1;
      var before := WorkOf(t, execution, trace[..n]);
      if before.None? then None else Next(t, execution, before.value, trace[n])
  }

  lemma Extend(t: Topology, execution: string, trace: seq<Event>, e: Event)
    requires WorkOf(t, execution, trace).Some?
    ensures WorkOf(t, execution, trace + [e]) == Next(t, execution, WorkOf(t, execution, trace).value, e)
  {
    assert (trace + [e])[..|trace|] == trace;
  }

  lemma {:induction false} Accepted(t: Topology, execution: string, trace: seq<Event>, i: nat)
    requires WorkOf(t, execution, trace).Some? && i <= |trace|
    ensures WorkOf(t, execution, trace[..i]).Some?
  {
    var n := |trace| - 1;
    if i == |trace| {
      assert trace[..i] == trace;
    } else {
      Accepted(t, execution, trace[..n], i);
      assert trace[..n][..i] == trace[..i];
    }
  }

  lemma StepAt(t: Topology, execution: string, trace: seq<Event>, i: nat)
    requires WorkOf(t, execution, trace).Some? && i < |trace|
    ensures WorkOf(t, execution, trace[..i]).Some? && WorkOf(t, execution, trace[..i + 1]).Some?
    ensures WorkOf(t, execution, trace[..i + 1])
         == Next(t, execution, WorkOf(t, execution, trace[..i]).value, trace[i])
  {
    Accepted(t, execution, trace, i);
    Accepted(t, execution, trace, i + 1);
    assert trace[..i + 1][..i] == trace[..i];
  }

  lemma {:induction false} OwnerIsNode(t: Topology, execution: string, runId: string, k: nat)
    requires k <= |t.nodes|
    ensures var o := Owner(t, execution, runId, k);
      o.Some? ==> k <= o.value < |t.nodes| && NodeRun(execution, t.nodes[o.value]) == runId
    decreases |t.nodes| - k
  {
    if k < |t.nodes| {
      OwnerIsNode(t, execution, runId, k + 1);
    }
  }

  /** The node under way, if any: it is the last one decided. */
  function Current(s: Stage): Option<nat> {
    match s
    case Opened(i) => Some(i)
    case Running(i, _, _) => Some(i)
    case Waiting(i, _) => Some(i)
    case Closing(i) => Some(i)
    case Abandoned(i) => Some(i)
    case _ => None
  }

  /** Every node decided before the current one completed, or was optional and passed over. */
  ghost predicate Settled(t: Topology, w: Work) {
    && w.at <= |t.nodes|
    && (w.stage.Unopened? || w.stage.Undeclared? ==> w.at == 0)
    && (Current(w.stage).Some? ==> w.at == Current(w.stage).value + 1)
    && (w.stage.Closing? ==> w.stage.node in w.done)
    && (forall k :: k in w.done ==> k < w.at)
    && (forall k :: 0 <= k < w.at ==>
          k in w.done || t.nodes[k].optional || (w.stage != Idle && k == w.at - 1 && !w.stage.Closing?
                                                  && w.stage != Over(false)))
  }

  lemma SettledStep(t: Topology, execution: string, w: Work, e: Event)
    requires Settled(t, w) && Next(t, execution, w, e).Some?
    ensures Settled(t, Next(t, execution, w, e).value)
  {
    if w.stage.Idle? && e.body.RunStarted? {
      OwnerIsNode(t, execution, e.runId, w.at);
    }
  }

  lemma {:induction false} AlwaysSettled(t: Topology, execution: string, trace: seq<Event>)
    requires WorkOf(t, execution, trace).Some?
    ensures Settled(t, WorkOf(t, execution, trace).value)
  {
    if trace != [] {
      var n := |trace| - 1;
      AlwaysSettled(t, execution, trace[..n]);
      SettledStep(t, execution, WorkOf(t, execution, trace[..n]).value, trace[n]);
    }
  }

  predicate StartsStep(e: Event, id: string) {
    e.body.StepStarted? && e.body.node == id
  }

  predicate CompletesStep(e: Event, id: string) {
    e.body.StepCompleted? && e.body.node == id
  }

  lemma {:induction false} DoneWasCompleted(t: Topology, execution: string, trace: seq<Event>, k: nat) returns (j: nat)
    requires WorkOf(t, execution, trace).Some? && k < |t.nodes| && k in WorkOf(t, execution, trace).value.done
    ensures j < |trace| && CompletesStep(trace[j], t.nodes[k].id)
  {
    var n := |trace| - 1;
    if k in WorkOf(t, execution, trace[..n]).value.done {
      j := DoneWasCompleted(t, execution, trace[..n], k);
    } else {
      j := n;
    }
  }

  predicate Accounted(w: Work, k: nat) {
    k in w.done || Current(w.stage) == Some(k) || w.stage == Over(true)
  }

  lemma AccountedStep(t: Topology, execution: string, w: Work, e: Event, k: nat)
    requires Settled(t, w) && Distinct(t) && k < |t.nodes| && Next(t, execution, w, e).Some?
    requires Accounted(w, k) || StartsStep(e, t.nodes[k].id)
    ensures Accounted(Next(t, execution, w, e).value, k)
  {
  }

  /** A step can only be started by the node under way, and it stays accounted for afterwards. */
  lemma {:induction false} StartedIsAccounted(t: Topology, execution: string, trace: seq<Event>, j: nat, k: nat)
    requires WorkOf(t, execution, trace).Some? && Distinct(t) && k < |t.nodes|
    requires j < |trace| && StartsStep(trace[j], t.nodes[k].id)
    ensures Accounted(WorkOf(t, execution, trace).value, k)
  {
    var n := |trace| - 1;
    AlwaysSettled(t, execution, trace[..n]);
    if j < n {
      StartedIsAccounted(t, execution, trace[..n], j, k);
    }
    AccountedStep(t, execution, WorkOf(t, execution, trace[..n]).value, trace[n], k);
  }

  lemma AtStep(t: Topology, execution: string, w: Work, e: Event)
    requires Next(t, execution, w, e).Some?
    ensures w.at <= Next(t, execution, w, e).value.at
  {
    if w.stage.Idle? && e.body.RunStarted? {
      OwnerIsNode(t, execution, e.runId, w.at);
    }
  }

  lemma {:induction false} AtGrows(t: Topology, execution: string, trace: seq<Event>, i: nat, m: nat)
    requires WorkOf(t, execution, trace).Some? && i <= m <= |trace|
    ensures WorkOf(t, execution, trace[..i]).Some? && WorkOf(t, execution, trace[..m]).Some?
    ensures WorkOf(t, execution, trace[..i]).value.at <= WorkOf(t, execution, trace[..m]).value.at
    decreases m
  {
    if i == m {
      Accepted(t, execution, trace, i);
    } else {
      AtGrows(t, execution, trace, i, m - 1);
      StepAt(t, execution, trace, m - 1);
      AtStep(t, execution, WorkOf(t, execution, trace[..m - 1]).value, trace[m - 1]);
    }
  }

  /** The node whose step starts at `j` is the last one decided by then. */
  lemma StarterIsCurrent(t: Topology, execution: string, trace: seq<Event>, j: nat, k: nat)
    requires WorkOf(t, execution, trace).Some? && Distinct(t) && k < |t.nodes|
    requires j < |trace| && StartsStep(trace[j], t.nodes[k].id)
    ensures WorkOf(t, execution, trace[..j]).Some?
    ensures Current(WorkOf(t, execution, trace[..j]).value.stage) == Some(k)
    ensures WorkOf(t, execution, trace[..j]).value.at == k + 1
    ensures Settled(t, WorkOf(t, execution, trace[..j]).value)
  {
    StepAt(t, execution, trace, j);
    AlwaysSettled(t, execution, trace[..j]);
    StartsCurrent(t, execution, WorkOf(t, execution, trace[..j]).value, trace[j], k);
  }

  lemma StartsCurrent(t: Topology, execution: string, w: Work, e: Event, k: nat)
    requires Next(t, execution, w, e).Some? && Distinct(t) && k < |t.nodes| && StartsStep(e, t.nodes[k].id)
    requires Settled(t, w)
    ensures Current(w.stage) == Some(k) && w.at == k + 1
  {
  }

  // ── The agent's call ───────────────────────────────────────────────────────

  predicate Calls(e: Event) {
    e.body.LlmStarted? || e.body.LlmFirstToken? || e.body.LlmChunk? || e.body.LlmCompleted? || e.body.LlmFailed?
  }

  /** Said by the node's own agent in the node's own run. */
  predicate OfNode(t: Topology, execution: string, k: nat, e: Event)
    requires k < |t.nodes|
  {
    e.runId == NodeRun(execution, t.nodes[k]) && e.agent == t.nodes[k].agent
  }

  lemma StartBegins(t: Topology, execution: string, w: Work, e: Event, k: nat)
    requires Next(t, execution, w, e).Some? && Distinct(t) && k < |t.nodes| && StartsStep(e, t.nodes[k].id)
    ensures OfNode(t, execution, k, e)
    ensures var stage := Next(t, execution, w, e).value.stage;
      stage.Running? && stage.node == k && stage.doing == Begin(t.nodes[k].agent)
      && e.body.call == AttemptId(t.nodes[k].id, stage.attempt)
  {
  }

  lemma CallBegins(t: Topology, execution: string, w: Work, e: Event)
    requires w.stage.Running? && w.stage.doing == Asking && Next(t, execution, w, e).Some?
    ensures w.stage.node < |t.nodes| && OfNode(t, execution, w.stage.node, e)
    ensures e.body.LlmStarted? && e.body.request.model == MODEL && e.body.request.prompt == None
    ensures Next(t, execution, w, e).value.stage == w.stage.(doing := Answering(e.body.call))
  {
  }

  lemma CallGoesOn(t: Topology, execution: string, w: Work, e: Event)
    requires w.stage.Running? && w.stage.doing.Answering? && Next(t, execution, w, e).Some?
    ensures w.stage.node < |t.nodes| && OfNode(t, execution, w.stage.node, e)
    ensures if e.body == LlmCompleted(w.stage.doing.call, MODEL)
            then Next(t, execution, w, e).value.stage == w.stage.(doing := Ready)
            else StreamOf(e, w.stage.doing.call) && Next(t, execution, w, e).value.stage == w.stage
  {
  }

  lemma StepEnds(t: Topology, execution: string, w: Work, e: Event)
    requires w.stage.Running? && w.stage.doing == Ready && Next(t, execution, w, e).Some?
    ensures w.stage.node < |t.nodes| && Delivers(t, execution, w.stage.node, w.stage.attempt, e)
  {
  }

  /** What an attempt comes to: its failure, with the node's error, or its artifact. */
  predicate Delivers(t: Topology, execution: string, k: nat, attempt: nat, e: Event)
    requires k < |t.nodes|
  {
    var id := t.nodes[k].id;
    OfNode(t, execution, k, e)
    && (e.body == ArtifactProduced(id)
        || (id in t.errors && e.body == StepFailed(id, AttemptId(id, attempt), t.errors[id])))
  }

  /** After `i` events the trace stands in that stage, and it still goes to its end. */
  predicate StandsAt(t: Topology, execution: string, trace: seq<Event>, i: nat, stage: Stage) {
    && WorkOf(t, execution, trace).Some? && WorkOf(t, execution, trace).value.stage.Over?
    && i <= |trace| && WorkOf(t, execution, trace[..i]).Some? && WorkOf(t, execution, trace[..i]).value.stage == stage
  }

  lemma CallGoesOnAt(
    t: Topology, execution: string, trace: seq<Event>, i: nat, k: nat, attempt: nat, call: CallId)
    requires StandsAt(t, execution, trace, i, Running(k, attempt, Answering(call)))
    ensures i < |trace| && k < |t.nodes| && OfNode(t, execution, k, trace[i])
    ensures if trace[i].body == LlmCompleted(call, MODEL)
            then StandsAt(t, execution, trace, i + 1, Running(k, attempt, Ready))
            else StreamOf(trace[i], call) && StandsAt(t, execution, trace, i + 1, Running(k, attempt, Answering(call)))
  {
    assert trace[..|trace|] == trace;
    StepAt(t, execution, trace, i);
    CallGoesOn(t, execution, WorkOf(t, execution, trace[..i]).value, trace[i]);
  }

  lemma StepEndsAt(t: Topology, execution: string, trace: seq<Event>, i: nat, k: nat, attempt: nat)
    requires StandsAt(t, execution, trace, i, Running(k, attempt, Ready))
    ensures i < |trace| && k < |t.nodes| && Delivers(t, execution, k, attempt, trace[i])
  {
    assert trace[..|trace|] == trace;
    StepAt(t, execution, trace, i);
    StepEnds(t, execution, WorkOf(t, execution, trace[..i]).value, trace[i]);
  }

  /** In a trace that goes to its end, a call under way is answered, and then the attempt comes to something. */
  lemma {:induction false} AnswerFollows(
    t: Topology, execution: string, trace: seq<Event>, i: nat, k: nat, attempt: nat, call: CallId) returns (c: nat)
    requires StandsAt(t, execution, trace, i, Running(k, attempt, Answering(call)))
    ensures i <= c && c + 1 < |trace| && k < |t.nodes|
    ensures OfNode(t, execution, k, trace[c]) && trace[c].body == LlmCompleted(call, MODEL)
    ensures forall m :: i <= m < c ==> OfNode(t, execution, k, trace[m]) && StreamOf(trace[m], call)
    ensures Delivers(t, execution, k, attempt, trace[c + 1])
    decreases |trace| - i
  {
    CallGoesOnAt(t, execution, trace, i, k, attempt, call);
    if trace[i].body == LlmCompleted(call, MODEL) {
      c := i;
      StepEndsAt(t, execution, trace, c + 1, k, attempt);
    } else {
      c := AnswerFollows(t, execution, trace, i + 1, k, attempt, call);
    }
  }

  lemma CallBeginsAt(t: Topology, execution: string, trace: seq<Event>, j: nat, k: nat) returns (attempt: nat)
    requires WorkOf(t, execution, trace).Some? && WorkOf(t, execution, trace).value.stage.Over? && Distinct(t)
    requires j < |trace| && k < |t.nodes| && StartsStep(trace[j], t.nodes[k].id) && t.nodes[k].agent != ""
    ensures trace[j].body.call == AttemptId(t.nodes[k].id, attempt)
    ensures j + 1 < |trace| && OfNode(t, execution, k, trace[j + 1]) && trace[j + 1].body.LlmStarted?
    ensures trace[j + 1].body.request.model == MODEL && trace[j + 1].body.request.prompt == None
    ensures StandsAt(t, execution, trace, j + 2, Running(k, attempt, Answering(trace[j + 1].body.call)))
  {
    assert trace[..|trace|] == trace;
    StepAt(t, execution, trace, j);
    StartBegins(t, execution, WorkOf(t, execution, trace[..j]).value, trace[j], k);
    attempt := WorkOf(t, execution, trace[..j + 1]).value.stage.attempt;
    assert j + 1 < |trace|;
    StepAt(t, execution, trace, j + 1);
    CallBegins(t, execution, WorkOf(t, execution, trace[..j + 1]).value, trace[j + 1]);
  }

  /**
   Every attempt at a node that has an agent opens with a call by that agent, in the node's own run
   and to the one model; the call is answered, with nothing but its stream in between, and only
   then does the attempt fail or produce its artifact.
   */
  lemma AgentIsCalled(t: Topology, execution: string, trace: seq<Event>, j: nat, k: nat) returns (c: nat)
    requires WorkOf(t, execution, trace).Some? && WorkOf(t, execution, trace).value.stage.Over? && Distinct(t)
    requires j < |trace| && k < |t.nodes| && StartsStep(trace[j], t.nodes[k].id) && t.nodes[k].agent != ""
    ensures j + 1 < c && c + 1 < |trace|
    ensures OfNode(t, execution, k, trace[j + 1]) && trace[j + 1].body.LlmStarted?
    ensures trace[j + 1].body.request.model == "claude-opus-5" && trace[j + 1].body.request.prompt == None
    ensures OfNode(t, execution, k, trace[c]) && trace[c].body == LlmCompleted(trace[j + 1].body.call, "claude-opus-5")
    ensures forall m :: j + 1 < m < c ==>
      OfNode(t, execution, k, trace[m]) && StreamOf(trace[m], trace[j + 1].body.call)
    ensures trace[j].body.call.AttemptId? && Delivers(t, execution, k, trace[j].body.call.attempt, trace[c + 1])
  {
    var attempt := CallBeginsAt(t, execution, trace, j, k);
    c := AnswerFollows(t, execution, trace, j + 2, k, attempt, trace[j + 1].body.call);
  }

  /** Only a node that has an agent is ever waiting for a call. */
  predicate Agented(t: Topology, stage: Stage) {
    stage.Running? ==>
      stage.node < |t.nodes|
      && (stage.doing == Asking || stage.doing.Answering? ==> t.nodes[stage.node].agent != "")
  }

  lemma AgentedStep(t: Topology, execution: string, w: Work, e: Event)
    requires Agented(t, w.stage) && Next(t, execution, w, e).Some?
    ensures Agented(t, Next(t, execution, w, e).value.stage)
  {
  }

  lemma {:induction false} AlwaysAgented(t: Topology, execution: string, trace: seq<Event>)
    requires WorkOf(t, execution, trace).Some?
    ensures Agented(t, WorkOf(t, execution, trace).value.stage)
  {
    if trace != [] {
      var n := |trace| - 1;
      AlwaysAgented(t, execution, trace[..n]);
      AgentedStep(t, execution, WorkOf(t, execution, trace[..n]).value, trace[n]);
    }
  }

  lemma CallNeedsAgent(t: Topology, execution: string, w: Work, e: Event)
    requires Agented(t, w.stage) && Next(t, execution, w, e).Some? && Calls(e)
    ensures w.stage.Running? && OfNode(t, execution, w.stage.node, e) && e.agent != ""
  {
  }

  /** In the run of a node without an agent there is no call at all, and nobody else's run has one. */
  lemma CallsHaveAgent(t: Topology, execution: string, trace: seq<Event>, m: nat)
    requires WorkOf(t, execution, trace).Some? && m < |trace| && Calls(trace[m])
    ensures exists k :: 0 <= k < |t.nodes| && OfNode(t, execution, k, trace[m]) && t.nodes[k].agent != ""
    ensures forall k :: Distinct(t) && 0 <= k < |t.nodes| && trace[m].runId == NodeRun(execution, t.nodes[k]) ==>
      t.nodes[k].agent != ""
  {
    StepAt(t, execution, trace, m);
    AlwaysAgented(t, execution, trace[..m]);
    var w := WorkOf(t, execution, trace[..m]).value;
    CallNeedsAgent(t, execution, w, trace[m]);
    assert OfNode(t, execution, w.stage.node, trace[m]) && t.nodes[w.stage.node].agent != "";
    forall k | 0 <= k < |t.nodes| && trace[m].runId == NodeRun(execution, t.nodes[k])
      ensures t.nodes[k].id == t.nodes[w.stage.node].id
    {
      SameRunSameNode(execution, t.nodes[k], t.nodes[w.stage.node]);
    }
  }

  lemma SameRunSameNode(execution: string, a: Node, b: Node)
    requires NodeRun(execution, a) == NodeRun(execution, b)
    ensures a.id == b.id
  {
    var stem := execution + "-";
    assert NodeRun(execution, a)[|stem|..] == a.id && NodeRun(execution, b)[|stem|..] == b.id;
  }

  /** Steps start in the topology's order. */
  lemma StartsInOrder(t: Topology, execution: string, trace: seq<Event>, j: nat, v: nat, m: nat, u: nat)
    requires WorkOf(t, execution, trace).Some? && Distinct(t) && u < |t.nodes| && v < |t.nodes|
    requires j <= m < |trace| && StartsStep(trace[j], t.nodes[v].id) && StartsStep(trace[m], t.nodes[u].id)
    ensures v <= u
  {
    StarterIsCurrent(t, execution, trace, j, v);
    StarterIsCurrent(t, execution, trace, m, u);
    AtGrows(t, execution, trace, j, m);
  }

  lemma PassedOverNeverStarts(t: Topology, execution: string, trace: seq<Event>, j: nat, v: nat, u: nat, m: nat)
    requires WorkOf(t, execution, trace).Some? && Distinct(t) && u < v < |t.nodes|
    requires j < |trace| && StartsStep(trace[j], t.nodes[v].id)
    requires WorkOf(t, execution, trace[..j]).Some? && u !in WorkOf(t, execution, trace[..j]).value.done
    requires m < |trace|
    ensures !StartsStep(trace[m], t.nodes[u].id)
  {
    if StartsStep(trace[m], t.nodes[u].id) {
      StarterIsCurrent(t, execution, trace, j, v);
      if m < j {
        StartedIsAccounted(t, execution, trace[..j], m, u);
      } else {
        StartsInOrder(t, execution, trace, j, v, m, u);
      }
    }
  }

  predicate IsOptional(t: Topology, id: string) {
    exists k :: 0 <= k < |t.nodes| && t.nodes[k].id == id && t.nodes[k].optional
  }

  /** A step starts only when each predecessor has completed, or is optional and no execution of it appears at all. */
  lemma EdgesRespected(t: Topology, execution: string, trace: seq<Event>, j: nat, edge: (string, string))
    requires WorkOf(t, execution, trace).Some? && Distinct(t) && Ordered(t)
    requires edge in t.edges && j < |trace| && StartsStep(trace[j], edge.1)
    ensures (exists m :: 0 <= m < j && CompletesStep(trace[m], edge.0))
            || (IsOptional(t, edge.0) && forall m :: 0 <= m < |trace| ==> !StartsStep(trace[m], edge.0))
  {
    var u: nat, v: nat :| u < v < |t.nodes| && t.nodes[u].id == edge.0 && t.nodes[v].id == edge.1;
    StarterIsCurrent(t, execution, trace, j, v);
    if u in WorkOf(t, execution, trace[..j]).value.done {
      var m := DoneWasCompleted(t, execution, trace[..j], u);
    } else {
      assert t.nodes[u].optional;
      forall m | 0 <= m < |trace|
        ensures !StartsStep(trace[m], edge.0)
      {
        PassedOverNeverStarts(t, execution, trace, j, v, u, m);
      }
    }
  }

  /** The attempts that failed, in order: node, attempt and error. */
  function StepFailures(trace: seq<Event>): seq<(string, CallId, string)> {
    if trace == [] then []
    else
      var n := |trace| - 1;
      StepFailures(trace[..n]) +
        if trace[n].body.StepFailed? then [(trace[n].body.node, trace[n].body.call, trace[n].body.cause)] else []
  }

  predicate SameFailures(t: Topology, failures: seq<(nat, nat)>, events: seq<(string, CallId, string)>) {
    && |failures| == |events|
    && forall k :: 0 <= k < |failures| ==>
         && failures[k].0 < |t.nodes|
         && var id := t.nodes[failures[k].0].id;
            id in t.errors && events[k] == (id, AttemptId(id, failures[k].1), t.errors[id])
  }

  lemma FailureStep(t: Topology, execution: string, w: Work, e: Event)
    requires Next(t, execution, w, e).Some?
    ensures var after := Next(t, execution, w, e).value.failures;
      if e.body.StepFailed? then
        exists i: nat, attempt: nat :: i < |t.nodes| && after == w.failures + [(i, attempt)]
          && var id := t.nodes[i].id; id in t.errors && e.body == StepFailed(id, AttemptId(id, attempt), t.errors[id])
      else after == w.failures
  {
    if e.body.StepFailed? {
      assert w.stage.Running? && w.stage.node < |t.nodes|;
    }
  }

  lemma {:induction false} FailuresAreEvents(t: Topology, execution: string, trace: seq<Event>)
    requires WorkOf(t, execution, trace).Some?
    ensures SameFailures(t, WorkOf(t, execution, trace).value.failures, StepFailures(trace))
  {
    if trace != [] {
      var n := |trace| - 1;
      FailuresAreEvents(t, execution, trace[..n]);
      FailureStep(t, execution, WorkOf(t, execution, trace[..n]).value, trace[n]);
    }
  }

  /** The node is on an attempt after `attempt`, or between two of them. */
  predicate Beyond(stage: Stage, i: nat, attempt: nat) {
    match stage
    case Waiting(node, a) => node == i && a >= attempt
    case Running(node, a, _) => node == i && a > attempt
    case _ => false
  }

  lemma AttemptStep(t: Topology, execution: string, w: Work, e: Event, i: nat, attempt: nat)
    requires i < |t.nodes| && Beyond(w.stage, i, attempt) && Next(t, execution, w, e).Some?
    ensures var stage := Next(t, execution, w, e).value.stage;
      if e.body.StepCompleted? then
        w.stage.attempt > attempt && e.body == StepCompleted(t.nodes[i].id, AttemptId(t.nodes[i].id, w.stage.attempt))
      else stage.Abandoned? || Beyond(stage, i, attempt)
  {
  }

  /** In an execution that succeeds, a node that failed once is tried again and completes under a later attempt. */
  lemma {:induction false} LaterCompletion(
    t: Topology, execution: string, trace: seq<Event>, k: nat, i: nat, attempt: nat)
    returns (m: nat, later: nat)
    requires WorkOf(t, execution, trace).Some? && WorkOf(t, execution, trace).value.stage == Over(false)
    requires k <= |trace| && i < |t.nodes| && WorkOf(t, execution, trace[..k]).Some?
    requires Beyond(WorkOf(t, execution, trace[..k]).value.stage, i, attempt)
    ensures k <= m < |trace| && later > attempt
    ensures trace[m].body == StepCompleted(t.nodes[i].id, AttemptId(t.nodes[i].id, later))
    decreases |trace| - k
  {
    assert trace[..|trace|] == trace;
    StepAt(t, execution, trace, k);
    var w := WorkOf(t, execution, trace[..k]).value;
    AttemptStep(t, execution, w, trace[k], i, attempt);
    if trace[k].body.StepCompleted? {
      m, later := k, w.stage.attempt;
    } else {
      if !Beyond(WorkOf(t, execution, trace[..k + 1]).value.stage, i, attempt) {
        AbandonedFails(t, execution, trace, k + 1);
      }
      m, later := LaterCompletion(t, execution, trace, k + 1, i, attempt);
    }
  }

  lemma AbandonedFails(t: Topology, execution: string, trace: seq<Event>, k: nat)
    requires WorkOf(t, execution, trace).Some? && k <= |trace|
    requires WorkOf(t, execution, trace[..k]).Some? && WorkOf(t, execution, trace[..k]).value.stage.Abandoned?
    ensures WorkOf(t, execution, trace).value.stage != Over(false)
  {
    assert trace[..|trace|] == trace;
    if k < |trace| {
      StepAt(t, execution, trace, k);
      if k + 1 < |trace| {
        StepAt(t, execution, trace, k + 1);
      }
    }
  }

  lemma FailureIsRetried(t: Topology, execution: string, trace: seq<Event>, j: nat) returns (m: nat)
    requires WorkOf(t, execution, trace).Some? && WorkOf(t, execution, trace).value.stage == Over(false)
    requires j < |trace| && trace[j].body.StepFailed?
    ensures j < m < |trace| && CompletesStep(trace[m], trace[j].body.node)
    ensures trace[m].body.call != trace[j].body.call
    ensures trace[j + 1].body.StepStarted? && trace[j + 1].body.node == trace[j].body.node
    ensures trace[j + 1].body.call != trace[j].body.call
  {
    StepAt(t, execution, trace, j);
    var stage := WorkOf(t, execution, trace[..j + 1]).value.stage;
    var later;
    m, later := LaterCompletion(t, execution, trace, j + 1, stage.node, stage.attempt);
    StepAt(t, execution, trace, j + 1);
    if trace[j + 1].body.RunFailed? {
      AbandonedFails(t, execution, trace, j + 2);
    }
  }

  lemma HowItFails(t: Topology, execution: string, w: Work, e: Event)
    requires Next(t, execution, w, e).Some?
    ensures var s := Next(t, execution, w, e).value.stage;
      && (s == Over(true) ==> w.stage.Abandoned? && e.body.RunFailed? && FromDriver(execution, e))
      && (s.Abandoned? ==>
            w.stage == Waiting(s.node, w.stage.attempt) && e.body.RunFailed? && FromNode(t, execution, s.node, e))
      && (s.Waiting? ==> e.body.StepFailed? && FromNode(t, execution, s.node, e))
  {
  }

  /** A failed execution ends with the failed step, its node's run and the driver's run, in that order. */
  lemma FailureIsLast(t: Topology, execution: string, trace: seq<Event>)
    requires WorkOf(t, execution, trace).Some? && WorkOf(t, execution, trace).value.stage == Over(true)
    ensures |trace| >= 3
    ensures var n := |trace|;
      && trace[n - 3].body.StepFailed?
      && trace[n - 2].body.RunFailed? && trace[n - 2].runId == trace[n - 3].runId
      && trace[n - 1].body.RunFailed? && FromDriver(execution, trace[n - 1])
  {
    var n := |trace|;
    var a, b := trace[..n - 1], trace[..n - 1][..n - 2];
    HowItFails(t, execution, WorkOf(t, execution, a).value, trace[n - 1]);
    HowItFails(t, execution, WorkOf(t, execution, b).value, a[n - 2]);
    HowItFails(t, execution, WorkOf(t, execution, b[..n - 3]).value, b[n - 3]);
  }

  predicate DriverEnds(execution: string, e: Event) {
    FromDriver(execution, e) && (e.body.RunCompleted? || e.body.RunFailed?)
  }

  lemma NodeIsNotDriver(t: Topology, execution: string, i: nat, e: Event)
    requires i < |t.nodes| && t.nodes[i].id != "driver" && FromNode(t, execution, i, e)
    ensures !FromDriver(execution, e)
  {
    var stem := execution + "-";
    assert DriverRun(execution)[|stem|..] == "driver" && NodeRun(execution, t.nodes[i])[|stem|..] == t.nodes[i].id;
  }

  lemma OverAtDriversEnd(t: Topology, execution: string, w: Work, e: Event)
    requires forall i :: 0 <= i < |t.nodes| ==> t.nodes[i].id != "driver"
    requires Next(t, execution, w, e).Some?
    ensures !w.stage.Over? && (Next(t, execution, w, e).value.stage.Over? <==> DriverEnds(execution, e))
    ensures DriverEnds(execution, e) ==> Next(t, execution, w, e).value.stage == Over(e.body.RunFailed?)
  {
    forall i: nat | i < |t.nodes| && FromNode(t, execution, i, e)
      ensures !FromDriver(execution, e)
    {
      NodeIsNotDriver(t, execution, i, e);
    }
  }

  lemma OverAfter(t: Topology, execution: string, trace: seq<Event>, i: nat)
    requires forall k :: 0 <= k < |t.nodes| ==> t.nodes[k].id != "driver"
    requires WorkOf(t, execution, trace).Some? && i < |trace|
    ensures WorkOf(t, execution, trace[..i]).Some? && !WorkOf(t, execution, trace[..i]).value.stage.Over?
    ensures WorkOf(t, execution, trace[..i + 1]).Some?
    ensures WorkOf(t, execution, trace[..i + 1]).value.stage.Over? <==> DriverEnds(execution, trace[i])
    ensures DriverEnds(execution, trace[i]) ==>
      WorkOf(t, execution, trace[..i + 1]).value.stage == Over(trace[i].body.RunFailed?)
  {
    StepAt(t, execution, trace, i);
    OverAtDriversEnd(t, execution, WorkOf(t, execution, trace[..i]).value, trace[i]);
  }

  /**
   The driver's run encloses the execution: it opens first, its one terminal event comes last,
   and that event says whether the execution failed.
   */
  lemma DriverEncloses(t: Topology, execution: string, trace: seq<Event>, failed: bool, i: nat)
    requires forall k :: 0 <= k < |t.nodes| ==> t.nodes[k].id != "driver"
    requires WorkOf(t, execution, trace).Some? && WorkOf(t, execution, trace).value.stage == Over(failed) && i < |trace|
    ensures trace[0].body.RunStarted? && FromDriver(execution, trace[0])
    ensures DriverEnds(execution, trace[i]) <==> i == |trace| - 1
    ensures failed <==> trace[|trace| - 1].body.RunFailed?
  {
    DriverOpens(t, execution, trace);
    LastEnds(t, execution, trace, failed);
    if i < |trace| - 1 {
      OverAfter(t, execution, trace, i);
      OverAfter(t, execution, trace, i + 1);
    }
  }

  lemma LastEnds(t: Topology, execution: string, trace: seq<Event>, failed: bool)
    requires forall k :: 0 <= k < |t.nodes| ==> t.nodes[k].id != "driver"
    requires WorkOf(t, execution, trace).Some? && WorkOf(t, execution, trace).value.stage == Over(failed) && trace != []
    ensures DriverEnds(execution, trace[|trace| - 1]) && (failed <==> trace[|trace| - 1].body.RunFailed?)
  {
    assert trace[..|trace|] == trace;
    OverAfter(t, execution, trace, |trace| - 1);
  }

  lemma DriverOpens(t: Topology, execution: string, trace: seq<Event>)
    requires WorkOf(t, execution, trace).Some? && trace != []
    ensures trace[0].body.RunStarted? && FromDriver(execution, trace[0])
  {
    StepAt(t, execution, trace, 0);
    assert trace[..0] == [];
  }

  /** An execution that succeeds has completed every node it may not skip. */
  lemma RequiredComplete(t: Topology, execution: string, trace: seq<Event>, k: nat) returns (j: nat)
    requires WorkOf(t, execution, trace).Some? && WorkOf(t, execution, trace).value.stage == Over(false)
    requires k < |t.nodes| && !t.nodes[k].optional
    ensures j < |trace| && CompletesStep(trace[j], t.nodes[k].id)
  {
    var n := |trace| - 1;
    AlwaysSettled(t, execution, trace[..n]);
    j := DoneWasCompleted(t, execution, trace, k);
  }

  // ── What stands beside what ────────────────────────────────────────────────

  /** The second id is of the attempt after the first one's. */
  predicate NextAttempt(a: CallId, b: CallId) {
    a.AttemptId? && b.AttemptId? && a.node == b.node && b.attempt == a.attempt + 1
  }

  /** What must come right before the second event. */
  predicate LedBy(e: Event, f: Event) {
    && (f.body.StepStarted? ==>
          && f.runId == e.runId && f.body.call.AttemptId? && f.body.call.node == f.body.node
          && ((e.body.RunStarted? && f.body.call.attempt == 1)
              || (e.body.StepFailed? && NextAttempt(e.body.call, f.body.call))))
    && (f.body.StepCompleted? ==> e.body == ArtifactProduced(f.body.node) && e.runId == f.runId)
    && (f.body.WorkflowDeclared? ==> e.body.RunStarted?)
  }

  /** What must come right after the first event. */
  predicate LeadsTo(e: Event, f: Event) {
    && (e.body.ArtifactProduced? ==> f.body.StepCompleted? && f.body.node == e.body.node)
    && (e.body.StepCompleted? ==> f.body.RunCompleted? && f.runId == e.runId && f.agent == "")
    && (e.body.RunStarted? ==> f.runId == e.runId && (f.body.StepStarted? || f.body.WorkflowDeclared?))
    && (e.body.StepFailed? ==> f.runId == e.runId && (f.body.StepStarted? || f.body == RunFailed("the stage failed")))
  }

  lemma LedByStep(t: Topology, execution: string, w: Work, e: Event, f: Event)
    requires Next(t, execution, w, e).Some? && Next(t, execution, Next(t, execution, w, e).value, f).Some?
    requires w.stage.Idle? ==> w.at <= |t.nodes|
    ensures LedBy(e, f)
  {
    if w.stage.Idle? && e.body.RunStarted? {
      OwnerIsNode(t, execution, e.runId, w.at);
    }
  }

  lemma LeadsToStep(t: Topology, execution: string, w: Work, e: Event, f: Event)
    requires Next(t, execution, w, e).Some? && Next(t, execution, Next(t, execution, w, e).value, f).Some?
    requires w.stage.Idle? ==> w.at <= |t.nodes|
    ensures LeadsTo(e, f)
  {
    if w.stage.Idle? && e.body.RunStarted? {
      OwnerIsNode(t, execution, e.runId, w.at);
    }
  }

  lemma AdjacentAt(t: Topology, execution: string, trace: seq<Event>, j: nat)
    requires WorkOf(t, execution, trace).Some? && j + 1 < |trace|
    ensures LedBy(trace[j], trace[j + 1]) && LeadsTo(trace[j], trace[j + 1])
  {
    StepAt(t, execution, trace, j);
    StepAt(t, execution, trace, j + 1);
    AlwaysSettled(t, execution, trace[..j]);
    LedByStep(t, execution, WorkOf(t, execution, trace[..j]).value, trace[j], trace[j + 1]);
    LeadsToStep(t, execution, WorkOf(t, execution, trace[..j]).value, trace[j], trace[j + 1]);
  }

  lemma FirstAndLast(t: Topology, execution: string, w: Work, e: Event)
    requires Next(t, execution, w, e).Some?
    ensures w.stage.Unopened? ==> e.body.RunStarted?
    ensures Next(t, execution, w, e).value.stage.Over? ==> e.body.RunCompleted? || e.body.RunFailed?
  {
  }

  /**
   Every attempt is framed: it starts right after its node's run, or right after the failed attempt
   before it; it completes right after its artifact; and the node's run completes right after that.
   */
  lemma AttemptIsFramed(t: Topology, execution: string, trace: seq<Event>, j: nat)
    requires WorkOf(t, execution, trace).Some? && WorkOf(t, execution, trace).value.stage.Over? && j < |trace|
    ensures trace[j].body.StepStarted? ==>
      && j > 0 && trace[j - 1].runId == trace[j].runId && trace[j].body.call.AttemptId?
      && ((trace[j - 1].body.RunStarted? && trace[j].body.call.attempt == 1)
          || (trace[j - 1].body.StepFailed? && NextAttempt(trace[j - 1].body.call, trace[j].body.call)))
    ensures trace[j].body.StepCompleted? ==>
      && 0 < j < |trace| - 1 && trace[j - 1].runId == trace[j].runId == trace[j + 1].runId
      && trace[j - 1].body == ArtifactProduced(trace[j].body.node)
      && trace[j + 1].body.RunCompleted? && trace[j + 1].agent == ""
    ensures j > 0 && trace[j].body.RunStarted? ==> j + 1 < |trace| && trace[j + 1].runId == trace[j].runId
  {
    var n := |trace| - 1;
    StepAt(t, execution, trace, 0);
    FirstAndLast(t, execution, WorkOf(t, execution, trace[..0]).value, trace[0]);
    StepAt(t, execution, trace, n);
    assert trace[..n + 1] == trace;
    FirstAndLast(t, execution, WorkOf(t, execution, trace[..n]).value, trace[n]);
    if j > 0 {
      AdjacentAt(t, execution, trace, j - 1);
    }
    if j < n {
      AdjacentAt(t, execution, trace, j);
    }
  }

  /** The runs of an execution are all different exactly when no two nodes share an id and none is called "driver". */
  lemma RunsDistinct(t: Topology, execution: string)
    ensures (&& (forall i, j :: 0 <= i < j < |t.nodes| ==>
                   NodeRun(execution, t.nodes[i]) != NodeRun(execution, t.nodes[j]))
             && (forall i :: 0 <= i < |t.nodes| ==> NodeRun(execution, t.nodes[i]) != DriverRun(execution)))
       <==> Distinct(t) && forall i :: 0 <= i < |t.nodes| ==> t.nodes[i].id != "driver"
  {
    var stem := execution + "-";
    assert forall i :: 0 <= i < |t.nodes| ==> NodeRun(execution, t.nodes[i])[|stem|..] == t.nodes[i].id;
    assert DriverRun(execution) == stem + "driver";
    assert DriverRun(execution)[|stem|..] == "driver";
    assert forall i :: 0 <= i < |t.nodes| ==> NodeRun(execution, t.nodes[i]) == stem + t.nodes[i].id;
  }
}
