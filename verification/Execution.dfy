/** One execution of a declared workflow (scripts/seed-dev.py, `execution`). */
module Executions {
  import opened AgentRuns
  import opened CallBrackets
  import opened Timelines
  import opened WorkflowTrace
  import opened Wrappers
  import Draws

  /** "ok" and "running" play the same; what is running is cut afterwards. */
  datatype Outcome = Fine | Retried | Failed

  function Required(nodes: seq<Node>): (ids: seq<string>)
    ensures forall id :: id in ids <==> exists k :: 0 <= k < |nodes| && nodes[k].id == id && !nodes[k].optional
  {
    if nodes == [] then []
    else
      var n := |nodes| - 1;
      var before := Required(nodes[..n]);
      assert forall k :: 0 <= k < n ==> nodes[..n][k] == nodes[k];
      if nodes[n].optional then before else before + [nodes[n].id]
  }

  /** Every required node has an error to fail with. */
  ghost predicate Explained(t: Topology) {
    forall k :: 0 <= k < |t.nodes| && !t.nodes[k].optional ==> t.nodes[k].id in t.errors
  }

  /** What `execution` raises on otherwise, and durations that do not run backwards. */
  ghost predicate Executable(c: Catalogue, t: Topology, outcome: Outcome) {
    && Sound(c) && MODEL in c.models && Distinct(t)
    && (forall n :: n in t.nodes ==> 0.0 <= n.shortest <= n.longest)
    && (outcome != Outcome.Fine ==> Required(t.nodes) != [] && Explained(t))
  }

  /** How long each node's step may take. */
  function StepTimes(nodes: seq<Node>): Steps {
    if nodes == [] then map[]
    else
      var n := |nodes| - 1;
      StepTimes(nodes[..n])[nodes[n].id := (nodes[n].shortest, nodes[n].longest)]
  }

  lemma {:induction false} StepTakes(nodes: seq<Node>, i: nat)
    requires i < |nodes| && forall a, b :: 0 <= a < b < |nodes| ==> nodes[a].id != nodes[b].id
    ensures nodes[i].id in StepTimes(nodes)
    ensures StepTimes(nodes)[nodes[i].id] == (nodes[i].shortest, nodes[i].longest)
  {
    var n := |nodes| - 1;
    if i < n {
      StepTakes(nodes[..n], i);
    }
  }

  /** The timeline holds `was` and then the execution's own trace, which has reached `w`. */
  ghost predicate At(events: seq<Event>, was: seq<Event>, trace: seq<Event>, t: Topology, execution: string, w: Work) {
    events == was + trace && Orderly(events) && WorkOf(t, execution, trace) == Some(w)
  }

  predicate Marks(body: Body) {
    || body.RunStarted? || body.RunCompleted? || body.RunFailed? || body.WorkflowDeclared?
    || body.StepStarted? || body.StepFailed? || body.StepCompleted? || body.ArtifactProduced?
  }

  lemma MarkEffect(
    events: seq<Event>, was: seq<Event>, trace: seq<Event>, e: Event, t: Topology, execution: string, w: Work,
    next: Work)
    requires At(events, was, trace, t, execution, w) && Marks(e.body)
    requires WorkflowTrace.Next(t, execution, w, e) == Some(next)
    ensures At(events + [e], was, trace + [e], t, execution, next)
  {
    OtherIsOrderly(events, e);
    WorkflowTrace.Extend(t, execution, trace, e);
    Regroup(was, trace, [e]);
  }

  /** Any event that is neither a call nor part of one. */
  method Mark(
    tl: Timeline, t: Topology, execution: string, runId: string, agent: string, body: Body, after: real,
    ghost c: Catalogue, ghost was: seq<Event>, ghost trace: seq<Event>, ghost w: Work, ghost next: Work)
    returns (ghost longer: seq<Event>)
    requires tl.Valid() && after >= 0.0 && Paced(c, StepTimes(t.nodes), trace, tl.moments)
    requires trace != [] ==>
      Timely(c, StepTimes(t.nodes), trace[|trace| - 1].body, body, tl.Elapsed() + after)
    requires At(tl.events, was, trace, t, execution, w) && Marks(body)
    requires WorkflowTrace.Next(t, execution, w, Event(runId, 0, agent, body)) == Some(next)
    modifies tl
    ensures tl.Valid() && tl.GoesOn()
    ensures At(tl.events, was, longer, t, execution, next) && OnTime(c, StepTimes(t.nodes), tl, longer)
    ensures longer != [] && longer[|longer| - 1].body == body
  {
    ghost var e := EmitOnTime(tl, runId, body, agent, after, c, StepTimes(t.nodes), trace);
    longer := trace + [e];
    MarkEffect(old(tl.events), was, trace, e, t, execution, w, next);
  }

  /** Where the step stands after each event of its agent's call. */
  function Asked(w: Work, i: nat, attempt: nat, call: CallId, k: nat, last: int): Work {
    if k == 0 then w
    else if k <= last then w.(stage := Running(i, attempt, Answering(call)))
    else w.(stage := Running(i, attempt, Ready))
  }

  lemma CallStep(
    t: Topology, execution: string, w: Work, i: nat, attempt: nat, e: Event, call: CallId, k: nat, last: int,
    request: Request)
    requires w.stage == Running(i, attempt, Asking) && i < |t.nodes| && k <= last && last >= 1
    requires Says(e, NodeRun(execution, t.nodes[i]), t.nodes[i].agent, ReplyBody(k, last, call, request, None))
    requires request.model == MODEL && request.prompt == None
    ensures WorkflowTrace.Next(t, execution, Asked(w, i, attempt, call, k, last), e)
         == Some(Asked(w, i, attempt, call, k + 1, last))
  {
  }

  ghost predicate StepsOn(t: Topology, execution: string, wrote: seq<Event>, at: nat -> Work) {
    forall k: nat {:trigger at(k)} :: k < |wrote| ==>
      WorkflowTrace.Next(t, execution, at(k), wrote[k]) == Some(at(k + 1))
  }

  lemma {:induction false} ReadOn(
    t: Topology, execution: string, trace: seq<Event>, wrote: seq<Event>, n: nat, at: nat -> Work)
    requires StepsOn(t, execution, wrote, at) && n <= |wrote| && WorkOf(t, execution, trace) == Some(at(0))
    ensures WorkOf(t, execution, trace + wrote[..n]) == Some(at(n))
  {
    if n == 0 {
      assert trace + wrote[..0] == trace;
    } else {
      ReadOn(t, execution, trace, wrote, n - 1, at);
      WorkflowTrace.Extend(t, execution, trace + wrote[..n - 1], wrote[n - 1]);
      TakeOneMore(trace, wrote, n - 1);
    }
  }

  lemma CallReadied(
    t: Topology, execution: string, trace: seq<Event>, wrote: seq<Event>, i: nat, attempt: nat, w: Work, call: CallId,
    request: Request)
    requires WorkOf(t, execution, trace) == Some(w) && w.stage == Running(i, attempt, Asking)
    requires i < |t.nodes| && request.model == MODEL && request.prompt == None
    requires Reply(wrote, call, NodeRun(execution, t.nodes[i]), t.nodes[i].agent, request, None)
    ensures WorkOf(t, execution, trace + wrote) == Some(w.(stage := Running(i, attempt, Ready)))
  {
    var last := |wrote| - 1;
    var at := (k: nat) => Asked(w, i, attempt, call, k, last);
    forall k: nat | k < |wrote|
      ensures WorkflowTrace.Next(t, execution, at(k), wrote[k]) == Some(at(k + 1))
    {
      CallStep(t, execution, w, i, attempt, wrote[k], call, k, last, request);
    }
    ReadOn(t, execution, trace, wrote, |wrote|, at);
    assert wrote[..|wrote|] == wrote;
  }

  lemma ReplyEffect(
    events: seq<Event>, was: seq<Event>, trace: seq<Event>, wrote: seq<Event>, t: Topology, execution: string, i: nat,
    attempt: nat, w: Work, request: Request)
    requires At(events, was, trace, t, execution, w) && w.stage == Running(i, attempt, Asking)
    requires i < |t.nodes| && request.model == MODEL && request.prompt == None
    requires Reply(wrote, LlmId(|events|), NodeRun(execution, t.nodes[i]), t.nodes[i].agent, request, None)
    ensures At(events + wrote, was, trace + wrote, t, execution, w.(stage := Running(i, attempt, Ready)))
  {
    ReplyIsOrderly(events, wrote, NodeRun(execution, t.nodes[i]), t.nodes[i].agent, request, None);
    CallReadied(t, execution, trace, wrote, i, attempt, w, LlmId(|events|), request);
    Regroup(was, trace, wrote);
  }

  /** The agent's own call, for a node that has an agent; the step is then ready to come to something. */
  method AskAgent(
    c: Catalogue, tl: Timeline, t: Topology, execution: string, i: nat, attempt: nat,
    ghost was: seq<Event>, ghost trace: seq<Event>, ghost w: Work)
    returns (ghost longer: seq<Event>)
    requires tl.Valid() && Sound(c) && MODEL in c.models && i < |t.nodes|
    requires At(tl.events, was, trace, t, execution, w) && OnTime(c, StepTimes(t.nodes), tl, trace)
    requires w.stage == Running(i, attempt, Begin(t.nodes[i].agent))
    requires trace != [] && trace[|trace| - 1].body.StepStarted?
    modifies tl
    ensures tl.Valid() && tl.GoesOn()
    ensures At(tl.events, was, longer, t, execution, w.(stage := Running(i, attempt, Ready)))
    ensures OnTime(c, StepTimes(t.nodes), tl, longer) && longer != []
  {
    longer := trace;
    var node := t.nodes[i];
    if node.agent != "" {
      var _, request, wrote := LlmCall(
        c, tl, NodeRun(execution, node), node.agent, MODEL, None, None, StepTimes(t.nodes));
      longer := trace + wrote;
      PaceAppend(c, StepTimes(t.nodes), trace, wrote, old(tl.moments), tl.moments);
      ReplyEffect(old(tl.events), was, trace, wrote, t, execution, i, attempt, w, request);
    }
  }

  /** An attempt starts, and its agent's call is made. */
  method StartAttempt(
    c: Catalogue, tl: Timeline, t: Topology, execution: string, i: nat, attempt: nat,
    ghost was: seq<Event>, ghost trace: seq<Event>, ghost w: Work)
    returns (ghost longer: seq<Event>)
    requires tl.Valid() && Sound(c) && MODEL in c.models && i < |t.nodes| && attempt >= 1
    requires At(tl.events, was, trace, t, execution, w) && Paced(c, StepTimes(t.nodes), trace, tl.moments)
    requires w.stage == (if attempt == 1 then Opened(i) else Waiting(i, attempt - 1))
    requires trace != [] && (trace[|trace| - 1].body.StepFailed? <==> attempt > 1)
    requires if attempt > 1 then Within(tl.Elapsed(), 5.0, 30.0) else tl.Elapsed() == 0.0
    modifies tl
    ensures tl.Valid() && tl.GoesOn()
    ensures At(tl.events, was, longer, t, execution, w.(stage := Running(i, attempt, Ready)))
    ensures OnTime(c, StepTimes(t.nodes), tl, longer) && longer != []
  {
    var node := t.nodes[i];
    ghost var next := w.(stage := Running(i, attempt, Begin(node.agent)));
    longer := Mark(
      tl, t, execution, NodeRun(execution, node), node.agent, StepStarted(node.id, AttemptId(node.id, attempt)), 0.0,
      c, was, trace, w, next);
    longer := AskAgent(c, tl, t, execution, i, attempt, was, longer, next);
  }

  method Fail(
    tl: Timeline, t: Topology, execution: string, i: nat, attempt: nat, duration: real, ghost c: Catalogue,
    ghost was: seq<Event>, ghost trace: seq<Event>, ghost w: Work, ghost next: Work)
    returns (ghost longer: seq<Event>)
    requires tl.Valid() && i < |t.nodes| && duration >= 0.0 && OnTime(c, StepTimes(t.nodes), tl, trace)
    requires trace != [] && Takes(StepTimes(t.nodes), t.nodes[i].id, duration) && t.nodes[i].id in t.errors
    requires At(tl.events, was, trace, t, execution, w) && w.stage == Running(i, attempt, Ready)
    requires next == w.(stage := Waiting(i, attempt), failures := w.failures + [(i, attempt)])
    modifies tl
    ensures tl.Valid() && tl.GoesOn()
    ensures At(tl.events, was, longer, t, execution, next) && OnTime(c, StepTimes(t.nodes), tl, longer)
    ensures longer != [] && longer[|longer| - 1].body.StepFailed?
  {
    var node := t.nodes[i];
    longer := Mark(
      tl, t, execution, NodeRun(execution, node), node.agent,
      StepFailed(node.id, AttemptId(node.id, attempt), t.errors[node.id]), duration, c, was, trace, w, next);
  }

  method Produce(
    tl: Timeline, t: Topology, execution: string, i: nat, attempt: nat, duration: real, ghost c: Catalogue,
    ghost was: seq<Event>, ghost trace: seq<Event>, ghost w: Work)
    returns (ghost longer: seq<Event>)
    requires tl.Valid() && i < |t.nodes| && duration >= 0.0 && OnTime(c, StepTimes(t.nodes), tl, trace)
    requires trace != [] && Takes(StepTimes(t.nodes), t.nodes[i].id, duration)
    requires At(tl.events, was, trace, t, execution, w) && w.stage == Running(i, attempt, Ready)
    modifies tl
    ensures tl.Valid() && tl.GoesOn()
    ensures At(tl.events, was, longer, t, execution, w.(stage := Closing(i), done := w.done + {i}))
    ensures OnTime(c, StepTimes(t.nodes), tl, longer) && longer != []
  {
    var node := t.nodes[i];
    var runId := NodeRun(execution, node);
    ghost var produced := w.(stage := Running(i, attempt, Produced));
    longer := Mark(
      tl, t, execution, runId, node.agent, ArtifactProduced(node.id), duration, c, was, trace, w, produced);
    longer := Mark(
      tl, t, execution, runId, node.agent, StepCompleted(node.id, AttemptId(node.id, attempt)), 0.0, c, was, longer,
      produced, w.(stage := Closing(i), done := w.done + {i}));
  }

  /** One attempt at a node's step: it fails, or produces its artifact and completes. */
  method Attempt(
    c: Catalogue, tl: Timeline, t: Topology, execution: string, i: nat, attempt: nat, fails: bool,
    ghost was: seq<Event>, ghost trace: seq<Event>, ghost w: Work)
    returns (ghost longer: seq<Event>, ghost next: Work)
    requires tl.Valid() && Sound(c) && MODEL in c.models && i < |t.nodes| && attempt >= 1
    requires Distinct(t) && 0.0 <= t.nodes[i].shortest <= t.nodes[i].longest
    requires fails ==> t.nodes[i].id in t.errors
    requires At(tl.events, was, trace, t, execution, w) && Paced(c, StepTimes(t.nodes), trace, tl.moments)
    requires w.stage == (if attempt == 1 then Opened(i) else Waiting(i, attempt - 1))
    requires trace != [] && (trace[|trace| - 1].body.StepFailed? <==> attempt > 1)
    requires if attempt > 1 then Within(tl.Elapsed(), 5.0, 30.0) else tl.Elapsed() == 0.0
    modifies tl
    ensures tl.Valid() && tl.GoesOn()
    ensures At(tl.events, was, longer, t, execution, next)
    ensures next == if fails then w.(stage := Waiting(i, attempt), failures := w.failures + [(i, attempt)])
                    else w.(stage := Closing(i), done := w.done + {i})
    ensures OnTime(c, StepTimes(t.nodes), tl, longer)
    ensures longer != [] && (fails ==> longer[|longer| - 1].body.StepFailed?)
  {
    StepTakes(t.nodes, i);
    var node := t.nodes[i];
    longer := StartAttempt(c, tl, t, execution, i, attempt, was, trace, w);
    next := w.(stage := Running(i, attempt, Ready));
    var duration := Draws.Uniform(node.shortest, node.longest);
    if fails {
      ghost var failed := w.(stage := Waiting(i, attempt), failures := w.failures + [(i, attempt)]);
      longer := Fail(tl, t, execution, i, attempt, duration, c, was, longer, next, failed);
      next := failed;
    } else {
      longer := Produce(tl, t, execution, i, attempt, duration, c, was, longer, next);
      next := w.(stage := Closing(i), done := w.done + {i});
    }
  }

  lemma {:induction false} OwnerFinds(t: Topology, execution: string, i: nat, k: nat)
    requires Distinct(t) && k <= i < |t.nodes|
    ensures Owner(t, execution, NodeRun(execution, t.nodes[i]), k) == Some(i)
    decreases i - k
  {
    if k < i {
      OwnerFinds(t, execution, i, k + 1);
      var stem := execution + "-";
      assert NodeRun(execution, t.nodes[i])[|stem|..] == t.nodes[i].id;
      assert NodeRun(execution, t.nodes[k])[|stem|..] == t.nodes[k].id;
    }
  }

  /** A node that failed for good ends its own run and the driver's. */
  method Abandon(
    tl: Timeline, t: Topology, execution: string, i: nat, ghost c: Catalogue, ghost was: seq<Event>,
    ghost trace: seq<Event>, ghost w: Work)
    returns (ghost longer: seq<Event>)
    requires tl.Valid() && i < |t.nodes| && OnTime(c, StepTimes(t.nodes), tl, trace)
    requires At(tl.events, was, trace, t, execution, w) && w.stage == Waiting(i, 1)
    modifies tl
    ensures tl.Valid() && tl.GoesOn()
    ensures At(tl.events, was, longer, t, execution, w.(stage := Over(true)))
    ensures OnTime(c, StepTimes(t.nodes), tl, longer)
  {
    var node := t.nodes[i];
    ghost var abandoned := w.(stage := Abandoned(i));
    longer := Mark(
      tl, t, execution, NodeRun(execution, node), "", RunFailed("the stage failed"), 0.0, c, was, trace, w, abandoned);
    longer := Mark(
      tl, t, execution, DriverRun(execution), "", RunFailed(node.id + " failed"), 0.0, c, was, longer, abandoned,
      w.(stage := Over(true)));
  }

  /** The driver's run opens and declares the topology. */
  method Declare(tl: Timeline, t: Topology, execution: string, ghost c: Catalogue, ghost was: seq<Event>)
    returns (ghost trace: seq<Event>)
    requires tl.Valid() && tl.events == was && Orderly(was)
    modifies tl
    ensures tl.Valid() && tl.GoesOn()
    ensures At(tl.events, was, trace, t, execution, Work(Idle, 0, {}, []))
    ensures OnTime(c, StepTimes(t.nodes), tl, trace) && trace != []
  {
    var driver := DriverRun(execution);
    assert was + [] == was;
    ghost var opening := Work(Undeclared, 0, {}, []);
    trace := Mark(tl, t, execution, driver, "", RunStarted, 0.0, c, was, [], Work(Unopened, 0, {}, []), opening);
    trace := Mark(
      tl, t, execution, driver, "", WorkflowDeclared(Ids(t.nodes), t.edges), 0.0, c, was, trace, opening,
      Work(Idle, 0, {}, []));
  }

  /** A node's run opens, once every node before it is behind or passed over. */
  method Open(
    tl: Timeline, t: Topology, execution: string, i: nat, ghost c: Catalogue, ghost was: seq<Event>,
    ghost trace: seq<Event>, ghost w: Work)
    returns (ghost longer: seq<Event>)
    requires tl.Valid() && Distinct(t) && i < |t.nodes| && OnTime(c, StepTimes(t.nodes), tl, trace) && trace != []
    requires At(tl.events, was, trace, t, execution, w)
    requires w.stage == Idle && w.at <= i && AllOptional(t, w.at, i)
    modifies tl
    ensures tl.Valid() && tl.GoesOn()
    ensures At(tl.events, was, longer, t, execution, w.(stage := Opened(i), at := i + 1))
    ensures OnTime(c, StepTimes(t.nodes), tl, longer)
    ensures longer != [] && longer[|longer| - 1].body.RunStarted?
  {
    OwnerFinds(t, execution, i, w.at);
    var delay := Draws.Uniform(0.2, 2.0);
    longer := Mark(
      tl, t, execution, NodeRun(execution, t.nodes[i]), "", RunStarted, delay, c, was, trace, w,
      w.(stage := Opened(i), at := i + 1));
  }

  /** A node's run closes once its step has completed. */
  method Close(
    tl: Timeline, t: Topology, execution: string, i: nat, ghost c: Catalogue, ghost was: seq<Event>,
    ghost trace: seq<Event>, ghost w: Work)
    returns (ghost longer: seq<Event>)
    requires tl.Valid() && i < |t.nodes| && OnTime(c, StepTimes(t.nodes), tl, trace)
    requires At(tl.events, was, trace, t, execution, w) && w.stage == Closing(i)
    modifies tl
    ensures tl.Valid() && tl.GoesOn()
    ensures At(tl.events, was, longer, t, execution, w.(stage := Idle))
    ensures OnTime(c, StepTimes(t.nodes), tl, longer) && longer != []
  {
    longer := Mark(
      tl, t, execution, NodeRun(execution, t.nodes[i]), "", RunCompleted, 0.0, c, was, trace, w, w.(stage := Idle));
  }

  /** After a pause the step is attempted once more. */
  method TryAgain(
    c: Catalogue, tl: Timeline, t: Topology, execution: string, i: nat, ghost was: seq<Event>,
    ghost trace: seq<Event>, ghost w: Work)
    returns (ghost longer: seq<Event>, ghost next: Work)
    requires tl.Valid() && Sound(c) && MODEL in c.models && i < |t.nodes|
    requires Distinct(t) && 0.0 <= t.nodes[i].shortest <= t.nodes[i].longest
    requires At(tl.events, was, trace, t, execution, w) && w.stage == Waiting(i, 1)
    requires OnTime(c, StepTimes(t.nodes), tl, trace) && trace != [] && trace[|trace| - 1].body.StepFailed?
    modifies tl
    ensures tl.Valid() && tl.GoesOn()
    ensures At(tl.events, was, longer, t, execution, next) && OnTime(c, StepTimes(t.nodes), tl, longer)
    ensures next == w.(stage := Closing(i), done := w.done + {i}) && longer != []
  {
    var pause := Draws.Uniform(5.0, 30.0);
    tl.Wait(pause);
    longer, next := Attempt(c, tl, t, execution, i, 2, false, was, trace, w);
  }

  /** One node's run, from its start to its end, or to the execution's when the node fails for good. */
  method RunNode(
    c: Catalogue, tl: Timeline, t: Topology, execution: string, i: nat, failing: bool, outcome: Outcome,
    ghost was: seq<Event>, ghost trace: seq<Event>, ghost w: Work)
    returns (stopped: bool, ghost longer: seq<Event>, ghost next: Work)
    requires tl.Valid() && Executable(c, t, outcome) && i < |t.nodes|
    requires failing ==> outcome != Outcome.Fine && t.nodes[i].id in t.errors
    requires At(tl.events, was, trace, t, execution, w) && OnTime(c, StepTimes(t.nodes), tl, trace) && trace != []
    requires w.stage == Idle && w.at <= i && AllOptional(t, w.at, i)
    modifies tl
    ensures tl.Valid() && tl.GoesOn()
    ensures At(tl.events, was, longer, t, execution, next)
    ensures OnTime(c, StepTimes(t.nodes), tl, longer) && longer != []
    ensures stopped <==> failing && outcome.Failed?
    ensures next.stage == (if stopped then Over(true) else Idle) && next.at == i + 1
    ensures next.failures == if failing then w.failures + [(i, 1)] else w.failures
  {
    next := w.(stage := Opened(i), at := i + 1);
    longer := Open(tl, t, execution, i, c, was, trace, w);
    longer, next := Attempt(c, tl, t, execution, i, 1, failing, was, longer, next);
    if failing && outcome.Failed? {
      longer := Abandon(tl, t, execution, i, c, was, longer, next);
      next := next.(stage := Over(true));
      stopped := true;
      return;
    }
    if failing {
      longer, next := TryAgain(c, tl, t, execution, i, was, longer, next);
    }
    stopped := false;
    longer := Close(tl, t, execution, i, c, was, longer, next);
    next := next.(stage := Idle);
  }

  /** The driver's run ends once only optional nodes are left. */
  method Finish(
    tl: Timeline, t: Topology, execution: string, ghost c: Catalogue, ghost was: seq<Event>, ghost trace: seq<Event>,
    ghost w: Work)
    returns (ghost longer: seq<Event>)
    requires tl.Valid() && At(tl.events, was, trace, t, execution, w) && OnTime(c, StepTimes(t.nodes), tl, trace)
    requires w.stage == Idle && AllOptional(t, w.at, |t.nodes|)
    modifies tl
    ensures tl.Valid() && tl.GoesOn()
    ensures At(tl.events, was, longer, t, execution, w.(stage := Over(false)))
    ensures OnTime(c, StepTimes(t.nodes), tl, longer)
  {
    longer := Mark(
      tl, t, execution, DriverRun(execution), "", RunCompleted, 0.0, c, was, trace, w, w.(stage := Over(false)));
  }

  /** The node chosen to fail, if any, is the one at `f`. */
  predicate Chosen(t: Topology, outcome: Outcome, failing: Option<string>, f: nat) {
    if outcome.Fine? then failing.None? && f == |t.nodes|
    else f < |t.nodes| && failing == Some(t.nodes[f].id) && !t.nodes[f].optional
  }

  /** The node that is to fail, if the outcome asks for one; `f` is where it stands. */
  method ChooseFailing(t: Topology, outcome: Outcome) returns (failing: Option<string>, ghost f: nat)
    requires outcome.Fine? || Required(t.nodes) != []
    ensures Chosen(t, outcome, failing, f)
  {
    failing, f := None, |t.nodes|;
    if !outcome.Fine? {
      var required := Required(t.nodes);
      var which := Draws.Below(|required|);
      failing := Some(required[which]);
      assert required[which] in required;
      f :| 0 <= f < |t.nodes| && t.nodes[f].id == required[which] && !t.nodes[f].optional;
    }
  }

  /** Between nodes: idle, everything undecided so far optional, and the failure behind exactly when its node is. */
  ghost predicate Progress(t: Topology, w: Work, i: nat, f: nat) {
    && w.stage == Idle && w.at <= i && AllOptional(t, w.at, i)
    && w.failures == if f < i then [(f, 1)] else []
  }

  lemma FailsAt(t: Topology, outcome: Outcome, failing: Option<string>, f: nat, i: nat)
    requires Distinct(t) && Chosen(t, outcome, failing, f) && i < |t.nodes|
    ensures failing == Some(t.nodes[i].id) <==> i == f
  {
  }

  lemma Skipped(t: Topology, w: Work, i: nat, f: nat)
    requires i < |t.nodes| && Progress(t, w, i, f) && t.nodes[i].optional && i != f
    ensures Progress(t, w, i + 1, f)
  {
  }

  lemma Ran(t: Topology, w: Work, next: Work, i: nat, f: nat)
    requires Progress(t, w, i, f) && next.stage == Idle && next.at == i + 1
    requires next.failures == if i == f then w.failures + [(i, 1)] else w.failures
    ensures Progress(t, next, i + 1, f)
  {
  }

  /** Every node in turn, up to the one that fails for good. */
  method RunNodes(
    c: Catalogue, tl: Timeline, t: Topology, execution: string, outcome: Outcome, failing: Option<string>,
    ghost f: nat, ghost was: seq<Event>, ghost opening: seq<Event>)
    returns (stopped: bool, ghost trace: seq<Event>, ghost w: Work)
    requires tl.Valid() && Executable(c, t, outcome)
    requires At(tl.events, was, opening, t, execution, Work(Idle, 0, {}, []))
    requires OnTime(c, StepTimes(t.nodes), tl, opening) && opening != []
    requires Chosen(t, outcome, failing, f)
    modifies tl
    ensures tl.Valid() && tl.GoesOn()
    ensures At(tl.events, was, trace, t, execution, w) && OnTime(c, StepTimes(t.nodes), tl, trace)
    ensures stopped <==> outcome.Failed?
    ensures if stopped then w.stage == Over(true) && w.failures == [(f, 1)] else Progress(t, w, |t.nodes|, f)
  {
    stopped, trace, w := false, opening, Work(Idle, 0, {}, []);
    for i := 0 to |t.nodes|
      invariant tl.Valid() && tl.GoesOn() && !stopped
      invariant At(tl.events, was, trace, t, execution, w) && Progress(t, w, i, f)
      invariant OnTime(c, StepTimes(t.nodes), tl, trace) && trace != []
      invariant outcome.Failed? ==> i <= f
    {
      var skip: bool := *;
      FailsAt(t, outcome, failing, f, i);
      if t.nodes[i].optional && skip {
        Skipped(t, w, i, f);
        continue;
      }
      ghost var before := w;
      stopped, trace, w := RunNode(
        c, tl, t, execution, i, failing == Some(t.nodes[i].id), outcome, was, trace, w);
      if stopped {
        return;
      }
      Ran(t, before, w, i, f);
    }
  }

  /**
   One execution. Whatever is drawn, its trace is accepted; it fails exactly when the outcome
   says so, and exactly one attempt failed when it was to be retried or to fail.
   */
  method Execution(c: Catalogue, tl: Timeline, t: Topology, execution: string, outcome: Outcome)
    returns (ghost trace: seq<Event>)
    requires tl.Valid() && Executable(c, t, outcome) && Orderly(tl.events)
    modifies tl
    ensures tl.Valid() && tl.GoesOn()
    ensures tl.events == old(tl.events) + trace && Orderly(tl.events)
    ensures WorkOf(t, execution, trace).Some?
    ensures WorkOf(t, execution, trace).value.stage == Over(outcome.Failed?)
    ensures |WorkOf(t, execution, trace).value.failures| == if outcome.Fine? then 0 else 1
    ensures Paced(c, StepTimes(t.nodes), trace, tl.moments)
  {
    ghost var was := tl.events;
    trace := Declare(tl, t, execution, c, was);
    var failing, f := ChooseFailing(t, outcome);
    var stopped;
    ghost var w;
    stopped, trace, w := RunNodes(c, tl, t, execution, outcome, failing, f, was, trace);
    if !stopped {
      trace := Finish(tl, t, execution, c, was, trace, w);
    }
  }
}
