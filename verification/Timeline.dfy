/** Events on one clock (scripts/seed-dev.py, `Timeline`). */
module Timelines {
  import opened Digits
  import opened Wrappers

  /** A call id as the number, or the node and attempt, it is rendered from. */
  datatype CallId =
    | LlmId(n: nat)
    | ToolId(n: nat)
    | AttemptId(node: string, attempt: nat)

  function Stem(id: CallId): string {
    match id
    case LlmId(_) => "llm"
    case ToolId(_) => "tool"
    case AttemptId(node, _) => node
  }

  function Render(id: CallId): string {
    Stem(id) + "-" + Decimal(if id.AttemptId? then id.attempt else id.n)
  }

  /** The settings of a model call, drawn anew for each. */
  datatype Params = Params(temperature: real, maxTokens: nat, topP: Option<real>, seed: Option<nat>)

  /** What a call asks: everything the request carries but its id. */
  datatype Request = Request(model: string, prompt: Option<string>, params: Params)

  /** What an event says; the payload fields kept are those the readers of a trace depend on. */
  datatype Body =
    | RunStarted
    | RunCompleted
    | RunFailed(cause: string)
    | AgentStarted
    | AgentMessage(to: string)
    | AgentCompleted
    | AgentFailed(cause: string)
    | LlmStarted(call: CallId, request: Request)
    | LlmFirstToken(call: CallId)
    | LlmChunk(call: CallId, index: nat)
    | LlmCompleted(call: CallId, model: string)
    | LlmFailed(call: CallId, model: string, cause: string)
    | ToolStarted(call: CallId, tool: string)
    | ToolCompleted(call: CallId, tool: string)
    | ToolFailed(call: CallId, tool: string)
    | WorkflowDeclared(nodes: seq<string>, edges: seq<(string, string)>)
    | StepStarted(node: string, call: CallId)
    | StepFailed(node: string, call: CallId, cause: string)
    | ArtifactProduced(node: string)
    | StepCompleted(node: string, call: CallId)

  /** `agent` is empty where the source sets no `agent_id`. */
  datatype Event = Event(runId: string, sequence: nat, agent: string, body: Body)

  function EventId(e: Event): string {
    e.runId + "-" + Decimal(e.sequence)
  }

  /** Distinct ids of calls are rendered as distinct strings, and so are distinct ids of attempts. */
  lemma RenderInjective(a: CallId, b: CallId)
    requires Render(a) == Render(b) && (a.AttemptId? <==> b.AttemptId?)
    ensures a == b
  {
    NumberedInjective(
      Stem(a), if a.AttemptId? then a.attempt else a.n, Stem(b), if b.AttemptId? then b.attempt else b.n);
    assert |"llm"| != |"tool"|;
  }

  predicate Says(e: Event, runId: string, agent: string, body: Body) {
    e.runId == runId && e.agent == agent && e.body == body
  }

  /** How many events a run has. */
  function Count(events: seq<Event>, runId: string): nat {
    if events == [] then 0
    else
      var n := |events| - 1;
      Count(events[..n], runId) + if events[n].runId == runId then 1 else 0
  }

  function SequenceOf(sequences: map<string, nat>, runId: string): nat {
    if runId in sequences then sequences[runId] else 0
  }

  /** Each event carries its position in its own run. */
  ghost predicate Numbered(events: seq<Event>) {
    forall i {:trigger events[i].sequence} :: 0 <= i < |events| ==>
      events[i].sequence == Count(events[..i + 1], events[i].runId)
  }

  ghost predicate Counts(sequences: map<string, nat>, events: seq<Event>) {
    forall r {:trigger SequenceOf(sequences, r)} :: SequenceOf(sequences, r) == Count(events, r)
  }

  ghost predicate Ascending(moments: seq<real>) {
    |moments| <= 1 ||
    var n := |moments| - 1;
    Ascending(moments[..n]) && moments[n - 1] <= moments[n]
  }

  lemma NumberedOneMore(events: seq<Event>, sequences: map<string, nat>, e: Event)
    requires Numbered(events) && Counts(sequences, events)
    requires e.sequence == SequenceOf(sequences, e.runId) + 1
    ensures Numbered(events + [e]) && Counts(sequences[e.runId := e.sequence], events + [e])
  {
    var more := events + [e];
    assert more[..|events|] == events;
    forall i | 0 <= i < |more|
      ensures more[i].sequence == Count(more[..i + 1], more[i].runId)
    {
      if i < |events| {
        assert more[..i + 1] == events[..i + 1];
        assert more[i].sequence == events[i].sequence;
      } else {
        assert more[..i + 1] == more;
      }
    }
    forall r
      ensures SequenceOf(sequences[e.runId := e.sequence], r) == Count(more, r)
    {
      assert SequenceOf(sequences, r) == Count(events, r);
    }
  }

  class Timeline {
    var clock: real
    var events: seq<Event>
    var moments: seq<real>
    var sequences: map<string, nat>

    ghost predicate Valid()
      reads this
    {
      && |events| == |moments|
      && Numbered(events)
      && Counts(sequences, events)
    }

    /** The clock has never gone back. */
    ghost predicate Monotone()
      reads this
    {
      Ascending(moments) && (moments != [] ==> moments[|moments| - 1] <= clock)
    }

    /** Since then the clock has not gone back, and what was noted of the past stands. */
    twostate predicate GoesOn()
      reads this
    {
      (old(Monotone()) ==> Monotone()) && old(moments) <= moments
    }

    /** Nothing has been waited for since the last event. */
    ghost predicate Settled()
      reads this
    {
      moments != [] && Elapsed() == 0.0
    }

    /** How long ago the last event was. */
    ghost function Elapsed(): real
      reads this
    {
      if moments == [] then 0.0 else clock - moments[|moments| - 1]
    }

    constructor (start: real)
      ensures Valid() && Monotone()
      ensures clock == start && events == [] && moments == [] && sequences == map[]
    {
      clock := start;
      events, moments, sequences := [], [], map[];
    }

    /** Appends one event; `e` names it for the caller's proof. */
    method Emit(runId: string, body: Body, agent: string, after: real) returns (ghost e: Event)
      requires Valid()
      modifies this
      ensures Valid()
      ensures clock == old(clock) + after
      ensures moments == old(moments) + [clock]
      ensures events == old(events) + [e] && Says(e, runId, agent, body)
      ensures old(Monotone()) && after >= 0.0 ==> Monotone()
    {
      clock := clock + after;
      var sequence := SequenceOf(sequences, runId) + 1;
      sequences := sequences[runId := sequence];
      e := Event(runId, sequence, agent, body);
      events := events + [Event(runId, sequence, agent, body)];
      moments := moments + [clock];
      NumberedOneMore(old(events), old(sequences), e);
      assert moments[..|old(moments)|] == old(moments);
    }

    method Wait(seconds: real)
      requires Valid()
      modifies this`clock
      ensures Valid()
      ensures clock == old(clock) + seconds && events == old(events) && moments == old(moments)
      ensures old(Monotone()) && seconds >= 0.0 ==> Monotone()
    {
      clock := clock + seconds;
    }
  }

  lemma {:induction false} AscendingPair(moments: seq<real>, i: nat, j: nat)
    requires Ascending(moments) && i <= j < |moments|
    ensures moments[i] <= moments[j]
  {
    var n := |moments| - 1;
    if j < n {
      AscendingPair(moments[..n], i, j);
    } else if i < n {
      AscendingPair(moments[..n], i, n - 1);
    }
  }

  /** The events whose moment is not after `moment`, as the comprehension in `before` picks them. */
  function Before(events: seq<Event>, moments: seq<real>, moment: real): seq<Event>
    requires |events| == |moments|
  {
    if events == [] then []
    else
      var n := |events| - 1;
      Before(events[..n], moments[..n], moment) + if moments[n] <= moment then [events[n]] else []
  }

  /** On a clock that never goes back, cutting at a moment keeps a prefix: everything up to it and nothing after. */
  lemma {:induction false} BeforeIsPrefix(events: seq<Event>, moments: seq<real>, moment: real)
    requires |events| == |moments| && Ascending(moments)
    ensures var kept := Before(events, moments, moment);
      && kept <= events
      && forall i :: 0 <= i < |events| ==> (i < |kept| <==> moments[i] <= moment)
  {
    if events != [] {
      var n := |events| - 1;
      BeforeIsPrefix(events[..n], moments[..n], moment);
      if moments[n] <= moment && n > 0 {
        assert moments[..n][n - 1] == moments[n - 1];
      }
    }
  }

  lemma {:induction false} CountGrows(events: seq<Event>, i: nat, j: nat, runId: string)
    requires i <= j <= |events|
    ensures Count(events[..i], runId) <= Count(events[..j], runId)
    decreases j
  {
    if i < j {
      CountGrows(events, i, j - 1, runId);
      assert events[..j][..j - 1] == events[..j - 1];
    }
  }

  /** Within a run the numbers rise with position. */
  lemma SequencesRise(events: seq<Event>, i: nat, j: nat)
    requires Numbered(events) && i < j < |events| && events[i].runId == events[j].runId
    ensures events[i].sequence < events[j].sequence
  {
    CountGrows(events, i + 1, j, events[i].runId);
    assert events[..j + 1][..j] == events[..j];
  }

  /** A run's events are numbered 1 to n without a gap. */
  lemma {:induction false} SequencesCover(events: seq<Event>, runId: string, k: nat) returns (i: nat)
    requires Numbered(events) && 1 <= k <= Count(events, runId)
    ensures i < |events| && events[i].runId == runId && events[i].sequence == k
  {
    var n := |events| - 1;
    if events[n].runId == runId && k == Count(events, runId) {
      assert events[..n + 1] == events;
      i := n;
    } else {
      NumberedPrefix(events, n);
      i := SequencesCover(events[..n], runId, k);
    }
  }

  lemma NumberedPrefix(events: seq<Event>, n: nat)
    requires Numbered(events) && n <= |events|
    ensures Numbered(events[..n])
  {
    var some := events[..n];
    forall i | 0 <= i < n
      ensures some[i].sequence == Count(some[..i + 1], some[i].runId)
    {
      assert some[..i + 1] == events[..i + 1];
      assert some[i].sequence == events[i].sequence;
    }
  }

  /** No two events of a timeline share an id, even across its runs. */
  lemma EventIdsUnique(events: seq<Event>, i: nat, j: nat)
    requires Numbered(events) && i < j < |events|
    ensures EventId(events[i]) != EventId(events[j])
  {
    if EventId(events[i]) == EventId(events[j]) {
      NumberedInjective(events[i].runId, events[i].sequence, events[j].runId, events[j].sequence);
      SequencesRise(events, i, j);
    }
  }
}
