/**
 Calls as brackets. `CallsOf` is an acceptor that reads a trace one event at a time and
 refuses it as soon as a call is reopened, crossed by another event or closed by anyone
 but its owner; the lemmas say in plain quantifiers what acceptance means.
 */
module CallBrackets {
  import opened Timelines
  import opened Wrappers

  /** `streamed` counts the chunks once the first token has arrived. */
  datatype Open = Open(call: CallId, tool: bool, runId: string, agent: string, streamed: Option<nat>)

  datatype Calls = Calls(open: Option<Open>, used: set<CallId>)

  predicate Starts(e: Event) {
    e.body.LlmStarted? || e.body.ToolStarted?
  }

  predicate Closes(e: Event) {
    e.body.LlmCompleted? || e.body.LlmFailed? || e.body.ToolCompleted? || e.body.ToolFailed?
  }

  predicate Streams(e: Event) {
    e.body.LlmFirstToken? || e.body.LlmChunk?
  }

  predicate IsTool(e: Event) {
    e.body.ToolStarted? || e.body.ToolCompleted? || e.body.ToolFailed?
  }

  function CallOf(e: Event): CallId
    requires Starts(e) || Closes(e) || Streams(e)
  {
    e.body.call
  }

  predicate Owns(o: Open, e: Event)
    requires Starts(e) || Closes(e) || Streams(e)
  {
    o.call == CallOf(e) && o.runId == e.runId && o.agent == e.agent && o.tool == IsTool(e)
  }

  function Next(s: Calls, e: Event): Option<Calls> {
    if Starts(e) then
      if s.open.None? && CallOf(e) !in s.used
      then Some(Calls(Some(Open(CallOf(e), IsTool(e), e.runId, e.agent, None)), s.used + {CallOf(e)}))
      else None
    else if Streams(e) then
      if s.open.Some? && Owns(s.open.value, e)
         && s.open.value.streamed == (if e.body.LlmChunk? then Some(e.body.index) else None)
      then Some(s.(open := Some(s.open.value.(streamed := Some(if e.body.LlmChunk? then e.body.index + 1 else 0)))))
      else None
    else if Closes(e) then
      if s.open.Some? && Owns(s.open.value, e) && (e.body.LlmFailed? ==> s.open.value.streamed.None?)
      then Some(s.(open := None))
      else None
    else if s.open.None? then Some(s) else None
  }

  /** The state after a whole trace, or None once it was refused. */
  function CallsOf(events: seq<Event>): Option<Calls> {
    if events == [] then Some(Calls(None, {}))
    else
      var n := |events| - 1;
      var before := CallsOf(events[..n]);
      if before.None? then None else Next(before.value, events[n])
  }

  /** Accepted, with nothing left open. */
  predicate Balanced(events: seq<Event>) {
    CallsOf(events).Some? && CallsOf(events).value.open.None?
  }

  lemma Extend(events: seq<Event>, e: Event)
    requires CallsOf(events).Some?
    ensures CallsOf(events + [e]) == Next(CallsOf(events).value, e)
  {
    assert (events + [e])[..|events|] == events;
  }

  /** Reading on from a state. */
  function From(s: Calls, events: seq<Event>): Option<Calls>
    decreases events
  {
    if events == [] then Some(s)
    else
      var t := Next(s, events[0]);
      if t.None? then None else From(t.value, events[1..])
  }

  lemma {:induction false} ReadOn(was: seq<Event>, more: seq<Event>)
    requires CallsOf(was).Some? && From(CallsOf(was).value, more).Some?
    ensures CallsOf(was + more) == From(CallsOf(was).value, more)
    decreases |more|
  {
    if more == [] {
      assert was + more == was;
    } else {
      Extend(was, more[0]);
      ReadOn(was + [more[0]], more[1..]);
      assert was + more == was + [more[0]] + more[1..];
    }
  }

  lemma {:induction false} Accepted(events: seq<Event>, i: nat)
    requires CallsOf(events).Some? && i <= |events|
    ensures CallsOf(events[..i]).Some?
    ensures CallsOf(events[..i]).value.used <= CallsOf(events).value.used
  {
    var n := |events| - 1;
    if i == |events| {
      assert events[..i] == events;
    } else {
      Accepted(events[..n], i);
      assert events[..n][..i] == events[..i];
    }
  }

  lemma StepAt(events: seq<Event>, i: nat)
    requires CallsOf(events).Some? && i < |events|
    ensures CallsOf(events[..i]).Some? && CallsOf(events[..i + 1]).Some?
    ensures CallsOf(events[..i + 1]) == Next(CallsOf(events[..i]).value, events[i])
  {
    Accepted(events, i);
    Accepted(events, i + 1);
    assert events[..i + 1][..i] == events[..i];
  }

  /** No two calls of an accepted trace share an id, tools and models together. */
  lemma CallIdsUnique(events: seq<Event>, i: nat, j: nat)
    requires CallsOf(events).Some? && i < j < |events| && Starts(events[i]) && Starts(events[j])
    ensures CallOf(events[i]) != CallOf(events[j])
  {
    StepAt(events, i);
    StepAt(events, j);
    Accepted(events[..j], i + 1);
    assert events[..j][..i + 1] == events[..i + 1];
  }

  /** Event j closes the call event i opened: same id, run, agent and kind, and only its own stream between. */
  ghost predicate Brackets(events: seq<Event>, i: int, j: int) {
    && 0 <= i < j < |events|
    && Starts(events[i]) && Closes(events[j])
    && CallOf(events[i]) == CallOf(events[j])
    && events[i].runId == events[j].runId && events[i].agent == events[j].agent
    && IsTool(events[i]) == IsTool(events[j])
    && forall k :: i < k < j ==> Streams(events[k]) && CallOf(events[k]) == CallOf(events[i])
  }

  /** Whatever is open was opened by some event, and since then only its own stream has been read. */
  lemma {:induction false} OpenedBy(events: seq<Event>) returns (i: nat)
    requires CallsOf(events).Some? && CallsOf(events).value.open.Some?
    ensures i < |events| && Starts(events[i]) && Owns(CallsOf(events).value.open.value, events[i])
    ensures forall k :: i < k < |events| ==> Streams(events[k]) && CallOf(events[k]) == CallOf(events[i])
  {
    var n := |events| - 1;
    if Starts(events[n]) {
      i := n;
    } else {
      i := OpenedBy(events[..n]);
    }
  }

  lemma CloseHasStart(events: seq<Event>, j: nat) returns (i: nat)
    requires CallsOf(events).Some? && j < |events| && Closes(events[j])
    ensures Brackets(events, i, j)
  {
    StepAt(events, j);
    i := OpenedBy(events[..j]);
  }

  lemma {:induction false} FindClose(events: seq<Event>, i: nat, k: nat) returns (j: nat)
    requires Balanced(events) && i < k <= |events| && Starts(events[i])
    requires CallsOf(events[..k]).Some?
    requires CallsOf(events[..k]).value.open.Some? && Owns(CallsOf(events[..k]).value.open.value, events[i])
    requires forall m :: i < m < k ==> Streams(events[m]) && CallOf(events[m]) == CallOf(events[i])
    ensures Brackets(events, i, j)
    decreases |events| - k
  {
    assert events[..|events|] == events;
    if k == |events| {
      assert false;
    } else {
      StepAt(events, k);
      if Closes(events[k]) {
        j := k;
      } else {
        j := FindClose(events, i, k + 1);
      }
    }
  }

  /** Every call of a balanced trace is closed, exactly once, with nothing but its own stream in between. */
  lemma EveryCallClosesOnce(events: seq<Event>, i: nat) returns (j: nat)
    requires Balanced(events) && i < |events| && Starts(events[i])
    ensures Brackets(events, i, j)
    ensures forall k :: 0 <= k < |events| && Closes(events[k]) && CallOf(events[k]) == CallOf(events[i]) ==> k == j
  {
    StepAt(events, i);
    j := FindClose(events, i, i + 1);
    forall k | 0 <= k < |events| && Closes(events[k]) && CallOf(events[k]) == CallOf(events[i])
      ensures k == j
    {
      var opener := CloseHasStart(events, k);
      if opener < i {
        CallIdsUnique(events, opener, i);
      } else if i < opener {
        CallIdsUnique(events, i, opener);
      }
    }
  }

  /** A refusal comes straight after the request it refuses. */
  lemma RefusalFollowsRequest(events: seq<Event>, j: nat)
    requires CallsOf(events).Some? && j < |events| && events[j].body.LlmFailed?
    ensures j > 0 && events[j - 1].body.LlmStarted? && CallOf(events[j - 1]) == CallOf(events[j])
  {
    StepAt(events, j);
    var i := OpenedBy(events[..j]);
    StepAt(events, j - 1);
  }

  lemma ChunkStep(s: Calls, e: Event)
    requires Next(s, e).Some? && e.body.LlmChunk?
    ensures s.open.Some? && s.open.value.call == e.body.call && s.open.value.streamed == Some(e.body.index)
  {
  }

  /** The event that brought a stream to where it is. */
  lemma StreamedStep(s: Calls, e: Event, index: nat)
    requires Next(s, e).Some? && Next(s, e).value.open.Some? && Next(s, e).value.open.value.streamed == Some(index)
    ensures var call := Next(s, e).value.open.value.call;
      e.body == if index == 0 then LlmFirstToken(call) else LlmChunk(call, index - 1)
  {
  }

  lemma ChunkAt(events: seq<Event>, k: nat)
    requires CallsOf(events).Some? && k < |events| && events[k].body.LlmChunk?
    ensures k > 0 && CallsOf(events[..k]).Some? && CallsOf(events[..k]).value.open.Some?
    ensures var o := CallsOf(events[..k]).value.open.value;
      o.call == events[k].body.call && o.streamed == Some(events[k].body.index)
  {
    StepAt(events, k);
    ChunkStep(CallsOf(events[..k]).value, events[k]);
  }

  /** A streamed reply is its first token and then chunks 0, 1, 2, … one after another. */
  lemma ChunksInOrder(events: seq<Event>, k: nat)
    requires CallsOf(events).Some? && k < |events| && events[k].body.LlmChunk?
    ensures k > 0
    ensures events[k - 1].body == if events[k].body.index == 0
                                  then LlmFirstToken(events[k].body.call)
                                  else LlmChunk(events[k].body.call, events[k].body.index - 1)
  {
    ChunkAt(events, k);
    StepAt(events, k - 1);
    StreamedStep(CallsOf(events[..k - 1]).value, events[k - 1], events[k].body.index);
  }
}
