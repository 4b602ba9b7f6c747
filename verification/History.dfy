/** Runs over the last week, cut at "now" or in the middle (scripts/seed-dev.py, `history`). */
module Histories {
  import opened AgentRuns
  import opened AgentTrace
  import opened Digits
  import opened Timelines
  import Draws

  datatype Outcomes = Outcomes(succeeded: nat, failed: nat, running: nat)

  /** A run as it would have ended, the moments of its events, and as much of it as is published. */
  datatype Run = Run(id: string, cast: Cast, whole: seq<Event>, moments: seq<real>, kept: seq<Event>)

  function RunId(workflow: string, index: nat): string {
    "run-" + workflow + "-" + ZFill(Decimal(index), 4)
  }

  /**
   What is kept of a run at a moment: all of it up to then; or, of a run that is to look stalled, at
   least three of those events where there are as many, never the last two of more, and never the whole run.
   */
  ghost predicate CutAt(
    events: seq<Event>, moments: seq<real>, now: real, stalled: bool, kept: seq<Event>)
    requires |events| == |moments|
  {
    var all := Before(events, moments, now);
    if !stalled then kept == all
    else
      && kept <= all && kept != events
      && (if |all| <= 3 then kept == all else 3 <= |kept| && (|kept| == 3 || |kept| <= |all| - 2))
  }

  /**
   The whole of a run is complete, numbered and on a clock that never goes back; what is kept of it
   is a beginning.
   */
  ghost predicate Honest(run: Run, now: real, stalled: bool) {
    && (exists failed :: Complete(run.cast, run.id, run.whole, failed))
    && Numbered(run.whole)
    && |run.whole| == |run.moments| && Ascending(run.moments)
    && run.kept <= run.whole && CutAt(run.whole, run.moments, now, stalled, run.kept)
  }

  /** How `history` reads the end of what it kept. */
  function Verdict(kept: seq<Event>): Outcomes {
    if kept == [] then Outcomes(0, 0, 1)
    else match kept[|kept| - 1].body
      case RunCompleted => Outcomes(1, 0, 0)
      case RunFailed(_) => Outcomes(0, 1, 0)
      case _ => Outcomes(0, 0, 1)
  }

  function Add(a: Outcomes, b: Outcomes): Outcomes {
    Outcomes(a.succeeded + b.succeeded, a.failed + b.failed, a.running + b.running)
  }

  /** A run is counted as running exactly when something of it is missing, and otherwise as it ended. */
  lemma VerdictIsTruth(run: Run, failed: bool)
    requires Complete(run.cast, run.id, run.whole, failed) && run.kept <= run.whole
    ensures Verdict(run.kept) ==
      if run.kept != run.whole then Outcomes(0, 0, 1) else if failed then Outcomes(0, 1, 0) else Outcomes(1, 0, 0)
  {
    Enclosed(run.cast, run.id, run.whole, failed);
    if run.kept != [] {
      var last := |run.kept| - 1;
      assert run.kept[last] == run.whole[last];
      assert Terminal(run.whole[last]) <==> last == |run.whole| - 1;
      assert |run.kept| == |run.whole| <==> run.kept == run.whole;
    }
  }

  function Cut(runs: seq<Run>): nat {
    if runs == [] then 0
    else Cut(runs[..|runs| - 1]) + if runs[|runs| - 1].kept != runs[|runs| - 1].whole then 1 else 0
  }

  function Published(runs: seq<Run>): seq<Event> {
    if runs == [] then [] else Published(runs[..|runs| - 1]) + runs[|runs| - 1].kept
  }

  predicate Seedable(c: Catalogue, scenarios: seq<Scenario>) {
    && scenarios != [] && Sound(c)
    && forall s :: s in scenarios ==> CallsSomething(s) && forall a :: a in s.agents ==> Equipped(c, a)
  }

  /** One run on a fresh timeline, played to its end. */
  method Playout(c: Catalogue, scenario: Scenario, id: string, start: real)
    returns (events: seq<Event>, moments: seq<real>)
    requires Sound(c) && CallsSomething(scenario) && forall a :: a in scenario.agents ==> Equipped(c, a)
    ensures |events| == |moments| && Ascending(moments) && Numbered(events)
    ensures |events| >= 6 && Paced(c, NO_STEPS, events, moments) && moments[0] == start
    ensures exists failed :: Complete(CastOf(c, scenario), id, events, failed)
  {
    var tl := new Timeline(start);
    var outcome: Fate := *;
    ghost var trace, doomedCalls := AgentRun(c, tl, id, scenario, outcome);
    assert [] + trace == trace;
    assert Complete(CastOf(c, scenario), id, trace, outcome.Failing?);
    events, moments := tl.events, tl.moments;
  }

  /** Cut at `now`, and once more in the middle when the run is to look stalled. */
  method Keep(events: seq<Event>, moments: seq<real>, now: real, stalled: bool) returns (kept: seq<Event>)
    requires |events| == |moments| && Ascending(moments) && |events| >= 6
    ensures CutAt(events, moments, now, stalled, kept) && kept <= events
    ensures forall i :: 0 <= i < |kept| ==> moments[i] <= now
    ensures !stalled ==> forall i :: |kept| <= i < |events| ==> moments[i] > now
  {
    kept := Before(events, moments, now);
    BeforeIsPrefix(events, moments, now);
    if stalled {
      var most := if |kept| - 2 > 3 then |kept| - 2 else 3;
      var cut := Draws.Between(3, most);
      kept := if cut < |kept| then kept[..cut] else kept;
    }
  }

  /**
   Twenty minutes to two hours ago for a stalled run, seconds ago for the next seven, three minutes
   to a week for the rest.
   */
  predicate StartsFor(start: real, now: real, index: int) {
    if index < 5 then now - 7200.0 <= start <= now - 1200.0
    else if index < 12 then now - 40.0 <= start <= now - 2.0
    else now - 604800.0 <= start <= now - 180.0
  }

  method StartOf(now: real, index: nat) returns (start: real)
    ensures StartsFor(start, now, index)
  {
    var age;
    if index < 5 {
      age := Draws.Uniform(20.0, 120.0);
      age := 60.0 * age;
    } else if index < 12 {
      age := Draws.Uniform(2.0, 40.0);
    } else {
      age := Draws.Uniform(180.0, 604800.0);
    }
    start := now - age;
  }

  /** An honest run of some scenario, begun as long ago as its place asks, whose events keep their times. */
  ghost predicate SeededAt(run: Run, c: Catalogue, scenarios: seq<Scenario>, now: real, i: int) {
    && i >= 0 && Honest(run, now, i < 5) && Paced(c, NO_STEPS, run.whole, run.moments)
    && run.moments != [] && StartsFor(run.moments[0], now, i)
    && exists s :: s in scenarios && run.id == RunId(s.workflow, i) && run.cast == CastOf(c, s)
  }

  /** One run of some scenario, cut as its place in the history asks, and how it is counted. */
  method Seed(c: Catalogue, scenarios: seq<Scenario>, now: real, index: nat)
    returns (kept: seq<Event>, verdict: Outcomes, ghost run: Run)
    requires Seedable(c, scenarios)
    ensures SeededAt(run, c, scenarios, now, index) && run.kept == kept
    ensures verdict == Verdict(kept) && verdict.succeeded + verdict.failed + verdict.running == 1
    ensures verdict.running == if kept != run.whole then 1 else 0
  {
    var choice := Draws.Below(|scenarios|);
    var scenario := scenarios[choice];
    var start := StartOf(now, index);
    var id := RunId(scenario.workflow, index);
    var whole, moments := Playout(c, scenario, id, start);
    kept := Keep(whole, moments, now, index < 5);
    verdict := Verdict(kept);
    run := Run(id, CastOf(c, scenario), whole, moments, kept);
    ghost var failed :| Complete(run.cast, run.id, run.whole, failed);
    VerdictIsTruth(run, failed);
  }

  /** Every run of the list is an honest one of some scenario, numbered by its place. */
  ghost predicate Seeded(runs: seq<Run>, c: Catalogue, scenarios: seq<Scenario>, now: real) {
    forall i :: 0 <= i < |runs| ==> SeededAt(runs[i], c, scenarios, now, i)
  }

  lemma SeededOneMore(runs: seq<Run>, c: Catalogue, scenarios: seq<Scenario>, now: real, run: Run)
    requires Seeded(runs, c, scenarios, now) && SeededAt(run, c, scenarios, now, |runs|)
    ensures Seeded(runs + [run], c, scenarios, now)
  {
    var more := runs + [run];
    forall i | 0 <= i < |more|
      ensures SeededAt(more[i], c, scenarios, now, i)
    {
      if i < |runs| {
        assert more[i] == runs[i] && SeededAt(runs[i], c, scenarios, now, i);
      } else {
        assert more[i] == run && i == |runs|;
      }
    }
  }

  lemma PublishOneMore(runs: seq<Run>, run: Run)
    ensures Published(runs + [run]) == Published(runs) + run.kept
    ensures Cut(runs + [run]) == Cut(runs) + if run.kept != run.whole then 1 else 0
  {
    var more := runs + [run];
    assert more[..|more| - 1] == runs && more[|more| - 1] == run;
  }

  /**
   The events of `count` runs, each as it stands at `now`, and how many of them ended each way.
   The first five are stalled, and a stalled run is always counted as running.
   */
  method History(c: Catalogue, scenarios: seq<Scenario>, now: real, count: nat)
    returns (events: seq<Event>, outcomes: Outcomes, ghost runs: seq<Run>)
    requires Seedable(c, scenarios)
    ensures |runs| == count && Seeded(runs, c, scenarios, now) && events == Published(runs)
    ensures outcomes.running == Cut(runs)
    ensures outcomes.succeeded + outcomes.failed + outcomes.running == count
    ensures outcomes.running >= if count < 5 then count else 5
  {
    events, outcomes, runs := [], Outcomes(0, 0, 0), [];
    for index := 0 to count
      invariant |runs| == index && Seeded(runs, c, scenarios, now) && events == Published(runs)
      invariant outcomes.running == Cut(runs)
      invariant outcomes.succeeded + outcomes.failed + outcomes.running == index
      invariant outcomes.running >= if index < 5 then index else 5
    {
      var kept, verdict;
      ghost var run;
      kept, verdict, run := Seed(c, scenarios, now, index);
      SeededOneMore(runs, c, scenarios, now, run);
      PublishOneMore(runs, run);
      events := events + kept;
      outcomes := Add(outcomes, verdict);
      runs := runs + [run];
    }
  }

  /** Across the whole history no two published events carry the same id. */
  lemma IdsUnique(runs: seq<Run>, workflows: seq<string>, now: real, a: nat, i: nat, b: nat, j: nat)
    requires |workflows| == |runs| && a < |runs| && b < |runs|
    requires forall k :: 0 <= k < |runs| ==> Honest(runs[k], now, k < 5) && runs[k].id == RunId(workflows[k], k)
    requires i < |runs[a].kept| && j < |runs[b].kept| && (a != b || i < j)
    ensures EventId(runs[a].kept[i]) != EventId(runs[b].kept[j])
  {
    var x, y := runs[a].whole[i], runs[b].whole[j];
    var fa :| Complete(runs[a].cast, runs[a].id, runs[a].whole, fa);
    var fb :| Complete(runs[b].cast, runs[b].id, runs[b].whole, fb);
    Enclosed(runs[a].cast, runs[a].id, runs[a].whole, fa);
    Enclosed(runs[b].cast, runs[b].id, runs[b].whole, fb);
    if EventId(x) == EventId(y) {
      NumberedInjective(x.runId, x.sequence, y.runId, y.sequence);
      assert RunId(workflows[a], a) == RunId(workflows[b], b);
      PaddedInjective("run-" + workflows[a], a, "run-" + workflows[b], b, 4);
      EventIdsUnique(runs[a].whole, i, j);
    }
  }
}
