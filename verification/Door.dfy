/**
 A proxy that is shut and opened while its threads run (scripts/e2e-agent-outbox.py, `Door`, `pump`,
 `hang_up`): the acceptor, the controller and the pumps as one machine, stepping in any order.
 */
module Doors {
  import opened Wrappers

  type Socket = nat

  datatype Owner = Nobody | Acceptor | Controller

  /** Where the acceptor's loop is. */
  datatype Accepting =
    | Waiting
    | Holding(client: Socket)
    | Checking(client: Socket)
    | Connecting(client: Socket)
    | Joining(client: Socket, upstream: Socket)
    | Leaving(pair: Option<(Socket, Socket)>)
    | Spawning(client: Socket, upstream: Socket)
    | SpawningSecond(client: Socket, upstream: Socket)
    | Ended

  /** Where the script that shuts and opens the door is. */
  datatype Controlling =
    | Idle
    | Shutting
    | Swapped(batch: seq<Socket>)
    | HangingUp(batch: seq<Socket>)
    | Opening

  datatype Phase = Reading | Carrying | HangingSource | HangingSink | Done

  datatype Pump = Pump(source: Socket, sink: Socket, phase: Phase)

  datatype State = State(
    listening: bool, isOpen: bool, live: seq<Socket>, lock: Owner,
    accepting: Accepting, controlling: Controlling, pumps: seq<Pump>,
    closed: set<Socket>, admitted: set<Socket>, forwarded: nat)

  function Start(): State {
    State(true, true, [], Nobody, Waiting, Idle, [], {}, {}, 0)
  }

  datatype Action =
    | Accept(client: Socket) | AcceptorLocks | Check | Connect(upstream: Socket) | ConnectFails | Admit
    | AcceptorUnlocks | Spawn | ListenerGone
    | ShutLocks | Swap | ShutUnlocks | HangUpNext | ShutReturns | OpenLocks | OpenUnlocks | CloseListener
    | Receive(pump: nat) | EndOfInput(pump: nat) | Send(pump: nat) | SendFails(pump: nat) | HangUp(pump: nat)

  // ── One step of each thread ────────────────────────────────────────────────

  function AcceptorStep(s: State, a: Action): Option<State> {
    match a
    case Accept(client) =>
      if s.accepting == Waiting && s.listening && client !in s.closed && client !in s.admitted
        then Some(s.(accepting := Holding(client))) else None
    case ListenerGone =>
      if s.accepting == Waiting && !s.listening then Some(s.(accepting := Ended)) else None
    case AcceptorLocks =>
      if s.accepting.Holding? && s.lock == Nobody
        then Some(s.(lock := Acceptor, accepting := Checking(s.accepting.client))) else None
    case Check =>
      if !s.accepting.Checking? then None
      else if s.isOpen then Some(s.(accepting := Connecting(s.accepting.client)))
      else Some(s.(closed := s.closed + {s.accepting.client}, accepting := Leaving(None)))
    case Connect(upstream) =>
      if s.accepting.Connecting? && upstream != s.accepting.client && upstream !in s.closed && upstream !in s.admitted
        then Some(s.(accepting := Joining(s.accepting.client, upstream))) else None
    case ConnectFails =>
      if s.accepting.Connecting?
        then Some(s.(closed := s.closed + {s.accepting.client}, accepting := Leaving(None))) else None
    case Admit =>
      if !s.accepting.Joining? then None
      else
        var client, upstream := s.accepting.client, s.accepting.upstream;
        Some(s.(live := s.live + [client, upstream], admitted := s.admitted + {client, upstream},
                accepting := Leaving(Some((client, upstream)))))
    case AcceptorUnlocks =>
      if !s.accepting.Leaving? then None
      else
        var next := match s.accepting.pair { case None => Waiting case Some(p) => Spawning(p.0, p.1) };
        Some(s.(lock := Nobody, accepting := next))
    case Spawn =>
      if s.accepting.Spawning? then
        Some(s.(pumps := s.pumps + [Pump(s.accepting.client, s.accepting.upstream, Reading)],
                accepting := SpawningSecond(s.accepting.client, s.accepting.upstream)))
      else if s.accepting.SpawningSecond? then
        Some(s.(pumps := s.pumps + [Pump(s.accepting.upstream, s.accepting.client, Reading)], accepting := Waiting))
      else None
    case _ => None
  }

  function ControllerStep(s: State, a: Action): Option<State> {
    match a
    case ShutLocks =>
      if s.controlling == Idle && s.lock == Nobody then Some(s.(lock := Controller, controlling := Shutting)) else None
    case Swap =>
      if s.controlling == Shutting then Some(s.(isOpen := false, live := [], controlling := Swapped(s.live))) else None
    case ShutUnlocks =>
      if s.controlling.Swapped?
        then Some(s.(lock := Nobody, controlling := HangingUp(s.controlling.batch))) else None
    case HangUpNext =>
      if s.controlling.HangingUp? && s.controlling.batch != []
        then Some(s.(closed := s.closed + {s.controlling.batch[0]}, controlling := HangingUp(s.controlling.batch[1..])))
        else None
    case ShutReturns =>
      if s.controlling == HangingUp([]) then Some(s.(controlling := Idle)) else None
    case OpenLocks =>
      if s.controlling == Idle && s.lock == Nobody then Some(s.(lock := Controller, controlling := Opening)) else None
    case OpenUnlocks =>
      if s.controlling == Opening then Some(s.(isOpen := true, lock := Nobody, controlling := Idle)) else None
    case CloseListener =>
      if s.controlling == Idle then Some(s.(listening := false)) else None
    case _ => None
  }

  /** A pump reads and writes only on sockets nobody has hung up, and hangs up both of its own when it ends. */
  function PumpStep(p: Pump, a: Action, closed: set<Socket>): Option<Phase> {
    match a
    case Receive(_) => if p.phase == Reading && p.source !in closed then Some(Carrying) else None
    case EndOfInput(_) => if p.phase == Reading then Some(HangingSource) else None
    case Send(_) => if p.phase == Carrying && p.sink !in closed then Some(Reading) else None
    case SendFails(_) => if p.phase == Carrying then Some(HangingSource) else None
    case HangUp(_) =>
      if p.phase == HangingSource then Some(HangingSink) else if p.phase == HangingSink then Some(Done) else None
    case _ => None
  }

  function PumpsStep(s: State, a: Action, i: nat): Option<State> {
    if i >= |s.pumps| then None
    else
      var p := s.pumps[i];
      match PumpStep(p, a, s.closed)
      case None => None
      case Some(phase) =>
        var hungUp := if !a.HangUp? then {} else if p.phase == HangingSource then {p.source} else {p.sink};
        Some(s.(pumps := s.pumps[i := p.(phase := phase)], closed := s.closed + hungUp,
                forwarded := s.forwarded + if a.Send? then 1 else 0))
  }

  predicate OfPump(a: Action) { a.Receive? || a.EndOfInput? || a.Send? || a.SendFails? || a.HangUp? }

  predicate OfController(a: Action) {
    || a.ShutLocks? || a.Swap? || a.ShutUnlocks? || a.HangUpNext? || a.ShutReturns?
    || a.OpenLocks? || a.OpenUnlocks? || a.CloseListener?
  }

  /** A step of whichever thread the action is of; none where the thread is not at that point. */
  function Next(s: State, a: Action): Option<State> {
    if OfPump(a) then PumpsStep(s, a, a.pump)
    else if OfController(a) then ControllerStep(s, a)
    else AcceptorStep(s, a)
  }

  /** Any interleaving: the steps in the order they happened. */
  function Run(s: State, actions: seq<Action>): Option<State> {
    if actions == [] then Some(s)
    else
      match Run(s, actions[..|actions| - 1])
      case None => None
      case Some(t) => Next(t, actions[|actions| - 1])
  }

  lemma {:induction false} RunInTwo(s: State, before: seq<Action>, after: seq<Action>)
    requires Run(s, before).Some?
    ensures Run(s, before + after) == Run(Run(s, before).value, after)
  {
    if after == [] {
      assert before + after == before;
    } else {
      var init := after[..|after| - 1];
      RunInTwo(s, before, init);
      assert (before + after)[..|before + after| - 1] == before + init;
    }
  }

  lemma OneStep(s: State, a: Action)
    ensures Run(s, [a]) == Next(s, a)
  {
    assert [a][..0] == [];
  }

  lemma OneMore(s: State, before: seq<Action>, a: Action)
    requires Run(s, before).Some?
    ensures Run(s, before + [a]) == Next(Run(s, before).value, a)
  {
    RunInTwo(s, before, [a]);
    OneStep(Run(s, before).value, a);
  }

  // ── What every interleaving keeps ──────────────────────────────────────────

  function Batch(c: Controlling): seq<Socket> {
    if c.Swapped? || c.HangingUp? then c.batch else []
  }

  predicate AcceptorInside(c: Accepting) { c.Checking? || c.Connecting? || c.Joining? || c.Leaving? }

  predicate ControllerInside(c: Controlling) { c.Shutting? || c.Swapped? || c.Opening? }

  /** The lock is held by the thread that is between taking it and giving it back. */
  predicate Locked(s: State) {
    && (s.lock == Acceptor <==> AcceptorInside(s.accepting))
    && (s.lock == Controller <==> ControllerInside(s.controlling))
  }

  /** A socket that was admitted and not hung up is in `_live`, or in the batch `shut` is hanging up. */
  ghost predicate Tracked(s: State) {
    forall x :: x in s.admitted ==> x in s.closed || x in s.live || x in Batch(s.controlling)
  }

  /** The pumps, and those about to be started, are on admitted sockets. */
  ghost predicate PumpsAdmitted(s: State) {
    && (forall i :: 0 <= i < |s.pumps| ==> s.pumps[i].source in s.admitted && s.pumps[i].sink in s.admitted)
    && (s.accepting.Leaving? && s.accepting.pair.Some? ==>
          s.accepting.pair.value.0 in s.admitted && s.accepting.pair.value.1 in s.admitted)
    && (s.accepting.Spawning? || s.accepting.SpawningSecond? ==>
          s.accepting.client in s.admitted && s.accepting.upstream in s.admitted)
  }

  /** Nothing is admitted while the door is shut. */
  ghost predicate ShutIsEmpty(s: State) {
    && (s.accepting.Connecting? || s.accepting.Joining? ==> s.isOpen)
    && (!s.isOpen ==> s.live == [])
    && (s.controlling.Swapped? || s.controlling.HangingUp? ==> !s.isOpen)
  }

  ghost predicate Safe(s: State) {
    Locked(s) && Tracked(s) && PumpsAdmitted(s) && ShutIsEmpty(s)
  }

  lemma AcceptorKeepsSafe(s: State, a: Action)
    requires Safe(s) && AcceptorStep(s, a).Some?
    ensures Safe(AcceptorStep(s, a).value)
  {
  }

  lemma ControllerKeepsSafe(s: State, a: Action)
    requires Safe(s) && ControllerStep(s, a).Some?
    ensures Safe(ControllerStep(s, a).value)
  {
    var t := ControllerStep(s, a).value;
    if a.HangUpNext? {
      assert forall x :: x in s.controlling.batch ==> x == s.controlling.batch[0] || x in t.controlling.batch;
    }
  }

  lemma PumpKeepsSafe(s: State, a: Action, i: nat)
    requires Safe(s) && PumpsStep(s, a, i).Some?
    ensures Safe(PumpsStep(s, a, i).value)
  {
  }

  lemma StepKeepsSafe(s: State, a: Action)
    requires Safe(s) && Next(s, a).Some?
    ensures Safe(Next(s, a).value)
  {
    if OfPump(a) {
      PumpKeepsSafe(s, a, a.pump);
    } else if OfController(a) {
      ControllerKeepsSafe(s, a);
    } else {
      AcceptorKeepsSafe(s, a);
    }
  }

  /** In every interleaving, every admitted socket that is not hung up is tracked, and the rest. */
  lemma {:induction false} EveryRunIsSafe(actions: seq<Action>)
    ensures var r := Run(Start(), actions); r.Some? ==> Safe(r.value)
  {
    if actions != [] {
      var init := actions[..|actions| - 1];
      EveryRunIsSafe(init);
      if Run(Start(), init).Some? && Next(Run(Start(), init).value, actions[|actions| - 1]).Some? {
        StepKeepsSafe(Run(Start(), init).value, actions[|actions| - 1]);
      }
    }
  }

  // ── Both ways ──────────────────────────────────────────────────────────────

  /** Of two pumps started for one client the second carries what the first one's sink sends back to its source. */
  ghost predicate Mirrored(pumps: seq<Pump>, k: int) {
    0 <= 2 * k && 2 * k + 1 < |pumps| ==>
      pumps[2 * k + 1].source == pumps[2 * k].sink && pumps[2 * k + 1].sink == pumps[2 * k].source
  }

  /** The pumps come in such pairs, but for a first one whose second is about to be started. */
  ghost predicate Paired(s: State) {
    && (forall k {:trigger Mirrored(s.pumps, k)} :: Mirrored(s.pumps, k))
    && (if s.accepting.SpawningSecond? then
          |s.pumps| % 2 == 1 && s.pumps[|s.pumps| - 1].source == s.accepting.client
          && s.pumps[|s.pumps| - 1].sink == s.accepting.upstream
        else |s.pumps| % 2 == 0)
  }

  lemma SpawnPairs(s: State)
    requires Paired(s) && AcceptorStep(s, Spawn).Some?
    ensures Paired(AcceptorStep(s, Spawn).value)
  {
    var t := AcceptorStep(s, Spawn).value;
    forall k
      ensures Mirrored(t.pumps, k)
    {
      assert Mirrored(s.pumps, k);
    }
  }

  lemma PumpKeepsPaired(s: State, a: Action, i: nat)
    requires Paired(s) && PumpsStep(s, a, i).Some?
    ensures Paired(PumpsStep(s, a, i).value)
  {
    var t := PumpsStep(s, a, i).value;
    assert forall j :: 0 <= j < |s.pumps| ==>
      t.pumps[j].source == s.pumps[j].source && t.pumps[j].sink == s.pumps[j].sink;
    forall k
      ensures Mirrored(t.pumps, k)
    {
      assert Mirrored(s.pumps, k);
    }
  }

  lemma StepKeepsPaired(s: State, a: Action)
    requires Paired(s) && Next(s, a).Some?
    ensures Paired(Next(s, a).value)
  {
    if OfPump(a) {
      PumpKeepsPaired(s, a, a.pump);
    } else if a.Spawn? {
      SpawnPairs(s);
    } else {
      assert Next(s, a).value.pumps == s.pumps;
    }
  }

  /** A socket some pump reads from, or is about to. */
  ghost predicate Read(s: State, x: Socket) {
    || (exists i :: 0 <= i < |s.pumps| && s.pumps[i].source == x)
    || (s.accepting.Leaving? && s.accepting.pair.Some?
        && (x == s.accepting.pair.value.0 || x == s.accepting.pair.value.1))
    || (s.accepting.Spawning? && (x == s.accepting.client || x == s.accepting.upstream))
    || (s.accepting.SpawningSecond? && x == s.accepting.upstream)
  }

  lemma SameReads(s: State, t: State, x: Socket)
    requires Read(s, x) && t.accepting == s.accepting && |t.pumps| == |s.pumps|
    requires forall i :: 0 <= i < |s.pumps| ==> t.pumps[i].source == s.pumps[i].source
    ensures Read(t, x)
  {
    if i :| 0 <= i < |s.pumps| && s.pumps[i].source == x {
      assert t.pumps[i].source == x;
    }
  }

  lemma AcceptorKeepsRead(s: State, a: Action, x: Socket)
    requires AcceptorStep(s, a).Some?
    requires Read(s, x) || (a.Admit? && x !in s.admitted && x in AcceptorStep(s, a).value.admitted)
    ensures Read(AcceptorStep(s, a).value, x)
  {
    var t := AcceptorStep(s, a).value;
    if i :| 0 <= i < |s.pumps| && s.pumps[i].source == x {
      assert t.pumps[i].source == x;
    } else if a.Spawn? {
      assert t.pumps[|s.pumps|] == t.pumps[|t.pumps| - 1];
    }
  }

  lemma StepKeepsRead(s: State, a: Action, x: Socket)
    requires Next(s, a).Some? && (Read(s, x) || (a.Admit? && x !in s.admitted && x in Next(s, a).value.admitted))
    ensures Read(Next(s, a).value, x)
  {
    if OfPump(a) || OfController(a) {
      SameReads(s, Next(s, a).value, x);
    } else {
      AcceptorKeepsRead(s, a, x);
    }
  }

  lemma AdmittedGrows(s: State, a: Action)
    requires Next(s, a).Some?
    ensures s.admitted <= Next(s, a).value.admitted
    ensures !a.Admit? ==> Next(s, a).value.admitted == s.admitted
  {
  }

  /**
   In every interleaving every client let in is joined to its upstream both ways: the pumps come in
   mirrored pairs, and every socket admitted is read by one, or is about to be.
   */
  lemma {:induction false} EveryRunPumpsBothWays(actions: seq<Action>)
    ensures var r := Run(Start(), actions);
      r.Some? ==> Paired(r.value) && forall x :: x in r.value.admitted ==> Read(r.value, x)
  {
    if actions == [] {
      assert forall k :: Mirrored([], k);
    } else {
      var init, a := actions[..|actions| - 1], actions[|actions| - 1];
      EveryRunPumpsBothWays(init);
      if Run(Start(), init).Some? && Next(Run(Start(), init).value, a).Some? {
        var s := Run(Start(), init).value;
        StepKeepsPaired(s, a);
        AdmittedGrows(s, a);
        forall x | x in Next(s, a).value.admitted
          ensures Read(Next(s, a).value, x)
        {
          StepKeepsRead(s, a, x);
        }
      }
    }
  }

  /** A pump that has ended has hung up both its sockets, the one it read first. */
  ghost predicate Wound(s: State) {
    forall i :: 0 <= i < |s.pumps| ==>
      && (s.pumps[i].phase == HangingSink || s.pumps[i].phase == Done ==> s.pumps[i].source in s.closed)
      && (s.pumps[i].phase == Done ==> s.pumps[i].sink in s.closed)
  }

  lemma StepKeepsWound(s: State, a: Action)
    requires Wound(s) && Next(s, a).Some?
    ensures Wound(Next(s, a).value)
    ensures s.closed <= Next(s, a).value.closed
  {
  }

  /** In every interleaving: so whichever end of a connection goes, the other is hung up too. */
  lemma {:induction false} EveryRunHangsUpBoth(actions: seq<Action>)
    ensures var r := Run(Start(), actions); r.Some? ==> Wound(r.value)
  {
    if actions != [] {
      var init, a := actions[..|actions| - 1], actions[|actions| - 1];
      EveryRunHangsUpBoth(init);
      if Run(Start(), init).Some? && Next(Run(Start(), init).value, a).Some? {
        StepKeepsWound(Run(Start(), init).value, a);
      }
    }
  }

  /** A pump whose source has ended gets there by itself, whatever the others have done to its sockets. */
  lemma PumpEnds(s: State, i: nat)
    requires i < |s.pumps| && s.pumps[i].phase == Reading
    ensures var r := Run(s, [EndOfInput(i), HangUp(i), HangUp(i)]);
      && r.Some? && r.value.pumps[i].phase == Done
      && r.value.closed == s.closed + {s.pumps[i].source} + {s.pumps[i].sink}
  {
    var first, second := [EndOfInput(i)], [EndOfInput(i), HangUp(i)];
    OneStep(s, EndOfInput(i));
    OneMore(s, first, HangUp(i));
    assert first + [HangUp(i)] == second;
    OneMore(s, second, HangUp(i));
    assert second + [HangUp(i)] == [EndOfInput(i), HangUp(i), HangUp(i)];
  }

  // ── From the return of shut to the next open ───────────────────────────────

  /** Shut, and everything ever let in hung up. */
  ghost predicate Sealed(s: State) {
    Safe(s) && !s.isOpen && !s.controlling.Opening? && s.admitted <= s.closed
  }

  /** When `shut` has returned the door is sealed. */
  lemma ShutSeals(s: State)
    requires Safe(s) && s.controlling == Idle && !s.isOpen
    ensures Sealed(s)
  {
  }

  lemma StepKeepsSealed(s: State, a: Action)
    requires Sealed(s) && Next(s, a).Some? && a != OpenLocks
    ensures Sealed(Next(s, a).value)
    ensures Next(s, a).value.forwarded == s.forwarded && Next(s, a).value.admitted == s.admitted
  {
    StepKeepsSafe(s, a);
    if OfPump(a) {
      var p := s.pumps[a.pump];
      assert p.sink in s.closed;
    }
  }

  lemma {:induction false} NothingPasses(s: State, actions: seq<Action>)
    requires Sealed(s) && Run(s, actions).Some? && OpenLocks !in actions
    ensures Sealed(Run(s, actions).value)
    ensures Run(s, actions).value.forwarded == s.forwarded && Run(s, actions).value.admitted == s.admitted
  {
    if actions != [] {
      var init := actions[..|actions| - 1];
      NothingPasses(s, init);
      assert actions[|actions| - 1] in actions;
      StepKeepsSealed(Run(s, init).value, actions[|actions| - 1]);
    }
  }

  /**
   Once `shut` has returned, and until `open` is called, whatever the threads do: every socket
   ever admitted is hung up, none is admitted, and no pump forwards another chunk.
   */
  lemma ShutDoorHolds(before: seq<Action>, after: seq<Action>)
    requires before != [] && before[|before| - 1] == ShutReturns && OpenLocks !in after
    requires Run(Start(), before + after).Some? && Run(Start(), before).Some?
    ensures var s, t := Run(Start(), before).value, Run(Start(), before + after).value;
      t.forwarded == s.forwarded && t.admitted == s.admitted && t.admitted <= t.closed
  {
    var init := before[..|before| - 1];
    EveryRunIsSafe(init);
    EveryRunIsSafe(before);
    assert Run(Start(), before) == Next(Run(Start(), init).value, ShutReturns);
    ShutSeals(Run(Start(), before).value);
    RunInTwo(Start(), before, after);
    NothingPasses(Run(Start(), before).value, after);
  }

  // ── The door's own methods, as the steps they take when nobody else moves ──

  function Repeat(a: Action, n: nat): seq<Action> { if n == 0 then [] else Repeat(a, n - 1) + [a] }

  function ShutActions(n: nat): seq<Action> {
    [ShutLocks, Swap, ShutUnlocks] + Repeat(HangUpNext, n) + [ShutReturns]
  }

  ghost function Members(s: seq<Socket>): set<Socket> { set x | x in s }

  lemma HungUpOne(s: State, batch: seq<Socket>)
    requires s.controlling == HangingUp(batch) && batch != []
    ensures Next(s, HangUpNext) == Some(s.(closed := s.closed + {batch[0]}, controlling := HangingUp(batch[1..])))
  {
  }

  lemma MembersGrow(batch: seq<Socket>, n: nat)
    requires 0 < n <= |batch|
    ensures Members(batch[..n]) == Members(batch[..n - 1]) + {batch[n - 1]}
    ensures batch[n - 1..][0] == batch[n - 1] && batch[n - 1..][1..] == batch[n..]
  {
    assert batch[..n] == batch[..n - 1] + [batch[n - 1]];
  }

  /** Where `shut` is when it has hung up the first `n` of its batch. */
  ghost function HungUp(s: State, batch: seq<Socket>, n: nat): State
    requires n <= |batch|
  {
    s.(closed := s.closed + Members(batch[..n]), controlling := HangingUp(batch[n..]))
  }

  lemma HungUpNext(s: State, batch: seq<Socket>, n: nat)
    requires 0 < n <= |batch|
    ensures Next(HungUp(s, batch, n - 1), HangUpNext) == Some(HungUp(s, batch, n))
  {
    MembersGrow(batch, n);
    HungUpOne(HungUp(s, batch, n - 1), batch[n - 1..]);
    assert s.closed + Members(batch[..n - 1]) + {batch[n - 1]} == s.closed + Members(batch[..n]);
  }

  lemma {:induction false} HangsUp(s: State, batch: seq<Socket>, n: nat)
    requires s.controlling == HangingUp(batch) && n <= |batch|
    ensures Run(s, Repeat(HangUpNext, n)) == Some(HungUp(s, batch, n))
  {
    if n == 0 {
      assert batch[0..] == batch && s.closed + Members(batch[..0]) == s.closed;
    } else {
      HangsUp(s, batch, n - 1);
      OneMore(s, Repeat(HangUpNext, n - 1), HangUpNext);
      HungUpNext(s, batch, n);
    }
  }

  lemma HangsUpAll(s: State, batch: seq<Socket>)
    requires s.controlling == HangingUp(batch)
    ensures Run(s, Repeat(HangUpNext, |batch|))
         == Some(s.(closed := s.closed + Members(batch), controlling := HangingUp([])))
  {
    HangsUp(s, batch, |batch|);
    assert batch[..|batch|] == batch && batch[|batch|..] == [];
  }

  lemma SwapsBatch(s: State)
    requires s.controlling == Idle && s.lock == Nobody
    ensures Run(s, [ShutLocks, Swap, ShutUnlocks])
         == Some(s.(isOpen := false, live := [], controlling := HangingUp(s.live)))
  {
    OneStep(s, ShutLocks);
    OneMore(s, [ShutLocks], Swap);
    assert [ShutLocks] + [Swap] == [ShutLocks, Swap];
    OneMore(s, [ShutLocks, Swap], ShutUnlocks);
    assert [ShutLocks, Swap] + [ShutUnlocks] == [ShutLocks, Swap, ShutUnlocks];
  }

  lemma Returned(s: State)
    requires s.controlling == HangingUp([])
    ensures Next(s, ShutReturns) == Some(s.(controlling := Idle))
  {
  }

  /** Left alone, `shut` comes to an end, with the door shut and everything that was live hung up. */
  lemma ShutFinishes(s: State)
    requires s.controlling == Idle && s.lock == Nobody
    ensures Run(s, ShutActions(|s.live|)) == Some(s.(isOpen := false, live := [], closed := s.closed + Members(s.live)))
  {
    var first, second := [ShutLocks, Swap, ShutUnlocks], Repeat(HangUpNext, |s.live|);
    SwapsBatch(s);
    var swapped := s.(isOpen := false, live := [], controlling := HangingUp(s.live));
    HangsUpAll(swapped, s.live);
    RunInTwo(s, first, second);
    OneMore(s, first + second, ShutReturns);
    Returned(swapped.(closed := s.closed + Members(s.live), controlling := HangingUp([])));
  }

  /** The object itself: the fields its methods assign, and the sockets they hung up. */
  class Door {
    var isOpen: bool
    var live: seq<Socket>
    var closed: set<Socket>

    /** What the machine's state says of the door. */
    ghost predicate Shows(s: State)
      reads this
    {
      s.isOpen == isOpen && s.live == live && s.closed == closed
    }

    constructor ()
      ensures Shows(Start())
    {
      isOpen, live, closed := true, [], {};
    }

    method HangUpAll(connections: seq<Socket>)
      modifies this`closed
      ensures closed == old(closed) + Members(connections)
    {
      for i := 0 to |connections|
        invariant closed == old(closed) + Members(connections[..i])
      {
        assert connections[..i + 1] == connections[..i] + [connections[i]];
        closed := closed + {connections[i]};
      }
      assert connections[..|connections|] == connections;
    }

    method Shut(ghost s: State) returns (ghost t: State)
      requires Shows(s) && s.controlling == Idle && s.lock == Nobody
      modifies this
      ensures Run(s, ShutActions(|s.live|)) == Some(t) && Shows(t)
      ensures !isOpen && live == [] && closed == old(closed) + Members(old(live))
    {
      isOpen := false;
      var batch := live;
      live := [];
      HangUpAll(batch);
      ShutFinishes(s);
      t := s.(isOpen := false, live := [], closed := s.closed + Members(s.live));
    }

    method Open(ghost s: State) returns (ghost t: State)
      requires Shows(s) && s.controlling == Idle && s.lock == Nobody
      modifies this`isOpen
      ensures Run(s, [OpenLocks, OpenUnlocks]) == Some(t) && Shows(t) && isOpen
    {
      isOpen := true;
      OneStep(s, OpenLocks);
      RunInTwo(s, [OpenLocks], [OpenUnlocks]);
      assert [OpenLocks] + [OpenUnlocks] == [OpenLocks, OpenUnlocks];
      OneStep(Run(s, [OpenLocks]).value, OpenUnlocks);
      t := s.(isOpen := true);
    }

    /** What `_accept` does under the lock with one client, given how connecting upstream turns out. */
    method Admit(client: Socket, upstream: Option<Socket>, ghost s: State) returns (admitted: bool, ghost t: State)
      requires Shows(s) && s.accepting == Checking(client)
      requires upstream.Some? ==>
        upstream.value != client && upstream.value !in s.closed && upstream.value !in s.admitted
      modifies this
      ensures Run(s, AdmitActions(isOpen, upstream)) == Some(t) && Shows(t)
      ensures admitted <==> isOpen && upstream.Some?
      ensures isOpen == old(isOpen)
      ensures live == old(live) + if admitted then [client, upstream.value] else []
      ensures closed == old(closed) + if admitted then {} else {client}
    {
      OneStep(s, Check);
      t := Next(s, Check).value;
      if !isOpen {
        HangUpAll([client]);
        assert Members([client]) == {client};
        return false, t;
      }
      if upstream.None? {
        HangUpAll([client]);
        assert Members([client]) == {client};
        RunInTwo(s, [Check], [ConnectFails]);
        assert [Check] + [ConnectFails] == [Check, ConnectFails];
        OneStep(t, ConnectFails);
        t := Next(t, ConnectFails).value;
        return false, t;
      }
      live := live + [client, upstream.value];
      RunInTwo(s, [Check], [Connect(upstream.value)]);
      assert [Check] + [Connect(upstream.value)] == [Check, Connect(upstream.value)];
      OneStep(t, Connect(upstream.value));
      t := Next(t, Connect(upstream.value)).value;
      RunInTwo(s, [Check, Connect(upstream.value)], [Action.Admit]);
      assert [Check, Connect(upstream.value)] + [Action.Admit] == [Check, Connect(upstream.value), Action.Admit];
      OneStep(t, Action.Admit);
      t := Next(t, Action.Admit).value;
      return true, t;
    }
  }

  function AdmitActions(isOpen: bool, upstream: Option<Socket>): seq<Action> {
    if !isOpen then [Check]
    else match upstream
      case None => [Check, ConnectFails]
      case Some(u) => [Check, Connect(u), Admit]
  }
}
