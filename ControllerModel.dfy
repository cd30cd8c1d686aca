/**
 * The dynamic view-distance controller as a state machine over values: every
 * operation of the controller is a function from the state before the call
 * to the state after it and the exception it let through, if any.
 * The class in Controller.dfy is proved to compute exactly these functions;
 * the lemmas here state what the controller promises.
 */
module ControllerModel {
  import opened Wrappers
  import opened Host

  const MinimumViewDistance: int := 2
  const DecreaseStepSize: int := 4
  const IncreaseStepSize: int := 4
  /** Five minutes, in milliseconds. */
  const UpdateInterval: nat := 1000 * 60 * 5
  /** Server ticks without movement after which a player is reconciled by the sweep. */
  const StaleAfterTicks: int := 200

  /** Where a player was last seen to stand, and the server tick at which it was recorded. */
  datatype LastKnownPosition = LastKnownPosition(location: Location, timestamp: int)

  datatype State = State(
    desired: int,
    current: int,
    lastTickTime: nat,
    destroyed: bool,
    fixed: map<Player, int>,
    known: map<Player, LastKnownPosition>,
    world: World)

  /** The state after an operation, and the exception that escaped it. */
  datatype Outcome = Outcome(after: State, thrown: Option<Failure>)

  function Min(a: int, b: int): (m: int) { if a <= b then a else b }

  function Max(a: int, b: int): (m: int) { if a >= b then a else b }

  /** t differs from s at most in the view distances of players the server already knew. */
  predicate OnlyViewDistances(s: State, t: State)
  {
    t == s.(world := s.world.(viewDistance := t.world.viewDistance))
    && t.world.viewDistance.Keys == s.world.viewDistance.Keys
  }

  /** A freshly constructed controller. */
  function Initial(w: World, desired: int): (s: State)
    ensures s.desired == desired && s.current == desired
    ensures s.lastTickTime == 0 && !s.destroyed
    ensures s.fixed == map[] && s.known == map[] && s.world == w
  {
    State(desired, desired, 0, false, map[], map[], w)
  }

  // ---------------------------------------------------------------------------
  // Step targets

  /** The target of a graceful raise: one step up, but never past `desired`. */
  function RaiseTarget(desired: int, current: int): (t: int)
    ensures t <= desired
    ensures t - current <= IncreaseStepSize
    ensures current <= desired ==> current <= t
    ensures current >= desired ==> t == desired
    ensures current + IncreaseStepSize <= desired ==> t == current + IncreaseStepSize
  {
    Min(desired, current + IncreaseStepSize)
  }

  /** The target of a lowering: one step down, but never under the minimum. */
  function LowerTarget(current: int): (t: int)
    ensures t >= MinimumViewDistance
    ensures current - t <= DecreaseStepSize
    ensures current >= MinimumViewDistance ==> t <= current
    ensures current - DecreaseStepSize >= MinimumViewDistance ==> t == current - DecreaseStepSize
    ensures current <= MinimumViewDistance ==> t == MinimumViewDistance
  {
    Max(MinimumViewDistance, current - DecreaseStepSize)
  }

  // ---------------------------------------------------------------------------
  // The global value

  /** The setter of `desiredViewDistance`: refused under the minimum; otherwise
      stores the value and pulls `current` down to it, touching no player. */
  function SetDesired(s: State, value: int): (r: Outcome)
    ensures r.thrown.Some? <==> value < MinimumViewDistance
    ensures r.thrown.Some? ==> r.after == s && r.thrown == Some(IllegalState("Check failed."))
    ensures r.thrown.None? ==> r.after.desired == value && r.after.current == Min(s.current, value)
    ensures r.after == s.(desired := r.after.desired, current := r.after.current)
  {
    if value < MinimumViewDistance then Outcome(s, Some(IllegalState("Check failed.")))
    else
      var current := if s.current > value then value else s.current;
      Outcome(s.(desired := value, current := current), None)
  }

  /** `setViewDistanceGracefully`: a new global value, with no player updated. */
  function SetGracefully(s: State, target: int): (r: State)
    ensures r.current == target
    ensures r == s.(current := r.current)
    ensures target == s.current ==> r == s
  {
    if target == s.current then s else s.(current := target)
  }

  function HeightenGracefully(s: State): (r: State)
    ensures r.current <= s.desired
    ensures r.current - s.current <= IncreaseStepSize
    ensures s.current <= s.desired ==> s.current <= r.current
    ensures s.current > s.desired ==> r.current == s.desired
    ensures r == s.(current := r.current)
  {
    SetGracefully(s, RaiseTarget(s.desired, s.current))
  }

  function LowerGracefully(s: State): (r: State)
    ensures r.current >= MinimumViewDistance
    ensures s.current - r.current <= DecreaseStepSize
    ensures s.current >= MinimumViewDistance ==> r.current <= s.current
    ensures r == s.(current := r.current)
  {
    SetGracefully(s, LowerTarget(s.current))
  }

  // ---------------------------------------------------------------------------
  // Per-player reconciliation

  /** `setViewDistanceMuffled`: write p's view distance, swallowing exactly the
      "not attached to world" failure; every other failure escapes. */
  function SetMuffled(s: State, p: Player, d: int): (r: Outcome)
    requires p in s.world.viewDistance
    ensures OnlyViewDistances(s, r.after)
    ensures forall q | q in s.world.viewDistance && q != p ::
              r.after.world.viewDistance[q] == s.world.viewDistance[q]
    ensures p !in s.world.attached ==> r == Outcome(s, None)
    ensures Writable(s.world, p) ==> r.thrown.None? && r.after.world.viewDistance[p] == d
    ensures p in s.world.attached && p in s.world.faults ==>
              r.after == s && (r.thrown.None? <==> s.world.faults[p] == IllegalState(NotAttachedMessage))
    ensures r.thrown.Some? ==> p in s.world.faults && r.thrown == Some(s.world.faults[p])
  {
    var (w, e) := Write(s.world, p, d);
    Outcome(s.(world := w), if e == Some(IllegalState(NotAttachedMessage)) then None else e)
  }

  /** `updateViewDistanceFor`: an unpinned player whose view distance differs
      from `current` is set to `current`; a pinned player is never touched. */
  function UpdateFor(s: State, p: Player): (r: Outcome)
    requires p in s.world.viewDistance
    ensures OnlyViewDistances(s, r.after)
    ensures forall q | q in s.world.viewDistance && q != p ::
              r.after.world.viewDistance[q] == s.world.viewDistance[q]
    ensures p in s.fixed || s.world.viewDistance[p] == s.current ==> r == Outcome(s, None)
    ensures p !in s.fixed && Writable(s.world, p) ==>
              r.thrown.None? && r.after.world.viewDistance[p] == s.current
    ensures r.thrown.Some? ==> r.after == s
  {
    if p !in s.fixed && s.world.viewDistance[p] != s.current then SetMuffled(s, p, s.current)
    else Outcome(s, None)
  }

  /** Reconciling a player twice is the same as reconciling it once. */
  lemma UpdateForIdempotent(s: State, p: Player)
    requires p in s.world.viewDistance
    ensures UpdateFor(UpdateFor(s, p).after, p) == UpdateFor(s, p)
  {
    var r := UpdateFor(s, p);
    if p !in s.fixed && s.world.viewDistance[p] != s.current && Writable(s.world, p) {
      assert r.after.world.viewDistance[p] == r.after.current;
    } else {
      assert r.after == s;
    }
  }

  /** `server.onlinePlayers.forEach { updateViewDistanceFor(it) }`; the first
      exception ends the pass. */
  function ReconcileAll(s: State, ps: seq<Player>): (r: Outcome)
    requires forall q | q in ps :: q in s.world.viewDistance
    ensures OnlyViewDistances(s, r.after)
    ensures forall q | q in s.world.viewDistance && (q !in ps || q in s.fixed) ::
              r.after.world.viewDistance[q] == s.world.viewDistance[q]
    decreases |ps|
  {
    if ps == [] then Outcome(s, None)
    else
      var r0 := UpdateFor(s, ps[0]);
      if r0.thrown.Some? then r0 else ReconcileAll(r0.after, ps[1..])
  }

  /** A pass that ran to the end leaves every unpinned, writable player it
      visited at the global value. */
  lemma {:induction false} ReconcileAllAligns(s: State, ps: seq<Player>)
    requires forall q | q in ps :: q in s.world.viewDistance
    ensures var r := ReconcileAll(s, ps);
            r.thrown.None? ==>
              forall q | q in ps && q !in s.fixed && Writable(s.world, q) ::
                r.after.world.viewDistance[q] == s.current
    decreases |ps|
  {
    if ps != [] {
      var r0 := UpdateFor(s, ps[0]);
      if r0.thrown.None? {
        ReconcileAllAligns(r0.after, ps[1..]);
        var r := ReconcileAll(r0.after, ps[1..]);
        assert r0.after.current == s.current && r0.after.fixed == s.fixed;
        assert r0.after.world.attached == s.world.attached && r0.after.world.faults == s.world.faults;
        forall q | r.thrown.None? && q in ps && q !in s.fixed && Writable(s.world, q)
          ensures r.after.world.viewDistance[q] == s.current
        {
          if q in ps[1..] {
            assert Writable(r0.after.world, q);
          } else {
            assert q == ps[0];
          }
        }
      }
    }
  }

  /** A pass ends with an exception only when some unpinned player it visited
      has a failure other than "not attached"; that failure is what escapes. */
  lemma {:induction false} ReconcileAllThrowsOnlyFaults(s: State, ps: seq<Player>)
    requires forall q | q in ps :: q in s.world.viewDistance
    ensures var r := ReconcileAll(s, ps);
            r.thrown.Some? ==>
              exists q | q in ps && q !in s.fixed && q in s.world.attached && q in s.world.faults ::
                s.world.faults[q] != IllegalState(NotAttachedMessage) && r.thrown == Some(s.world.faults[q])
    decreases |ps|
  {
    if ps != [] {
      var r0 := UpdateFor(s, ps[0]);
      if r0.thrown.Some? {
        var q := ps[0];
        assert q in ps && q !in s.fixed && q in s.world.attached && q in s.world.faults;
      } else {
        ReconcileAllThrowsOnlyFaults(r0.after, ps[1..]);
        var r := ReconcileAll(r0.after, ps[1..]);
        if r.thrown.Some? {
          var q :| q in ps[1..] && q !in r0.after.fixed && q in r0.after.world.attached
                   && q in r0.after.world.faults
                   && r0.after.world.faults[q] != IllegalState(NotAttachedMessage)
                   && r.thrown == Some(r0.after.world.faults[q]);
          assert q in ps;
        }
      }
    }
  }

  /** `setViewDistanceNow`: a new global value, pushed at once to every online
      player that is not pinned; nothing at all happens if the value is already current. */
  function SetNow(s: State, target: int): (r: Outcome)
    requires forall q | q in s.world.online :: q in s.world.viewDistance
    ensures target == s.current ==> r == Outcome(s, None)
    ensures r.after.current == target
    ensures OnlyViewDistances(s.(current := target), r.after)
    ensures forall q | q in s.world.viewDistance && (q !in s.world.online || q in s.fixed) ::
              r.after.world.viewDistance[q] == s.world.viewDistance[q]
  {
    if target == s.current then Outcome(s, None)
    else ReconcileAll(s.(current := target), s.world.online)
  }

  /** After an immediate change that ran to the end, every online, unpinned,
      writable player is at the new value. */
  lemma SetNowAligns(s: State, target: int)
    requires forall q | q in s.world.online :: q in s.world.viewDistance
    requires target != s.current
    ensures var r := SetNow(s, target);
            r.thrown.None? ==>
              forall q | q in s.world.online && q !in s.fixed && Writable(s.world, q) ::
                r.after.world.viewDistance[q] == target
  {
    ReconcileAllAligns(s.(current := target), s.world.online);
  }

  /** `lowerNow`: one step down, pushed at once to the online players. */
  function LowerNow(s: State): (r: Outcome)
    requires forall q | q in s.world.online :: q in s.world.viewDistance
    ensures r.after.current == LowerTarget(s.current)
    ensures OnlyViewDistances(s.(current := r.after.current), r.after)
    ensures forall q | q in s.world.viewDistance && (q !in s.world.online || q in s.fixed) ::
              r.after.world.viewDistance[q] == s.world.viewDistance[q]
  {
    SetNow(s, LowerTarget(s.current))
  }

  /** After an immediate lowering that ran to the end, every online, unpinned,
      writable player is at the lowered value. */
  lemma LowerNowAligns(s: State)
    requires forall q | q in s.world.online :: q in s.world.viewDistance
    requires LowerTarget(s.current) != s.current
    ensures var r := LowerNow(s);
            r.thrown.None? ==>
              forall q | q in s.world.online && q !in s.fixed && Writable(s.world, q) ::
                r.after.world.viewDistance[q] == LowerTarget(s.current)
  {
    SetNowAligns(s, LowerTarget(s.current));
  }

  /** `setFixedViewDistance`: pin p and write the pinned value. */
  function SetFixed(s: State, p: Player, value: int): (r: Outcome)
    requires p in s.world.viewDistance
    ensures r.after.fixed == s.fixed[p := value]
    ensures OnlyViewDistances(s.(fixed := r.after.fixed), r.after)
    ensures forall q | q in s.world.viewDistance && q != p ::
              r.after.world.viewDistance[q] == s.world.viewDistance[q]
    ensures Writable(s.world, p) ==> r.thrown.None? && r.after.world.viewDistance[p] == value
  {
    SetMuffled(s.(fixed := s.fixed[p := value]), p, value)
  }

  /** `removeFixedViewDistance`: unpin p and write the global value to it. */
  function RemoveFixed(s: State, p: Player): (r: Outcome)
    requires p in s.world.viewDistance
    ensures r.after.fixed == s.fixed - {p}
    ensures OnlyViewDistances(s.(fixed := r.after.fixed), r.after)
    ensures forall q | q in s.world.viewDistance && q != p ::
              r.after.world.viewDistance[q] == s.world.viewDistance[q]
    ensures Writable(s.world, p) ==> r.thrown.None? && r.after.world.viewDistance[p] == s.current
  {
    SetMuffled(s.(fixed := s.fixed - {p}), p, s.current)
  }

  /** p is pinned and stands at its pinned value. */
  predicate PinHeld(s: State, p: Player)
  {
    p in s.fixed && p in s.world.viewDistance && s.world.viewDistance[p] == s.fixed[p]
  }

  /** Pinning a writable player makes the pin hold. */
  lemma SetFixedHolds(s: State, p: Player, value: int)
    requires p in s.world.viewDistance && Writable(s.world, p)
    ensures PinHeld(SetFixed(s, p, value).after, p)
  {
  }

  // ---------------------------------------------------------------------------
  // The staleness sweep

  /** The sweep's visit of one player: record where it stands if it has no
      record or has moved, then reconcile it if its record is stale. Measuring
      how far a player moved fails when its record lies in another world; the
      exception leaves the record as it was. */
  function SweepVisit(s: State, tick: int, movedFar: (Location, Location) -> bool, p: Player): (r: Outcome)
    requires p in s.world.viewDistance && p in s.world.location
    ensures r.after == s.(known := r.after.known, world := s.world.(viewDistance := r.after.world.viewDistance))
    ensures r.after.world.viewDistance.Keys == s.world.viewDistance.Keys
    ensures r.after.known.Keys == s.known.Keys + {p}
    ensures forall q | q in s.known && q != p :: r.after.known[q] == s.known[q]
    ensures forall q | q in s.world.viewDistance && (q != p || q in s.fixed) ::
              r.after.world.viewDistance[q] == s.world.viewDistance[q]
    ensures p in s.known && s.world.location[p].world != s.known[p].location.world ==>
              r == Outcome(s, Some(DistanceAcrossWorlds(s.world.location[p], s.known[p].location)))
    ensures p !in s.known
            || (s.world.location[p].world == s.known[p].location.world
                && movedFar(s.world.location[p], s.known[p].location)) ==>
              r == Outcome(s.(known := s.known[p := LastKnownPosition(s.world.location[p], tick)]), None)
    ensures p in s.known && s.world.location[p].world == s.known[p].location.world
            && !movedFar(s.world.location[p], s.known[p].location) ==>
              r == if tick - s.known[p].timestamp >= StaleAfterTicks then UpdateFor(s, p) else Outcome(s, None)
  {
    var here := s.world.location[p];
    if p in s.known && here.world != s.known[p].location.world then
      Outcome(s, Some(DistanceAcrossWorlds(here, s.known[p].location)))
    else
      var s1 := if p !in s.known || movedFar(here, s.known[p].location)
                then s.(known := s.known[p := LastKnownPosition(here, tick)])
                else s;
      if tick - s1.known[p].timestamp >= StaleAfterTicks then UpdateFor(s1, p)
      else Outcome(s1, None)
  }

  /** The sweep's visit of each player in ps, in order; the first exception ends it. */
  function SweepFrom(s: State, tick: int, movedFar: (Location, Location) -> bool, ps: seq<Player>): (r: Outcome)
    requires forall q | q in ps :: q in s.world.viewDistance && q in s.world.location
    ensures r.after == s.(known := r.after.known, world := s.world.(viewDistance := r.after.world.viewDistance))
    ensures r.after.world.viewDistance.Keys == s.world.viewDistance.Keys
    ensures s.known.Keys <= r.after.known.Keys
    ensures forall q | q in s.known && q !in ps :: r.after.known[q] == s.known[q]
    ensures forall q | q in s.world.viewDistance && (q !in ps || q in s.fixed) ::
              r.after.world.viewDistance[q] == s.world.viewDistance[q]
    decreases |ps|
  {
    if ps == [] then Outcome(s, None)
    else
      var r0 := SweepVisit(s, tick, movedFar, ps[0]);
      if r0.thrown.Some? then r0 else SweepFrom(r0.after, tick, movedFar, ps[1..])
  }

  /** The sweep over all online players at server tick `tick`. */
  function Sweep(s: State, tick: int, movedFar: (Location, Location) -> bool): (r: Outcome)
    requires WorldValid(s.world)
    ensures r.after == s.(known := r.after.known, world := s.world.(viewDistance := r.after.world.viewDistance))
    ensures r.after.world.viewDistance.Keys == s.world.viewDistance.Keys
    ensures forall q | q in s.world.viewDistance && q in s.fixed ::
              r.after.world.viewDistance[q] == s.world.viewDistance[q]
  {
    SweepFrom(s, tick, movedFar, s.world.online)
  }

  /** A sweep that ran to the end has a record for every player it visited. */
  lemma {:induction false} SweepRecordsEveryone(s: State, tick: int, movedFar: (Location, Location) -> bool, ps: seq<Player>)
    requires forall q | q in ps :: q in s.world.viewDistance && q in s.world.location
    ensures var r := SweepFrom(s, tick, movedFar, ps);
            r.thrown.None? ==> forall q | q in ps :: q in r.after.known
    decreases |ps|
  {
    if ps != [] {
      var p := ps[0];
      var r0 := SweepVisit(s, tick, movedFar, p);
      if r0.thrown.None? {
        SweepRecordsEveryone(r0.after, tick, movedFar, ps[1..]);
      }
    }
  }

  /** A player seen for the first time, or seen to have moved (or already
      recorded at this very tick), is recorded at the current tick and is not
      reconciled in that pass. */
  lemma {:induction false} SweepRecordsMovers(s: State, tick: int, movedFar: (Location, Location) -> bool,
                                              ps: seq<Player>, q: Player)
    requires forall x | x in ps :: x in s.world.viewDistance && x in s.world.location
    requires q in ps
    requires q !in s.known || movedFar(s.world.location[q], s.known[q].location)
             || s.known[q] == LastKnownPosition(s.world.location[q], tick)
    ensures var r := SweepFrom(s, tick, movedFar, ps);
            r.after.world.viewDistance[q] == s.world.viewDistance[q]
            && (r.thrown.None? ==> q in r.after.known && r.after.known[q] == LastKnownPosition(s.world.location[q], tick))
    decreases |ps|
  {
    var p := ps[0];
    var r0 := SweepVisit(s, tick, movedFar, p);
    if p == q {
      if q in ps[1..] {
        SweepRecordsMovers(r0.after, tick, movedFar, ps[1..], q);
      }
    } else if r0.thrown.None? {
      SweepRecordsMovers(r0.after, tick, movedFar, ps[1..], q);
    }
  }

  /** A player whose record lies in another world than the one it stands in
      stops every sweep that reaches it: a sweep that ran to the end found
      every visited player's record in the player's own world. */
  lemma {:induction false} SweepHaltsAtWorldChange(s: State, tick: int, movedFar: (Location, Location) -> bool,
                                                   ps: seq<Player>)
    requires forall x | x in ps :: x in s.world.viewDistance && x in s.world.location
    ensures var r := SweepFrom(s, tick, movedFar, ps);
            r.thrown.None? ==>
              forall q | q in ps && q in s.known :: s.world.location[q].world == s.known[q].location.world
    decreases |ps|
  {
    if ps != [] {
      var p := ps[0];
      var r0 := SweepVisit(s, tick, movedFar, p);
      if r0.thrown.None? {
        SweepHaltsAtWorldChange(r0.after, tick, movedFar, ps[1..]);
        forall q | q in ps && q in s.known && q != p
          ensures r0.after.known[q] == s.known[q] && r0.after.world.location == s.world.location
        {
        }
      }
    }
  }

  /** An unmoved player whose record is at least `StaleAfterTicks` old is
      reconciled by a sweep that ran to the end, and a player already at the
      global value stays there. */
  lemma {:induction false} SweepReconcilesStale(s: State, tick: int, movedFar: (Location, Location) -> bool,
                                                ps: seq<Player>, q: Player)
    requires forall x | x in ps :: x in s.world.viewDistance && x in s.world.location
    requires q in s.world.viewDistance && q in s.world.location && q in s.known
    requires !movedFar(s.world.location[q], s.known[q].location)
    requires tick - s.known[q].timestamp >= StaleAfterTicks
    requires q !in s.fixed && Writable(s.world, q)
    requires q in ps || s.world.viewDistance[q] == s.current
    ensures var r := SweepFrom(s, tick, movedFar, ps);
            r.thrown.None? ==> r.after.world.viewDistance[q] == s.current
    decreases |ps|
  {
    if ps != [] {
      var p := ps[0];
      var r0 := SweepVisit(s, tick, movedFar, p);
      if r0.thrown.None? {
        if p == q {
          assert r0.after.world.viewDistance[q] == s.current;
        }
        SweepReconcilesStale(r0.after, tick, movedFar, ps[1..], q);
      }
    }
  }

  // ---------------------------------------------------------------------------
  // The periodic decision

  /** The branch of the decision table a five-minute TPS average selects. */
  datatype Decision = Emergency | LowerImmediately | LowerGently | Raise | Hold

  function Decide(tps: real): (d: Decision)
    ensures d == Emergency <==> tps < 15.0
    ensures d == LowerImmediately <==> 15.0 <= tps < 17.0
    ensures d == LowerGently <==> 17.0 <= tps < 19.0
    ensures d == Raise <==> tps >= 19.9
    ensures d == Hold <==> 19.0 <= tps < 19.9
  {
    if tps < 15.0 then Emergency
    else if tps < 17.0 then LowerImmediately
    else if tps < 19.0 then LowerGently
    else if tps >= 19.9 then Raise
    else Hold
  }

  /** The global value each branch of the decision table aims at. */
  function DecisionTarget(d: Decision, s: State): (t: int)
  {
    match d
    case Emergency => MinimumViewDistance
    case LowerImmediately => LowerTarget(s.current)
    case LowerGently => LowerTarget(s.current)
    case Raise => RaiseTarget(s.desired, s.current)
    case Hold => s.current
  }

  /** `tick`: nothing before five minutes have passed since the last decision;
      then one branch of the decision table, and the decision time is stamped
      unless an immediate change let an exception through. */
  function Tick(s: State, now: nat, tps: real): (r: Outcome)
    requires now >= s.lastTickTime
    requires forall q | q in s.world.online :: q in s.world.viewDistance
    ensures now - s.lastTickTime < UpdateInterval ==> r == Outcome(s, None)
    ensures now - s.lastTickTime >= UpdateInterval ==>
              r.after.current == DecisionTarget(Decide(tps), s)
              && r.after.lastTickTime == (if r.thrown.None? then now else s.lastTickTime)
    ensures r.after.desired == s.desired && r.after.fixed == s.fixed && r.after.known == s.known
    ensures r.after.destroyed == s.destroyed
    ensures r.after.world == s.world.(viewDistance := r.after.world.viewDistance)
    ensures r.after.world.viewDistance.Keys == s.world.viewDistance.Keys
    ensures Decide(tps) in {LowerGently, Raise, Hold} ==> r.thrown.None? && r.after.world == s.world
    ensures forall q | q in s.world.viewDistance && (q in s.fixed || q !in s.world.online) ::
              r.after.world.viewDistance[q] == s.world.viewDistance[q]
  {
    if now - s.lastTickTime < UpdateInterval then Outcome(s, None)
    else
      var r := match Decide(tps)
               case Emergency => SetNow(s, MinimumViewDistance)
               case LowerImmediately => LowerNow(s)
               case LowerGently => Outcome(LowerGracefully(s), None)
               case Raise => Outcome(HeightenGracefully(s), None)
               case Hold => Outcome(s, None);
      if r.thrown.Some? then r else Outcome(r.after.(lastTickTime := now), None)
  }

  /** A due tick with an average in [15, 17) that ran to the end lowers the
      global value by one step and pushes it to every online, unpinned,
      writable player, unless the value already was at the minimum. */
  lemma TickLowerNowAligns(s: State, now: nat, tps: real)
    requires now >= s.lastTickTime && now - s.lastTickTime >= UpdateInterval
    requires forall q | q in s.world.online :: q in s.world.viewDistance
    requires 15.0 <= tps < 17.0 && LowerTarget(s.current) != s.current
    ensures var r := Tick(s, now, tps);
            r.after.current == LowerTarget(s.current)
            && (r.thrown.None? ==>
                  forall q | q in s.world.online && q !in s.fixed && Writable(s.world, q) ::
                    r.after.world.viewDistance[q] == LowerTarget(s.current))
  {
    LowerNowAligns(s);
  }

  /** A due tick with an average under 15 that ran to the end drops the global
      value to the minimum and pushes it to every online, unpinned, writable
      player, unless the value already was the minimum. */
  lemma TickEmergencyAligns(s: State, now: nat, tps: real)
    requires now >= s.lastTickTime && now - s.lastTickTime >= UpdateInterval
    requires forall q | q in s.world.online :: q in s.world.viewDistance
    requires tps < 15.0 && s.current != MinimumViewDistance
    ensures var r := Tick(s, now, tps);
            r.after.current == MinimumViewDistance
            && (r.thrown.None? ==>
                  forall q | q in s.world.online && q !in s.fixed && Writable(s.world, q) ::
                    r.after.world.viewDistance[q] == MinimumViewDistance)
  {
    SetNowAligns(s, MinimumViewDistance);
  }

  /** `timeUntilNextUpdate` at wall-clock time `now`: zero exactly when the next
      tick would decide, and otherwise the time left until it does. */
  function TimeUntilNextUpdate(lastTickTime: nat, now: nat): (r: nat)
    ensures now >= lastTickTime ==> (r == 0 <==> now - lastTickTime >= UpdateInterval)
    ensures r > 0 ==> now + r == lastTickTime + UpdateInterval
  {
    Max(0, lastTickTime + UpdateInterval - now)
  }

  // ---------------------------------------------------------------------------
  // Lifecycle

  function Destroy(s: State): (r: State)
    ensures r.destroyed
    ensures r == s.(destroyed := r.destroyed)
  {
    s.(destroyed := true)
  }

  /** The join handler's delayed callback: it reconciles the player unless the
      controller was destroyed in the meantime. */
  function JoinCallback(s: State, p: Player): (r: Outcome)
    requires p in s.world.viewDistance
    ensures OnlyViewDistances(s, r.after)
    ensures s.destroyed ==> r == Outcome(s, None)
    ensures !s.destroyed && p !in s.fixed && Writable(s.world, p) ==>
              r.thrown.None? && r.after.world.viewDistance[p] == s.current
  {
    if s.destroyed then Outcome(s, None) else UpdateFor(s, p)
  }

  // ---------------------------------------------------------------------------
  // Convergence of repeated steps

  /** n graceful raises in a row. */
  function HeightenTimes(s: State, n: nat): (t: State)
    decreases n
  {
    if n == 0 then s else HeightenTimes(HeightenGracefully(s), n - 1)
  }

  /** Repeated graceful raises climb by one step at a time and stop at `desired`. */
  lemma {:induction false} HeightenTimesConverges(s: State, n: nat)
    requires s.current <= s.desired
    ensures HeightenTimes(s, n).current == Min(s.desired, s.current + n * IncreaseStepSize)
    ensures HeightenTimes(s, n) == s.(current := HeightenTimes(s, n).current)
    decreases n
  {
    if n > 0 {
      HeightenTimesConverges(HeightenGracefully(s), n - 1);
    }
  }

  /** n graceful lowerings in a row. */
  function LowerTimes(s: State, n: nat): (t: State)
    decreases n
  {
    if n == 0 then s else LowerTimes(LowerGracefully(s), n - 1)
  }

  /** Repeated graceful lowerings descend by one step at a time and stop at the minimum. */
  lemma {:induction false} LowerTimesConverges(s: State, n: nat)
    requires s.current >= MinimumViewDistance
    ensures LowerTimes(s, n).current == Max(MinimumViewDistance, s.current - n * DecreaseStepSize)
    ensures LowerTimes(s, n) == s.(current := LowerTimes(s, n).current)
    decreases n
  {
    if n > 0 {
      LowerTimesConverges(LowerGracefully(s), n - 1);
    }
  }
}
