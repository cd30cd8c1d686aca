/**
 * The dynamic view-distance controller as the object the plugin holds: its
 * fields are updated in place, and the players' view distances are written on
 * the server. Every method is proved to compute the function of the same name
 * in ControllerModel, where the controller's promises are stated and proved.
 */
module Controller {
  import opened Wrappers
  import opened Host
  import M = ControllerModel

  class ViewDistanceController {
    const server: Server
    const minimumViewDistance: int := M.MinimumViewDistance
    const decreaseStepSize: int := M.DecreaseStepSize
    const increaseStepSize: int := M.IncreaseStepSize

    var desiredViewDistance: int
    var currentViewDistance: int
    var lastTickTime: nat
    var isDestroyed: bool
    var fixedViewDistances: map<Player, int>
    var lastKnownPositions: map<Player, M.LastKnownPosition>

    /** The controller's fields together with the server it drives. */
    ghost function State(): M.State
      reads this, server
    {
      M.State(desiredViewDistance, currentViewDistance, lastTickTime, isDestroyed,
              fixedViewDistances, lastKnownPositions, server.Snapshot())
    }

    /** The controller starts at the configured desired value; it is not checked
        against the minimum here, only by the setter. */
    constructor (server: Server, desiredViewDistance: int)
      ensures this.server == server
      ensures State() == M.Initial(server.Snapshot(), desiredViewDistance)
    {
      this.server := server;
      this.desiredViewDistance := desiredViewDistance;
      this.currentViewDistance := desiredViewDistance;
      lastTickTime := 0;
      isDestroyed := false;
      fixedViewDistances := map[];
      lastKnownPositions := map[];
    }

    /** The setter of `desiredViewDistance`. */
    method SetDesiredViewDistance(value: int) returns (thrown: Option<Failure>)
      modifies this
      ensures M.Outcome(State(), thrown) == M.SetDesired(old(State()), value)
      ensures thrown.None? ==> desiredViewDistance == value && currentViewDistance <= value
    {
      if value < minimumViewDistance {
        return Some(IllegalState("Check failed."));
      }
      desiredViewDistance := value;
      if currentViewDistance > value {
        currentViewDistance := value;
      }
      thrown := None;
    }

    method HeightenGracefully()
      modifies this
      ensures State() == M.HeightenGracefully(old(State()))
      ensures currentViewDistance <= desiredViewDistance
    {
      SetViewDistanceGracefully(M.Min(desiredViewDistance, currentViewDistance + increaseStepSize));
    }

    method LowerGracefully()
      modifies this
      ensures State() == M.LowerGracefully(old(State()))
      ensures currentViewDistance >= minimumViewDistance
    {
      SetViewDistanceGracefully(M.Max(minimumViewDistance, currentViewDistance - decreaseStepSize));
    }

    method LowerNow() returns (thrown: Option<Failure>)
      requires server.Valid()
      modifies this, server
      ensures M.Outcome(State(), thrown) == M.LowerNow(old(State()))
      ensures currentViewDistance >= minimumViewDistance
    {
      thrown := SetViewDistanceNow(M.Max(minimumViewDistance, currentViewDistance - decreaseStepSize));
    }

    /** Set the global value and push it at once to every online player that is not pinned. */
    method SetViewDistanceNow(target: int) returns (thrown: Option<Failure>)
      requires server.Valid()
      modifies this, server
      ensures M.Outcome(State(), thrown) == M.SetNow(old(State()), target)
      ensures currentViewDistance == target
    {
      if target == currentViewDistance {
        return None;
      }
      currentViewDistance := target;
      ghost var start := State();
      var players := server.online;
      var i := 0;
      while i < |players|
        invariant 0 <= i <= |players|
        invariant players == server.online && server.Valid()
        invariant currentViewDistance == target
        invariant M.ReconcileAll(start, players) == M.ReconcileAll(State(), players[i..])
      {
        assert players[i..][1..] == players[i + 1..];
        thrown := UpdateViewDistanceFor(players[i]);
        if thrown.Some? {
          return;
        }
        i := i + 1;
      }
      thrown := None;
    }

    /** Set the global value only; players follow through their own events or the sweep. */
    method SetViewDistanceGracefully(target: int)
      modifies this
      ensures State() == M.SetGracefully(old(State()), target)
      ensures currentViewDistance == target
    {
      if target == currentViewDistance {
        return;
      }
      currentViewDistance := target;
    }

    method UpdateViewDistanceFor(p: Player) returns (thrown: Option<Failure>)
      requires p in server.viewDistance
      modifies server
      ensures M.Outcome(State(), thrown) == M.UpdateFor(old(State()), p)
    {
      if p !in fixedViewDistances && server.viewDistance[p] != currentViewDistance {
        thrown := SetViewDistanceMuffled(p, currentViewDistance);
      } else {
        thrown := None;
      }
    }

    method SetFixedViewDistance(p: Player, value: int) returns (thrown: Option<Failure>)
      requires p in server.viewDistance
      modifies this, server
      ensures M.Outcome(State(), thrown) == M.SetFixed(old(State()), p, value)
      ensures fixedViewDistances == old(fixedViewDistances)[p := value]
    {
      fixedViewDistances := fixedViewDistances[p := value];
      thrown := SetViewDistanceMuffled(p, value);
    }

    method RemoveFixedViewDistance(p: Player) returns (thrown: Option<Failure>)
      requires p in server.viewDistance
      modifies this, server
      ensures M.Outcome(State(), thrown) == M.RemoveFixed(old(State()), p)
      ensures p !in fixedViewDistances
    {
      fixedViewDistances := fixedViewDistances - {p};
      thrown := SetViewDistanceMuffled(p, currentViewDistance);
    }

    /** The repeating task that records where players stand and reconciles the
        ones that have not moved for `StaleAfterTicks` server ticks. */
    method SweepStalePlayers(currentTick: int, movedFar: (Location, Location) -> bool)
      returns (thrown: Option<Failure>)
      requires server.Valid()
      modifies this, server
      ensures M.Outcome(State(), thrown) == M.Sweep(old(State()), currentTick, movedFar)
    {
      ghost var start := State();
      var players := server.online;
      var i := 0;
      while i < |players|
        invariant 0 <= i <= |players|
        invariant players == server.online && server.Valid()
        invariant M.SweepFrom(start, currentTick, movedFar, players)
                  == M.SweepFrom(State(), currentTick, movedFar, players[i..])
      {
        assert players[i..][1..] == players[i + 1..];
        thrown := VisitPlayer(players[i], currentTick, movedFar);
        if thrown.Some? {
          return;
        }
        i := i + 1;
      }
      thrown := None;
    }

    /** One player's turn in the sweep. */
    method VisitPlayer(p: Player, currentTick: int, movedFar: (Location, Location) -> bool)
      returns (thrown: Option<Failure>)
      requires p in server.viewDistance && p in server.location
      modifies this, server
      ensures M.Outcome(State(), thrown) == M.SweepVisit(old(State()), currentTick, movedFar, p)
    {
      var here := server.location[p];
      if p in lastKnownPositions && here.world != lastKnownPositions[p].location.world {
        return Some(DistanceAcrossWorlds(here, lastKnownPositions[p].location));
      }
      var lastKnownPosition: M.LastKnownPosition;
      if p !in lastKnownPositions || movedFar(here, lastKnownPositions[p].location) {
        lastKnownPosition := M.LastKnownPosition(here, currentTick);
        lastKnownPositions := lastKnownPositions[p := lastKnownPosition];
      } else {
        lastKnownPosition := lastKnownPositions[p];
      }
      if currentTick - lastKnownPosition.timestamp >= M.StaleAfterTicks {
        thrown := UpdateViewDistanceFor(p);
      } else {
        thrown := None;
      }
    }

    /** The fast repeating task: at most one decision every five minutes of wall-clock time. */
    method Tick(now: nat, fiveMinuteAverageTps: real) returns (thrown: Option<Failure>)
      requires now >= lastTickTime
      requires server.Valid()
      modifies this, server
      ensures M.Outcome(State(), thrown) == M.Tick(old(State()), now, fiveMinuteAverageTps)
    {
      if now - lastTickTime < M.UpdateInterval {
        return None;
      }
      thrown := None;
      if fiveMinuteAverageTps < 15.0 {
        thrown := SetViewDistanceNow(minimumViewDistance);
      } else if fiveMinuteAverageTps < 17.0 {
        thrown := LowerNow();
      } else if fiveMinuteAverageTps < 19.0 {
        LowerGracefully();
      } else if fiveMinuteAverageTps >= 19.9 {
        HeightenGracefully();
      }
      if thrown.Some? {
        return;
      }
      lastTickTime := now;
    }

    /** Milliseconds until the next decision, at wall-clock time `now`. */
    function TimeUntilNextUpdate(now: nat): (r: nat)
      reads this
      ensures now >= lastTickTime ==> (r == 0 <==> now - lastTickTime >= M.UpdateInterval)
    {
      M.TimeUntilNextUpdate(lastTickTime, now)
    }

    method Destroy()
      modifies this
      ensures State() == M.Destroy(old(State()))
    {
      isDestroyed := true;
    }

    /** The callback the join handler schedules for the next server tick. */
    method OnPlayerJoinCallback(p: Player) returns (thrown: Option<Failure>)
      requires p in server.viewDistance
      modifies server
      ensures M.Outcome(State(), thrown) == M.JoinCallback(old(State()), p)
    {
      if !isDestroyed {
        thrown := UpdateViewDistanceFor(p);
      } else {
        thrown := None;
      }
    }

    method SetViewDistanceMuffled(p: Player, distance: int) returns (thrown: Option<Failure>)
      requires p in server.viewDistance
      modifies server
      ensures M.Outcome(State(), thrown) == M.SetMuffled(old(State()), p, distance)
    {
      var e := server.SetViewDistance(p, distance);
      if e == Some(IllegalState(NotAttachedMessage)) {
        thrown := None;
      } else {
        thrown := e;
      }
    }
  }
}
