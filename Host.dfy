/**
 * The game server as the view-distance controller sees it: which players are
 * online, each player's server-side view distance, whether the player is
 * attached to a world, where the player stands, and which writes the server
 * would refuse for reasons other than "not attached".
 */
module Host {
  import opened Wrappers

  /** A player, known by its unique id. */
  datatype Player = Player(uuid: nat)

  /** A position in a world. The controller asks whether two of them are more
      than half a block apart; that question is a parameter, asked only of two
      locations in the same world (see `DistanceAcrossWorlds`). */
  datatype Location = Location(world: string, x: real, y: real, z: real)

  /** An exception thrown by the server: by a view-distance write, or by
      measuring the distance between two locations. */
  datatype Failure =
    | IllegalState(message: string)
    | IllegalArgument(message: string)
    | OtherError(message: string)

  /** The message of the exception the server throws for a player that is not
      yet attached to a world. */
  const NotAttachedMessage: string := "Player is not attached to world"

  /** `Location.distance` refuses two locations in different worlds with an
      `IllegalArgumentException` naming both worlds. */
  function DistanceAcrossWorlds(from: Location, to: Location): (f: Failure)
    ensures f.IllegalArgument? && f != IllegalState(NotAttachedMessage)
  {
    IllegalArgument("Cannot measure distance between " + from.world + " and " + to.world)
  }

  /** A snapshot of the server. `faults` names the players whose view-distance
      write would fail for another reason, and the exception it would throw. */
  datatype World = World(
    online: seq<Player>,
    viewDistance: map<Player, int>,
    attached: set<Player>,
    location: map<Player, Location>,
    faults: map<Player, Failure>)

  /** Every online player has a view distance and a location. */
  predicate WorldValid(w: World)
  {
    forall q | q in w.online :: q in w.viewDistance && q in w.location
  }

  /** A write of p's view distance would succeed. */
  predicate Writable(w: World, p: Player)
  {
    p in w.attached && p !in w.faults
  }

  /** The server's view-distance setter: a player not attached to a world is
      refused with `NotAttachedMessage`, a faulty player with its own failure;
      otherwise only p's view distance changes. */
  function Write(w: World, p: Player, d: int): (r: (World, Option<Failure>))
    requires p in w.viewDistance
    ensures r.0 == w.(viewDistance := r.0.viewDistance)
    ensures r.0.viewDistance.Keys == w.viewDistance.Keys
    ensures r.1.None? <==> Writable(w, p)
    ensures r.1.None? ==> r.0.viewDistance == w.viewDistance[p := d]
    ensures r.1.Some? ==> r.0 == w
  {
    if p !in w.attached then (w, Some(IllegalState(NotAttachedMessage)))
    else if p in w.faults then (w, Some(w.faults[p]))
    else (w.(viewDistance := w.viewDistance[p := d]), None)
  }

  class Server {
    var online: seq<Player>
    var viewDistance: map<Player, int>
    var attached: set<Player>
    var location: map<Player, Location>
    var faults: map<Player, Failure>

    function Snapshot(): (w: World)
      reads this
    {
      World(online, viewDistance, attached, location, faults)
    }

    predicate Valid()
      reads this
    {
      WorldValid(Snapshot())
    }

    /** `p.viewDistance = d` on the server. */
    method SetViewDistance(p: Player, d: int) returns (thrown: Option<Failure>)
      requires p in viewDistance
      modifies this
      ensures (Snapshot(), thrown) == Write(old(Snapshot()), p, d)
    {
      if p !in attached {
        thrown := Some(IllegalState(NotAttachedMessage));
      } else if p in faults {
        thrown := Some(faults[p]);
      } else {
        viewDistance := viewDistance[p := d];
        thrown := None;
      }
    }
  }
}
