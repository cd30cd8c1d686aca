/**
 * The administrative commands that drive the controller, as functions over
 * the controller's state, and the whole-system promise they keep together
 * with the controller's own periodic tasks: starting from the configured
 * desired value of 32, the global and desired view distances stay within
 * 2..32 whatever sequence of commands, ticks, sweeps and player events runs.
 */
module Commands {
  import opened Wrappers
  import opened Host
  import opened ControllerModel

  const MaximumViewDistance: int := 32
  /** The desired view distance the plugin constructs its controller with. */
  const ConfiguredDesiredViewDistance: int := 32

  const RangeMessage: string := "Please enter a distance between 2 and 32 chunks."

  /** What a command handler answers: done, refused before reaching the
      controller, or failed with an exception the controller let through. */
  datatype Reply = Done | Rejected(message: string) | Raised(failure: Failure)

  datatype Response = Response(after: State, reply: Reply)

  /** The range guard used for per-player values. */
  function CheckViewDistanceRaw(distance: int): (r: Option<string>)
    ensures r.Some? <==> distance < 2 || distance > 32
  {
    if distance < 2 || distance > 32 then Some(RangeMessage) else None
  }

  /** The range guard used for global values, with the controller's minimum as lower bound. */
  function CheckViewDistance(distance: int): (r: Option<string>)
    ensures r.Some? <==> distance < MinimumViewDistance || distance > MaximumViewDistance
    ensures r == CheckViewDistanceRaw(distance)
  {
    if distance < MinimumViewDistance || distance > MaximumViewDistance then Some(RangeMessage) else None
  }

  /** The global and desired view distances are both within 2..32. */
  predicate InRange(s: State)
  {
    MinimumViewDistance <= s.current <= MaximumViewDistance
    && MinimumViewDistance <= s.desired <= MaximumViewDistance
  }

  /** The reply to a command that reached the controller. */
  function ReplyTo(thrown: Option<Failure>): (r: Reply)
    ensures r == Done <==> thrown.None?
    ensures thrown.Some? ==> r == Raised(thrown.value)
  {
    if thrown.Some? then Raised(thrown.value) else Done
  }

  function Finish(o: Outcome): (r: Response)
    ensures r.after == o.after
    ensures r.reply == Done <==> o.thrown.None?
    ensures !r.reply.Rejected?
  {
    Response(o.after, ReplyTo(o.thrown))
  }

  /** `player set <distance> <target>`: pin a validated value. */
  function PlayerSet(s: State, distance: int, target: Player): (r: Response)
    requires target in s.world.viewDistance
    ensures r.reply.Rejected? <==> distance < 2 || distance > 32
    ensures r.reply.Rejected? ==> r.after == s
    ensures !r.reply.Rejected? ==> r.after.fixed == s.fixed[target := distance]
    ensures OnlyViewDistances(s.(fixed := r.after.fixed), r.after)
    ensures forall q | q in s.world.viewDistance && q != target ::
              r.after.world.viewDistance[q] == s.world.viewDistance[q]
    ensures !r.reply.Rejected? && Writable(s.world, target) ==> r.reply == Done && PinHeld(r.after, target)
    ensures r.after.current == s.current && r.after.desired == s.desired
  {
    match CheckViewDistanceRaw(distance)
    case Some(message) => Response(s, Rejected(message))
    case None => Finish(SetFixed(s, target, distance))
  }

  /** `player reset <target>`: unpin, with no validation. */
  function PlayerReset(s: State, target: Player): (r: Response)
    requires target in s.world.viewDistance
    ensures !r.reply.Rejected?
    ensures r.after.fixed == s.fixed - {target}
    ensures OnlyViewDistances(s.(fixed := r.after.fixed), r.after)
    ensures forall q | q in s.world.viewDistance && q != target ::
              r.after.world.viewDistance[q] == s.world.viewDistance[q]
    ensures Writable(s.world, target) ==> r.reply == Done && r.after.world.viewDistance[target] == s.current
    ensures r.after.current == s.current && r.after.desired == s.desired
  {
    Finish(RemoveFixed(s, target))
  }

  /** `global set <distance>`: a graceful change to a validated value. */
  function GlobalSet(s: State, distance: int): (r: Response)
    ensures r.reply.Rejected? <==> distance < MinimumViewDistance || distance > MaximumViewDistance
    ensures r.reply.Rejected? ==> r.after == s
    ensures !r.reply.Rejected? ==> r.reply == Done && r.after == s.(current := distance)
  {
    match CheckViewDistance(distance)
    case Some(message) => Response(s, Rejected(message))
    case None => Response(SetGracefully(s, distance), Done)
  }

  /** `global setnow <distance>`: an immediate change to a validated value. */
  function GlobalSetNow(s: State, distance: int): (r: Response)
    requires forall q | q in s.world.online :: q in s.world.viewDistance
    ensures r.reply.Rejected? <==> distance < MinimumViewDistance || distance > MaximumViewDistance
    ensures r.reply.Rejected? ==> r.after == s
    ensures !r.reply.Rejected? ==> r.after.current == distance
    ensures OnlyViewDistances(s.(current := r.after.current), r.after)
    ensures forall q | q in s.world.viewDistance && (q !in s.world.online || q in s.fixed) ::
              r.after.world.viewDistance[q] == s.world.viewDistance[q]
  {
    match CheckViewDistance(distance)
    case Some(message) => Response(s, Rejected(message))
    case None => Finish(SetNow(s, distance))
  }

  /** `global desired set <distance>`: a validated desired value, which the
      setter therefore never refuses. */
  function DesiredSet(s: State, distance: int): (r: Response)
    ensures r.reply.Rejected? <==> distance < MinimumViewDistance || distance > MaximumViewDistance
    ensures r.reply.Rejected? ==> r.after == s
    ensures !r.reply.Rejected? ==>
              r.reply == Done && r.after == s.(desired := distance, current := Min(s.current, distance))
  {
    match CheckViewDistance(distance)
    case Some(message) => Response(s, Rejected(message))
    case None => Finish(SetDesired(s, distance))
  }

  /** `global setnow` to a new value that ran to the end leaves every online,
      unpinned, writable player at that value. */
  lemma GlobalSetNowAligns(s: State, distance: int)
    requires forall q | q in s.world.online :: q in s.world.viewDistance
    requires distance != s.current
    ensures var r := GlobalSetNow(s, distance);
            r.reply == Done ==>
              forall q | q in s.world.online && q !in s.fixed && Writable(s.world, q) ::
                r.after.world.viewDistance[q] == distance
  {
    SetNowAligns(s, distance);
  }

  // ---------------------------------------------------------------------------
  // Any sequence of calls

  /** Everything that can run against the controller: the five mutating
      commands, the two repeating tasks, the player event handlers, the join
      callback, shutdown, and changes the server makes on its own (players
      joining, leaving, moving, attaching). Exceptions that escape a call are
      caught by the command framework or the scheduler; the state stays as the
      call left it. */
  datatype Call =
    | PlayerSetCommand(target: Player, distance: int)
    | PlayerResetCommand(target: Player)
    | GlobalSetCommand(distance: int)
    | GlobalSetNowCommand(distance: int)
    | DesiredSetCommand(distance: int)
    | TickTask(now: nat, fiveMinuteAverageTps: real)
    | SweepTask(currentTick: int, movedFar: (Location, Location) -> bool)
    | PlayerEvent(player: Player)
    | JoinCallbackTask(player: Player)
    | DestroyCall
    | ServerChange(world: World)

  /** The call can be made: its player exists, and the wall clock has not gone backwards. */
  predicate Enabled(s: State, c: Call)
  {
    match c
    case PlayerSetCommand(p, _) => p in s.world.viewDistance
    case PlayerResetCommand(p) => p in s.world.viewDistance
    case TickTask(now, _) => now >= s.lastTickTime
    case PlayerEvent(p) => p in s.world.viewDistance
    case JoinCallbackTask(p) => p in s.world.viewDistance
    case ServerChange(w) => WorldValid(w)
    case _ => true
  }

  function Apply(s: State, c: Call): (r: State)
    requires WorldValid(s.world) && Enabled(s, c)
    ensures WorldValid(r.world)
  {
    match c
    case PlayerSetCommand(p, d) => PlayerSet(s, d, p).after
    case PlayerResetCommand(p) => PlayerReset(s, p).after
    case GlobalSetCommand(d) => GlobalSet(s, d).after
    case GlobalSetNowCommand(d) => GlobalSetNow(s, d).after
    case DesiredSetCommand(d) => DesiredSet(s, d).after
    case TickTask(now, tps) => Tick(s, now, tps).after
    case SweepTask(tick, movedFar) => Sweep(s, tick, movedFar).after
    case PlayerEvent(p) => UpdateFor(s, p).after
    case JoinCallbackTask(p) => JoinCallback(s, p).after
    case DestroyCall => Destroy(s)
    case ServerChange(w) => s.(world := w)
  }

  /** Every call of the sequence can be made in the state the calls before it left. */
  predicate Admissible(s: State, calls: seq<Call>)
    requires WorldValid(s.world)
    decreases |calls|
  {
    calls == [] || (Enabled(s, calls[0]) && Admissible(Apply(s, calls[0]), calls[1..]))
  }

  function Run(s: State, calls: seq<Call>): State
    requires WorldValid(s.world) && Admissible(s, calls)
    decreases |calls|
  {
    if calls == [] then s else Run(Apply(s, calls[0]), calls[1..])
  }

  /** Every single call keeps the global and desired values within 2..32. */
  lemma ApplyStaysInRange(s: State, c: Call)
    requires WorldValid(s.world) && Enabled(s, c) && InRange(s)
    ensures InRange(Apply(s, c))
  {
    if c.TickTask? && c.now - s.lastTickTime >= UpdateInterval {
      assert Apply(s, c).current == DecisionTarget(Decide(c.fiveMinuteAverageTps), s);
    }
  }

  /** So does every sequence of calls. */
  lemma {:induction false} RunStaysInRange(s: State, calls: seq<Call>)
    requires WorldValid(s.world) && Admissible(s, calls) && InRange(s)
    ensures InRange(Run(s, calls))
    decreases |calls|
  {
    if calls != [] {
      ApplyStaysInRange(s, calls[0]);
      RunStaysInRange(Apply(s, calls[0]), calls[1..]);
    }
  }

  /** The plugin's controller, constructed with desired value 32, keeps
      2 <= current <= 32 and 2 <= desired <= 32 forever. */
  lemma PluginStaysInRange(w: World, calls: seq<Call>)
    requires WorldValid(w) && Admissible(Initial(w, ConfiguredDesiredViewDistance), calls)
    ensures InRange(Run(Initial(w, ConfiguredDesiredViewDistance), calls))
  {
    RunStaysInRange(Initial(w, ConfiguredDesiredViewDistance), calls);
  }

  /** The call may change p's pin or move p off its pinned value `pinned`: a
      command aimed at p, or a server change that drops p or gives it another
      view distance. */
  predicate Touches(c: Call, p: Player, pinned: int)
  {
    match c
    case PlayerSetCommand(q, _) => q == p
    case PlayerResetCommand(q) => q == p
    case ServerChange(w) => p !in w.viewDistance || w.viewDistance[p] != pinned
    case _ => false
  }

  /** A held pin survives every call that does not touch it. */
  lemma ApplyKeepsPin(s: State, c: Call, p: Player)
    requires WorldValid(s.world) && Enabled(s, c) && PinHeld(s, p) && !Touches(c, p, s.fixed[p])
    ensures PinHeld(Apply(s, c), p) && Apply(s, c).fixed[p] == s.fixed[p]
  {
    match c
    case PlayerEvent(q) =>
      if q == p {
        assert UpdateFor(s, q).after == s;
      }
    case JoinCallbackTask(q) =>
      if q == p {
        assert UpdateFor(s, q).after == s;
      }
    case _ =>
  }

  /** A held pin survives every sequence of calls that do not touch it. */
  lemma {:induction false} RunKeepsPin(s: State, calls: seq<Call>, p: Player)
    requires WorldValid(s.world) && Admissible(s, calls) && PinHeld(s, p)
    requires forall i | 0 <= i < |calls| :: !Touches(calls[i], p, s.fixed[p])
    ensures PinHeld(Run(s, calls), p) && Run(s, calls).fixed[p] == s.fixed[p]
    decreases |calls|
  {
    if calls != [] {
      ApplyKeepsPin(s, calls[0], p);
      RunKeepsPin(Apply(s, calls[0]), calls[1..], p);
    }
  }

  /** The global set commands do not clamp to `desired`, so the global value can
      end above it; the next graceful raise then lowers it to `desired`. */
  lemma CurrentCanExceedDesired(s: State)
    requires WorldValid(s.world) && InRange(s)
    ensures Admissible(s, [DesiredSetCommand(10), GlobalSetNowCommand(20)])
    ensures var t := Run(s, [DesiredSetCommand(10), GlobalSetNowCommand(20)]);
            t.desired == 10 && t.current == 20 && HeightenGracefully(t).current == 10
  {
    var s1 := Apply(s, DesiredSetCommand(10));
    assert s1.desired == 10 && s1.current <= 10;
    var s2 := Apply(s1, GlobalSetNowCommand(20));
    assert [DesiredSetCommand(10), GlobalSetNowCommand(20)][1..] == [GlobalSetNowCommand(20)];
    assert Admissible(s2, []);
  }
}
