# NinSmartDynamicViewDistance: the dynamic view-distance controller in Dafny

This project models the adaptive view-distance controller of the NinSmartDynamicViewDistance
server plugin and proves what it promises. The controller keeps two global values. `desired`
is the value the administrator asks for. `current` is the value actually pushed to players.
Once every five minutes it reads the five-minute average TPS and lowers or raises `current`.
It lowers "now", which pushes the new value at once to every online player that is not
pinned, in one pass that the first escaping exception ends, or "gracefully", which changes
only the global value. Players catch up one at a time, through
`updateViewDistanceFor`. That runs on join, on teleport and on inventory open, and from a
repeating sweep that reconciles players who have stood still for 200 server ticks. A player
can be pinned to a fixed value, which reconciliation never overrides. The administrative
commands validate their argument to 2..32 before calling the controller.

Files:

- `Wrappers.dfy`: `Option`, used for "which exception escaped, if any".
- `Host.dfy`: the server as the controller sees it. It holds the online players, each
  player's server-side view distance, who is attached to a world, where each player stands,
  and which writes fail. It has a value snapshot `World` and a `Server` class whose
  `SetViewDistance` throws as the server does.
- `ControllerModel.dfy`: the controller as a state machine over values. It has one function
  per operation, returning the new state and the escaped exception. The lemmas state the
  controller's promises.
- `Controller.dfy`: the class `ViewDistanceController`, with the Kotlin class's fields
  updated in place and its `forEach` loops as `while` loops. Every method is proved to
  compute the matching `ControllerModel` function.
- `Commands.dfy`: the range guards and the five mutating command handlers as functions. It
  also defines a `Call` for everything that can run against the controller and the `Run` of
  any sequence of calls. It proves that 2 <= current <= 32 and 2 <= desired <= 32 hold
  forever from the plugin's initial desired value of 32. It also proves that a pin survives
  every call except a command aimed at the pinned player and a server change that drops the
  player or gives it another view distance.
- `CommandHandlers.dfy`: the handlers as methods on the controller object. Each is proved
  to compute the matching `Commands` function and to keep the range.

How the model stands for things the controller only consumes:

- A player is an identity (`Player(uuid)`). A player object always has a view distance, so
  the operations on a player require it to be in the server's `viewDistance` map.
- Writing a player's view distance throws `IllegalState("Player is not attached to world")`
  for a player not attached to a world. For a player listed in `faults` it throws that
  player's failure. Otherwise it succeeds. `setViewDistanceMuffled` swallows exactly an
  `IllegalState` with that message, as the Kotlin `catch` with its message test does.
- An exception that escapes `updateViewDistanceFor` ends the enclosing `forEach` and
  propagates. The state stays as far as the loop got. In `tick` the exception also skips
  `lastTickTime = now`.
- "Moved more than 0.5 blocks" is a parameter `movedFar(current, recorded)`. It is asked only
  of two locations in the same world. For a record in another world, `Location.distance`
  throws `IllegalArgumentException("Cannot measure distance between <world> and <world>")`,
  which is the Bukkit API's behaviour. The record stays as it was and the exception ends the
  sweep (`ControllerModel.SweepHaltsAtWorldChange`).
- The TPS average is a `real` parameter. The wall clock in milliseconds and the server tick
  are parameters too.
- `check(value >= minimumViewDistance)` throws Kotlin's `IllegalStateException("Check failed.")`.

Behaviour of the code that the model keeps as written:

- Setting `desired` below `current` lowers `current` without reconciling any player.
- The sweep reconciles at 200 or more ticks since the record, not strictly more.
- Activity records and pins are never removed when a player leaves.
- `setViewDistanceNow` and `setViewDistanceGracefully` do not clamp. Through the global set
  commands `current` can end above `desired`, and the next graceful raise then lowers it to
  `desired` (`Commands.CurrentCanExceedDesired`).
- A failure other than "not attached" while reconciling one player aborts the rest of that
  pass. It is not contained per player. So does a sweep's distance check for a player whose
  record lies in another world; such a player stops every later sweep at the same place.

## Model

| member | source | states |
|---|---|---|
| `Host.Write` | src/main/kotlin/com/gitlab/martijn_heil/ninsmartdynamicviewdistance/DynamicViewDistanceController.kt:213-216 | the server's view-distance write succeeds exactly for an attached, non-faulty player, changes only that player's value, and otherwise changes nothing |
| `Host.Server.SetViewDistance` | src/main/kotlin/com/gitlab/martijn_heil/ninsmartdynamicviewdistance/DynamicViewDistanceController.kt:215 | the in-place write computes `Write` |
| `ControllerModel.Initial` | src/main/kotlin/com/gitlab/martijn_heil/ninsmartdynamicviewdistance/DynamicViewDistanceController.kt:40-72 | a new controller has current == desired == the constructor argument, no decision yet, not destroyed, no pins and no activity records |
| `ControllerModel.RaiseTarget` | src/main/kotlin/com/gitlab/martijn_heil/ninsmartdynamicviewdistance/DynamicViewDistanceController.kt:96-98 | the raise target never exceeds desired, rises at most 4, never falls when current <= desired, and is desired itself when current is at or above it |
| `ControllerModel.LowerTarget` | src/main/kotlin/com/gitlab/martijn_heil/ninsmartdynamicviewdistance/DynamicViewDistanceController.kt:100-106 | the lower target is never under 2, falls at most 4, never rises from a value >= 2, and is exactly current - 4 when that is >= 2 |
| `ControllerModel.SetDesired` | src/main/kotlin/com/gitlab/martijn_heil/ninsmartdynamicviewdistance/DynamicViewDistanceController.kt:51-60 | the setter throws "Check failed." exactly for a value under 2 and then changes nothing; otherwise desired == value, current == min(old current, value), and no player or map is touched |
| `ControllerModel.SetGracefully` | src/main/kotlin/com/gitlab/martijn_heil/ninsmartdynamicviewdistance/DynamicViewDistanceController.kt:117-123 | afterwards current == target and nothing else has changed; with target == current nothing changes at all |
| `ControllerModel.HeightenGracefully` | src/main/kotlin/com/gitlab/martijn_heil/ninsmartdynamicviewdistance/DynamicViewDistanceController.kt:96-98 | current ends <= desired, rises at most 4, does not fall when it was <= desired, drops to desired when it was above, and nothing else changes |
| `ControllerModel.LowerGracefully` | src/main/kotlin/com/gitlab/martijn_heil/ninsmartdynamicviewdistance/DynamicViewDistanceController.kt:100-102 | current ends >= 2, falls at most 4, does not rise from a value >= 2, and nothing else changes |
| `ControllerModel.SetMuffled` | src/main/kotlin/com/gitlab/martijn_heil/ninsmartdynamicviewdistance/DynamicViewDistanceController.kt:213-223 | a not-attached player is left unchanged with no exception; a writable player gets the value; any other failure leaves the state unchanged and escapes unless it is the not-attached message; only that player can change |
| `ControllerModel.UpdateFor` | src/main/kotlin/com/gitlab/martijn_heil/ninsmartdynamicviewdistance/DynamicViewDistanceController.kt:125-130 | a pinned player, or one already at current, is not touched; an unpinned writable player ends at current; no other player changes; a failure changes nothing |
| `ControllerModel.UpdateForIdempotent` | src/main/kotlin/com/gitlab/martijn_heil/ninsmartdynamicviewdistance/DynamicViewDistanceController.kt:125-130 | reconciling a player twice gives exactly the state and exception of reconciling once |
| `ControllerModel.ReconcileAll` | src/main/kotlin/com/gitlab/martijn_heil/ninsmartdynamicviewdistance/DynamicViewDistanceController.kt:114 | the reconciliation pass changes only view distances, and never those of pinned players or players it does not visit |
| `ControllerModel.ReconcileAllAligns` | src/main/kotlin/com/gitlab/martijn_heil/ninsmartdynamicviewdistance/DynamicViewDistanceController.kt:114 | a pass that ran to the end leaves every visited unpinned writable player at current |
| `ControllerModel.ReconcileAllThrowsOnlyFaults` | src/main/kotlin/com/gitlab/martijn_heil/ninsmartdynamicviewdistance/DynamicViewDistanceController.kt:114 | a pass ends in an exception only if a visited unpinned attached player has a failure other than not-attached, and that failure is the one that escapes |
| `ControllerModel.SetNow` | src/main/kotlin/com/gitlab/martijn_heil/ninsmartdynamicviewdistance/DynamicViewDistanceController.kt:108-115 | with target == current nothing happens; otherwise current == target, only view distances change, and pinned or offline players keep theirs |
| `ControllerModel.SetNowAligns` | src/main/kotlin/com/gitlab/martijn_heil/ninsmartdynamicviewdistance/DynamicViewDistanceController.kt:108-115 | after an immediate change that ran to the end, every online unpinned writable player is at the new value |
| `ControllerModel.LowerNow` | src/main/kotlin/com/gitlab/martijn_heil/ninsmartdynamicviewdistance/DynamicViewDistanceController.kt:104-106 | current ends at the lower target (>= 2, at most 4 below); otherwise only view distances change, and pinned or offline players keep theirs |
| `ControllerModel.LowerNowAligns` | src/main/kotlin/com/gitlab/martijn_heil/ninsmartdynamicviewdistance/DynamicViewDistanceController.kt:104-106 | after an immediate lowering that ran to the end, every online unpinned writable player is at the lowered value |
| `ControllerModel.SetFixed` | src/main/kotlin/com/gitlab/martijn_heil/ninsmartdynamicviewdistance/DynamicViewDistanceController.kt:132-135 | the pin table gains p -> value, only p's view distance can change, and a writable p ends at value |
| `ControllerModel.RemoveFixed` | src/main/kotlin/com/gitlab/martijn_heil/ninsmartdynamicviewdistance/DynamicViewDistanceController.kt:137-140 | p's pin is deleted, only p's view distance can change, and a writable p ends at current |
| `ControllerModel.SetFixedHolds` | src/main/kotlin/com/gitlab/martijn_heil/ninsmartdynamicviewdistance/DynamicViewDistanceController.kt:132-135 | pinning a writable player leaves the player pinned and at the pinned value |
| `ControllerModel.SweepVisit` | src/main/kotlin/com/gitlab/martijn_heil/ninsmartdynamicviewdistance/DynamicViewDistanceController.kt:146-157 | one visit of a player whose record lies in another world throws the distance exception and changes nothing; otherwise a player without a record, or one that moved, gets a record at this tick and no reconciliation, and an unmoved player is reconciled exactly when its record is >= 200 ticks old |
| `ControllerModel.SweepFrom` | src/main/kotlin/com/gitlab/martijn_heil/ninsmartdynamicviewdistance/DynamicViewDistanceController.kt:146-157 | the sweep changes only records and view distances, keeps every existing record key, and never touches pinned or unvisited players |
| `ControllerModel.Sweep` | src/main/kotlin/com/gitlab/martijn_heil/ninsmartdynamicviewdistance/DynamicViewDistanceController.kt:145-158 | the sweep over the online players changes only records and view distances, and never a pinned player's |
| `ControllerModel.SweepRecordsEveryone` | src/main/kotlin/com/gitlab/martijn_heil/ninsmartdynamicviewdistance/DynamicViewDistanceController.kt:146-152 | after a sweep that ran to the end every visited player has a record |
| `ControllerModel.SweepHaltsAtWorldChange` | src/main/kotlin/com/gitlab/martijn_heil/ninsmartdynamicviewdistance/DynamicViewDistanceController.kt:146-149 | a sweep that ran to the end found every visited player's record in the player's own world: a record in another world stops the sweep |
| `ControllerModel.SweepRecordsMovers` | src/main/kotlin/com/gitlab/martijn_heil/ninsmartdynamicviewdistance/DynamicViewDistanceController.kt:149-156 | a player with no record, or one that moved, gets a record stamped with this tick and is not reconciled in this pass |
| `ControllerModel.SweepReconcilesStale` | src/main/kotlin/com/gitlab/martijn_heil/ninsmartdynamicviewdistance/DynamicViewDistanceController.kt:154-156 | an unmoved, unpinned, writable player whose record is >= 200 ticks old ends at current after a sweep that ran to the end |
| `ControllerModel.Decide` | src/main/kotlin/com/gitlab/martijn_heil/ninsmartdynamicviewdistance/DynamicViewDistanceController.kt:173-200 | the decision table's priority order amounts to five disjoint bands: < 15 emergency, [15, 17) lower now, [17, 19) lower gracefully, >= 19.9 raise, [19, 19.9) nothing |
| `ControllerModel.Tick` | src/main/kotlin/com/gitlab/martijn_heil/ninsmartdynamicviewdistance/DynamicViewDistanceController.kt:165-203 | before five minutes nothing changes; after, current becomes the selected branch's target, lastTickTime becomes now unless an exception escaped, graceful branches touch no player, pinned and offline players keep their view distance, and desired, pins and records never change |
| `ControllerModel.TickLowerNowAligns` | src/main/kotlin/com/gitlab/martijn_heil/ninsmartdynamicviewdistance/DynamicViewDistanceController.kt:181-186 | a due tick with TPS in [15, 17) lowers current one step and, if it ran to the end and the step changed current, puts every online unpinned writable player at the new value |
| `ControllerModel.TickEmergencyAligns` | src/main/kotlin/com/gitlab/martijn_heil/ninsmartdynamicviewdistance/DynamicViewDistanceController.kt:174-180 | a due tick with TPS under 15 sets current to 2 and, if it ran to the end and current was not already 2, puts every online unpinned writable player at 2 |
| `ControllerModel.TimeUntilNextUpdate` | src/main/kotlin/com/gitlab/martijn_heil/ninsmartdynamicviewdistance/DynamicViewDistanceController.kt:205-206 | the wait is never negative, is zero exactly when the next tick decides, and otherwise ends at lastTickTime + 5 minutes |
| `ControllerModel.Destroy` | src/main/kotlin/com/gitlab/martijn_heil/ninsmartdynamicviewdistance/DynamicViewDistanceController.kt:208-211 | afterwards the controller is destroyed and nothing else has changed |
| `ControllerModel.JoinCallback` | src/main/kotlin/com/gitlab/martijn_heil/ninsmartdynamicviewdistance/DynamicViewDistanceController.kt:81-86 | after destroy the join callback does nothing; before it, an unpinned writable player ends at current |
| `ControllerModel.HeightenTimesConverges` | src/main/kotlin/com/gitlab/martijn_heil/ninsmartdynamicviewdistance/DynamicViewDistanceController.kt:96-98 | n graceful raises from current <= desired reach exactly min(desired, current + 4n), changing nothing else |
| `ControllerModel.LowerTimesConverges` | src/main/kotlin/com/gitlab/martijn_heil/ninsmartdynamicviewdistance/DynamicViewDistanceController.kt:100-102 | n graceful lowerings from current >= 2 reach exactly max(2, current - 4n), changing nothing else |
| `Controller.ViewDistanceController.constructor` | src/main/kotlin/com/gitlab/martijn_heil/ninsmartdynamicviewdistance/DynamicViewDistanceController.kt:40-72 | the new object's state is `Initial` |
| `Controller.ViewDistanceController.SetDesiredViewDistance` | src/main/kotlin/com/gitlab/martijn_heil/ninsmartdynamicviewdistance/DynamicViewDistanceController.kt:51-60 | computes `SetDesired` in place |
| `Controller.ViewDistanceController.HeightenGracefully` | src/main/kotlin/com/gitlab/martijn_heil/ninsmartdynamicviewdistance/DynamicViewDistanceController.kt:96-98 | computes `HeightenGracefully` in place; current ends <= desired |
| `Controller.ViewDistanceController.LowerGracefully` | src/main/kotlin/com/gitlab/martijn_heil/ninsmartdynamicviewdistance/DynamicViewDistanceController.kt:100-102 | computes `LowerGracefully` in place; current ends >= 2 |
| `Controller.ViewDistanceController.LowerNow` | src/main/kotlin/com/gitlab/martijn_heil/ninsmartdynamicviewdistance/DynamicViewDistanceController.kt:104-106 | computes `LowerNow` in place; current ends >= 2 |
| `Controller.ViewDistanceController.SetViewDistanceNow` | src/main/kotlin/com/gitlab/martijn_heil/ninsmartdynamicviewdistance/DynamicViewDistanceController.kt:108-115 | the loop over the online players computes `SetNow`, including where an exception stops it |
| `Controller.ViewDistanceController.SetViewDistanceGracefully` | src/main/kotlin/com/gitlab/martijn_heil/ninsmartdynamicviewdistance/DynamicViewDistanceController.kt:117-123 | computes `SetGracefully` in place |
| `Controller.ViewDistanceController.UpdateViewDistanceFor` | src/main/kotlin/com/gitlab/martijn_heil/ninsmartdynamicviewdistance/DynamicViewDistanceController.kt:125-130 | computes `UpdateFor` on the server |
| `Controller.ViewDistanceController.SetFixedViewDistance` | src/main/kotlin/com/gitlab/martijn_heil/ninsmartdynamicviewdistance/DynamicViewDistanceController.kt:132-135 | computes `SetFixed` in place |
| `Controller.ViewDistanceController.RemoveFixedViewDistance` | src/main/kotlin/com/gitlab/martijn_heil/ninsmartdynamicviewdistance/DynamicViewDistanceController.kt:137-140 | computes `RemoveFixed` in place |
| `Controller.ViewDistanceController.SweepStalePlayers` | src/main/kotlin/com/gitlab/martijn_heil/ninsmartdynamicviewdistance/DynamicViewDistanceController.kt:145-158 | the loop over the online players computes `Sweep`, including where an exception stops it |
| `Controller.ViewDistanceController.VisitPlayer` | src/main/kotlin/com/gitlab/martijn_heil/ninsmartdynamicviewdistance/DynamicViewDistanceController.kt:147-156 | one turn of the sweep computes `SweepVisit` in place |
| `Controller.ViewDistanceController.Tick` | src/main/kotlin/com/gitlab/martijn_heil/ninsmartdynamicviewdistance/DynamicViewDistanceController.kt:165-203 | the `when` over the TPS average, in its own priority order, computes `Tick`, which is stated over the disjoint bands of `Decide` |
| `Controller.ViewDistanceController.TimeUntilNextUpdate` | src/main/kotlin/com/gitlab/martijn_heil/ninsmartdynamicviewdistance/DynamicViewDistanceController.kt:205-206 | the getter is zero exactly when the next tick decides |
| `Controller.ViewDistanceController.Destroy` | src/main/kotlin/com/gitlab/martijn_heil/ninsmartdynamicviewdistance/DynamicViewDistanceController.kt:208-211 | computes `Destroy` in place |
| `Controller.ViewDistanceController.OnPlayerJoinCallback` | src/main/kotlin/com/gitlab/martijn_heil/ninsmartdynamicviewdistance/DynamicViewDistanceController.kt:83-85 | computes `JoinCallback`: nothing once destroyed |
| `Controller.ViewDistanceController.SetViewDistanceMuffled` | src/main/kotlin/com/gitlab/martijn_heil/ninsmartdynamicviewdistance/DynamicViewDistanceController.kt:213-223 | computes `SetMuffled` on the server |
| `Commands.CheckViewDistanceRaw` | src/main/kotlin/com/gitlab/martijn_heil/ninsmartdynamicviewdistance/Commands.kt:34-37 | rejects exactly when d < 2 or d > 32 |
| `Commands.CheckViewDistance` | src/main/kotlin/com/gitlab/martijn_heil/ninsmartdynamicviewdistance/Commands.kt:39-44 | rejects exactly when d < the controller's minimum or d > 32, and agrees with the raw check |
| `Commands.PlayerSet` | src/main/kotlin/com/gitlab/martijn_heil/ninsmartdynamicviewdistance/Commands.kt:84-89 | rejects exactly outside 2..32 and then changes nothing; otherwise pins the value, which holds for a writable player; only the pin table and the target's view distance can change |
| `Commands.PlayerReset` | src/main/kotlin/com/gitlab/martijn_heil/ninsmartdynamicviewdistance/Commands.kt:91-95 | never rejects; removes exactly the target's pin, puts a writable target at current, and changes nothing else but the target's view distance |
| `Commands.GlobalSet` | src/main/kotlin/com/gitlab/martijn_heil/ninsmartdynamicviewdistance/Commands.kt:105-110 | rejects exactly outside 2..32 and then changes nothing; otherwise only current changes, to the argument |
| `Commands.GlobalSetNow` | src/main/kotlin/com/gitlab/martijn_heil/ninsmartdynamicviewdistance/Commands.kt:112-117 | rejects exactly outside 2..32 and then changes nothing; otherwise current becomes the argument, only view distances change besides, and pinned or offline players keep theirs |
| `Commands.GlobalSetNowAligns` | src/main/kotlin/com/gitlab/martijn_heil/ninsmartdynamicviewdistance/Commands.kt:112-117 | `global setnow` to a new value that ran to the end puts every online unpinned writable player at that value |
| `Commands.DesiredSet` | src/main/kotlin/com/gitlab/martijn_heil/ninsmartdynamicviewdistance/Commands.kt:120-125 | rejects exactly outside 2..32 and then changes nothing; otherwise the state is the old one with desired set to the argument and current clamped to it, without an exception |
| `Commands.Apply` | src/main/kotlin/com/gitlab/martijn_heil/ninsmartdynamicviewdistance/DynamicViewDistanceController.kt:75-94 | every call keeps each online player with a view distance and a location |
| `Commands.ApplyStaysInRange` | src/main/kotlin/com/gitlab/martijn_heil/ninsmartdynamicviewdistance/Commands.kt:105-125 | every single command, tick, sweep, event, shutdown or server change keeps 2 <= current <= 32 and 2 <= desired <= 32 |
| `Commands.RunStaysInRange` | src/main/kotlin/com/gitlab/martijn_heil/ninsmartdynamicviewdistance/Commands.kt:105-125 | so does every sequence of calls |
| `Commands.PluginStaysInRange` | src/main/kotlin/com/gitlab/martijn_heil/ninsmartdynamicviewdistance/NinSmartDynamicViewDistance.kt:39 | starting from the plugin's controller with desired 32, the range holds after any sequence of calls |
| `Commands.ApplyKeepsPin` | src/main/kotlin/com/gitlab/martijn_heil/ninsmartdynamicviewdistance/DynamicViewDistanceController.kt:125-140 | a held pin, and its value, survive every call except a set or reset of that player and a server change that drops the player or gives it another view distance |
| `Commands.RunKeepsPin` | src/main/kotlin/com/gitlab/martijn_heil/ninsmartdynamicviewdistance/DynamicViewDistanceController.kt:125-140 | a held pin, and its value, survive any sequence of such calls, whatever happens to the global value |
| `Commands.CurrentCanExceedDesired` | src/main/kotlin/com/gitlab/martijn_heil/ninsmartdynamicviewdistance/Commands.kt:112-125 | `desired set 10` then `setnow 20` leaves current 20 above desired 10, and a graceful raise then lowers current to 10 |
| `CommandHandlers.PlayerSet` | src/main/kotlin/com/gitlab/martijn_heil/ninsmartdynamicviewdistance/Commands.kt:84-89 | computes `Commands.PlayerSet` on the controller object and keeps the range |
| `CommandHandlers.PlayerReset` | src/main/kotlin/com/gitlab/martijn_heil/ninsmartdynamicviewdistance/Commands.kt:91-95 | computes `Commands.PlayerReset` on the controller object and keeps the range |
| `CommandHandlers.GlobalSet` | src/main/kotlin/com/gitlab/martijn_heil/ninsmartdynamicviewdistance/Commands.kt:105-110 | computes `Commands.GlobalSet` on the controller object and keeps the range |
| `CommandHandlers.GlobalSetNow` | src/main/kotlin/com/gitlab/martijn_heil/ninsmartdynamicviewdistance/Commands.kt:112-117 | computes `Commands.GlobalSetNow` on the controller object and keeps the range |
| `CommandHandlers.DesiredSet` | src/main/kotlin/com/gitlab/martijn_heil/ninsmartdynamicviewdistance/Commands.kt:120-125 | computes `Commands.DesiredSet` on the controller object and keeps the range |

## Left out

- Logging and the broadcasts to administrators. They only send messages.
- Scheduler plumbing. `start` registers two repeating tasks and the event listener, and
  `destroy` cancels the tasks in the `tasks` list. The model calls `Tick` and
  `SweepStalePlayers` directly, with the time or tick as an argument. `Destroy` only sets
  the flag.
- The event listener dispatch. The teleport and inventory-open handlers call
  `updateViewDistanceFor` and are the `PlayerEvent` call of the run model. The join
  handler's scheduled callback is `OnPlayerJoinCallback`. The delay of one cycle is not
  modelled.
- `Location.distance` in floating point. The same-world comparison is the parameter
  `movedFar`. Its failure for two different worlds is modelled. Its failure for a location
  without a world is not, because a `Location` here always names its world.
- Reading `server.tps`. The five-minute average is a parameter.
- `System.currentTimeMillis()` and the unsigned wrap-around of `now - lastTickTime`. Time is
  a `nat`, and `Tick` requires `now >= lastTickTime`.
- 32-bit `Int` overflow of `current + 4` and `current - 4`. Integers are unbounded, and from
  the plugin's start all global values stay within 2..32.
- Wrap-around of the 32-bit server tick counter, and so of `currentTick - timestamp`. The
  tick is an unbounded `int`.
- `timeUntilNextUpdate` returns a `java.time.Duration`; the model returns milliseconds.
- The `status`, `get`, `getclient`, `global get` and `desired get` commands. They only read
  state and send messages.
- Permission checks on the commands, command registration, and the plugin lifecycle in
  `NinSmartDynamicViewDistance.kt`. Only its initial desired value of 32 is used.
- Client-side view distance. Only the status command reads it.
- `ControllerModel.ReconcileAllAligns`, `SetNowAligns` and `SweepReconcilesStale` conclude
  only for players whose write succeeds. A player not attached to a world keeps its value,
  with the failure swallowed.
- `Commands.RunKeepsPin` excludes server changes that drop the pinned player or give it
  another view distance. The server may replace a player's view distance on its own, for
  instance on rejoin.
