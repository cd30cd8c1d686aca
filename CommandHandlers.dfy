/**
 * The command handlers as the plugin runs them: validate the argument, then
 * call the controller object. Each is proved to compute the command function
 * of the same name in Commands, and so to keep the controller within 2..32.
 */
module CommandHandlers {
  import opened Wrappers
  import opened Host
  import C = Commands
  import opened Controller

  method PlayerSet(controller: ViewDistanceController, distance: int, target: Player) returns (reply: C.Reply)
    requires target in controller.server.viewDistance
    modifies controller, controller.server
    ensures C.Response(controller.State(), reply) == C.PlayerSet(old(controller.State()), distance, target)
    ensures C.InRange(old(controller.State())) ==> C.InRange(controller.State())
  {
    var rejection := C.CheckViewDistanceRaw(distance);
    if rejection.Some? {
      return C.Rejected(rejection.value);
    }
    var thrown := controller.SetFixedViewDistance(target, distance);
    reply := C.ReplyTo(thrown);
  }

  method PlayerReset(controller: ViewDistanceController, target: Player) returns (reply: C.Reply)
    requires target in controller.server.viewDistance
    modifies controller, controller.server
    ensures C.Response(controller.State(), reply) == C.PlayerReset(old(controller.State()), target)
    ensures C.InRange(old(controller.State())) ==> C.InRange(controller.State())
  {
    var thrown := controller.RemoveFixedViewDistance(target);
    reply := C.ReplyTo(thrown);
  }

  method GlobalSet(controller: ViewDistanceController, distance: int) returns (reply: C.Reply)
    modifies controller
    ensures C.Response(controller.State(), reply) == C.GlobalSet(old(controller.State()), distance)
    ensures C.InRange(old(controller.State())) ==> C.InRange(controller.State())
  {
    var rejection := C.CheckViewDistance(distance);
    if rejection.Some? {
      return C.Rejected(rejection.value);
    }
    controller.SetViewDistanceGracefully(distance);
    reply := C.Done;
  }

  method GlobalSetNow(controller: ViewDistanceController, distance: int) returns (reply: C.Reply)
    requires controller.server.Valid()
    modifies controller, controller.server
    ensures C.Response(controller.State(), reply) == C.GlobalSetNow(old(controller.State()), distance)
    ensures C.InRange(old(controller.State())) ==> C.InRange(controller.State())
  {
    var rejection := C.CheckViewDistance(distance);
    if rejection.Some? {
      return C.Rejected(rejection.value);
    }
    var thrown := controller.SetViewDistanceNow(distance);
    reply := C.ReplyTo(thrown);
  }

  method DesiredSet(controller: ViewDistanceController, distance: int) returns (reply: C.Reply)
    modifies controller
    ensures C.Response(controller.State(), reply) == C.DesiredSet(old(controller.State()), distance)
    ensures C.InRange(old(controller.State())) ==> C.InRange(controller.State())
  {
    var rejection := C.CheckViewDistance(distance);
    if rejection.Some? {
      return C.Rejected(rejection.value);
    }
    var thrown := controller.SetDesiredViewDistance(distance);
    reply := C.ReplyTo(thrown);
  }
}
