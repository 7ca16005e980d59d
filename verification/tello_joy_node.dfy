/**
 The `TelloJoyNode` lifecycle node: its handles, its five lifecycle callbacks
 and its joystick callback, as pure functions over an immutable node record.
 */
module TelloJoyNode {
  import opened Wrappers
  import opened Messages

  /** Default value of the `drone_name` parameter. */
  const DefaultDroneName: string := "drone1"
  /** Topic the joystick subscription listens on. */
  const JoyTopic: string := "joy"
  /** Service the action client sends to. */
  const ActionService: string := "tello_action"
  /** History depth of the subscription and of the publisher. */
  const QueueDepth: nat := 1
  /** What the velocity topic ends with, after the drone name. */
  const CmdVelSuffix: string := "/cmd_vel"

  const TakeoffCmd: string := "takeoff"
  const LandCmd: string := "land"

  /** Which joystick entry plays which role. The concrete indices are fixed
      members of the node declared outside this model; they stay parameters. */
  datatype Binding = Binding(takeoff: nat, land: nat,
                             throttle: nat, strafe: nat, vertical: nat, yaw: nat)

  datatype Subscription = Subscription(topic: string, depth: nat)
  /** A lifecycle publisher: it forwards messages only while `enabled`. */
  datatype Publisher = Publisher(topic: string, depth: nat, enabled: bool)
  datatype Client = Client(service: string)

  datatype CallbackReturn = Success | Failure | Error

  /** The node's state. `droneNameParam` is the current value of the
      `drone_name` parameter; `droneName` is the copy taken by configure.
      A `None` handle is a null shared pointer. */
  datatype Node = Node(droneNameParam: string,
                       droneName: string,
                       joySub: Option<Subscription>,
                       cmdVelPub: Option<Publisher>,
                       telloClient: Option<Client>)
  {
    /** All three handles are held. */
    predicate Holds() {
      joySub.Some? && cmdVelPub.Some? && telloClient.Some?
    }

    /** All three handles are null. */
    predicate Released() {
      joySub.None? && cmdVelPub.None? && telloClient.None?
    }

    /** Handles are acquired and released together. */
    predicate Valid() {
      Holds() || Released()
    }

    /** The publisher exists and forwards messages. */
    predicate PublishEnabled() {
      cmdVelPub.Some? && cmdVelPub.value.enabled
    }
  }

  /** What a lifecycle callback hands back to the lifecycle framework. */
  datatype Outcome = Outcome(ret: CallbackReturn, node: Node)

  // ---------------------------------------------------------------------------
  // Construction and topic naming
  // ---------------------------------------------------------------------------

  /** The constructor declares `drone_name` with default "drone1"; a launch-time
      override, if any, replaces the default. No handle exists yet. */
  function Construct(overrideName: Option<string>): (n: Node)
    ensures overrideName.None? ==> n.droneNameParam == DefaultDroneName
    ensures overrideName.Some? ==> n.droneNameParam == overrideName.value
    ensures n.Released() && n.Valid()
  {
    var param := match overrideName
      case Some(name) => name
      case None => DefaultDroneName;
    Node(param, "", None, None, None)
  }

  /** The velocity topic of a drone: a slash, the name, then "/cmd_vel". */
  function CmdVelTopic(name: string): (t: string)
    ensures |t| == |name| + 1 + |CmdVelSuffix|
    ensures t[0] == '/'
    ensures t[1..|name| + 1] == name
    ensures t[|name| + 1..] == CmdVelSuffix
  {
    "/" + name + CmdVelSuffix
  }

  /** Recovers the drone name from a velocity topic, if it has that shape. */
  function DroneNameOf(t: string): (r: Option<string>)
    ensures r.Some? ==> |t| == |r.value| + 1 + |CmdVelSuffix|
  {
    if |t| >= 1 + |CmdVelSuffix| && t[0] == '/' && t[|t| - |CmdVelSuffix|..] == CmdVelSuffix
    then Some(t[1..|t| - |CmdVelSuffix|])
    else None
  }

  /** Parsing a derived topic gives back the drone name. */
  lemma TopicRoundTrip(name: string)
    ensures DroneNameOf(CmdVelTopic(name)) == Some(name)
  {
  }

  /** Every topic that parses is the derived topic of the name it parses to. */
  lemma TopicParseSound(t: string, name: string)
    requires DroneNameOf(t) == Some(name)
    ensures CmdVelTopic(name) == t
  {
  }

  /** Distinct drones get distinct velocity topics. */
  lemma CmdVelTopicInjective(a: string, b: string)
    requires CmdVelTopic(a) == CmdVelTopic(b)
    ensures a == b
  {
    TopicRoundTrip(a);
    TopicRoundTrip(b);
  }

  // ---------------------------------------------------------------------------
  // Lifecycle callbacks
  // ---------------------------------------------------------------------------

  /** on_configure: copies the parameter, derives the topic and acquires the
      subscription, a (still disabled) publisher and the client. The node checks
      nothing about the name and always returns SUCCESS. */
  function Configure(n: Node): (o: Outcome)
    ensures o.ret == Success
    ensures o.node.Holds() && o.node.Valid() && !o.node.PublishEnabled()
    ensures o.node.droneName == n.droneNameParam
    ensures o.node.droneNameParam == n.droneNameParam
    ensures o.node.joySub.value == Subscription(JoyTopic, QueueDepth)
    ensures o.node.cmdVelPub.value.topic == CmdVelTopic(n.droneNameParam)
    ensures o.node.cmdVelPub.value.depth == QueueDepth
    ensures o.node.telloClient.value == Client(ActionService)
  {
    var name := n.droneNameParam;
    var sub := Subscription(JoyTopic, QueueDepth);
    var pub := Publisher(CmdVelTopic(name), QueueDepth, false);
    Outcome(Success, n.(droneName := name, joySub := Some(sub),
                        cmdVelPub := Some(pub), telloClient := Some(Client(ActionService))))
  }

  /** on_activate: dereferences the publisher, so it must be held. */
  function Activate(n: Node): (o: Outcome)
    requires n.cmdVelPub.Some?
    ensures o.ret == Success
    ensures o.node.PublishEnabled()
    ensures o.node.cmdVelPub.value.topic == n.cmdVelPub.value.topic
    ensures o.node.cmdVelPub.value.depth == n.cmdVelPub.value.depth
    ensures o.node.joySub == n.joySub && o.node.telloClient == n.telloClient
    ensures o.node.droneName == n.droneName && o.node.droneNameParam == n.droneNameParam
  {
    Outcome(Success, n.(cmdVelPub := Some(n.cmdVelPub.value.(enabled := true))))
  }

  /** on_deactivate: dereferences the publisher, so it must be held. */
  function Deactivate(n: Node): (o: Outcome)
    requires n.cmdVelPub.Some?
    ensures o.ret == Success
    ensures o.node.cmdVelPub.Some? && !o.node.PublishEnabled()
    ensures o.node.cmdVelPub.value.topic == n.cmdVelPub.value.topic
    ensures o.node.cmdVelPub.value.depth == n.cmdVelPub.value.depth
    ensures o.node.joySub == n.joySub && o.node.telloClient == n.telloClient
    ensures o.node.droneName == n.droneName && o.node.droneNameParam == n.droneNameParam
  {
    Outcome(Success, n.(cmdVelPub := Some(n.cmdVelPub.value.(enabled := false))))
  }

  /** Resetting the three shared pointers; resetting a null one does nothing. */
  function ReleaseAll(n: Node): (m: Node)
    ensures m.Released() && m.Valid()
    ensures m.droneName == n.droneName && m.droneNameParam == n.droneNameParam
  {
    n.(joySub := None, cmdVelPub := None, telloClient := None)
  }

  /** on_cleanup: releases every handle and reports SUCCESS. */
  function Cleanup(n: Node): (o: Outcome)
    ensures o.ret == Success
    ensures o.node.Released() && !o.node.PublishEnabled()
    ensures o.node.droneName == n.droneName && o.node.droneNameParam == n.droneNameParam
  {
    Outcome(Success, ReleaseAll(n))
  }

  /** on_shutdown: the same release as cleanup, safe whatever is held. */
  function Shutdown(n: Node): (o: Outcome)
    ensures o.ret == Success
    ensures n.Released() ==> o.node == n
    ensures o.node.Released() && !o.node.PublishEnabled()
    ensures o.node.droneName == n.droneName && o.node.droneNameParam == n.droneNameParam
  {
    Outcome(Success, ReleaseAll(n))
  }

  /** Shutting down twice leaves the same state as shutting down once. */
  lemma ShutdownIdempotent(n: Node)
    ensures Shutdown(Shutdown(n).node) == Shutdown(n)
  {
  }

  /** Shutting down a node that holds nothing changes nothing. */
  lemma ShutdownOfReleasedIsNoOp(n: Node)
    requires n.Released()
    ensures Shutdown(n) == Outcome(Success, n)
  {
  }

  /** Deactivate undoes activate on a configured, inactive node, and vice versa. */
  lemma ActivateDeactivateInverse(n: Node)
    requires n.cmdVelPub.Some?
    ensures !n.PublishEnabled() ==> Deactivate(Activate(n).node).node == n
    ensures n.PublishEnabled() ==> Activate(Deactivate(n).node).node == n
  {
  }

  /** Configure does not depend on the handles held before it: a cleanup in
      between makes no difference, nor does a previous configure. */
  lemma ConfigureForgetsHandles(n: Node)
    ensures Configure(Cleanup(n).node) == Configure(n)
    ensures Configure(Configure(n).node) == Configure(n)
  {
  }

  // ---------------------------------------------------------------------------
  // Joystick translation
  // ---------------------------------------------------------------------------

  /** The decision the callback takes for one sample. */
  datatype Command = Takeoff | Land | Velocity(x: real, y: real, z: real, yaw: real)

  /** The entries the callback reads exist. The takeoff button is always read;
      the land button only when takeoff is released; the axes only when both
      buttons are released. */
  predicate Readable(b: Binding, joy: Joy) {
    && b.takeoff < |joy.buttons|
    && (!Pressed(joy, b.takeoff) ==>
          && b.land < |joy.buttons|
          && (!Pressed(joy, b.land) ==>
                && b.throttle < |joy.axes| && b.strafe < |joy.axes|
                && b.vertical < |joy.axes| && b.yaw < |joy.axes|))
  }

  /** Every bound index is inside the sample. */
  predicate InRange(b: Binding, joy: Joy) {
    && b.takeoff < |joy.buttons| && b.land < |joy.buttons|
    && b.throttle < |joy.axes| && b.strafe < |joy.axes|
    && b.vertical < |joy.axes| && b.yaw < |joy.axes|
  }

  /** A sample that holds every bound index can be read by the callback. */
  lemma InRangeIsReadable(b: Binding, joy: Joy)
    requires InRange(b, joy)
    ensures Readable(b, joy)
  {
  }

  /** First match wins: takeoff, then land, then the four bound axes copied
      unmodified. */
  function Translate(b: Binding, joy: Joy): (c: Command)
    requires Readable(b, joy)
    ensures c.Takeoff? <==> Pressed(joy, b.takeoff)
    ensures c.Land? <==> !Pressed(joy, b.takeoff) && Pressed(joy, b.land)
    ensures c.Velocity? <==> !Pressed(joy, b.takeoff) && !Pressed(joy, b.land)
    ensures c.Velocity? ==>
      && c.x == joy.axes[b.throttle] && c.y == joy.axes[b.strafe]
      && c.z == joy.axes[b.vertical] && c.yaw == joy.axes[b.yaw]
  {
    if Pressed(joy, b.takeoff) then Takeoff
    else if Pressed(joy, b.land) then Land
    else Velocity(joy.axes[b.throttle], joy.axes[b.strafe],
                  joy.axes[b.vertical], joy.axes[b.yaw])
  }

  /** The policy read as a relation: which commands are acceptable answers to
      a sample, stated clause by clause. */
  ghost predicate Admissible(b: Binding, joy: Joy, c: Command)
    requires Readable(b, joy)
  {
    match c
    case Takeoff => Pressed(joy, b.takeoff)
    case Land => !Pressed(joy, b.takeoff) && Pressed(joy, b.land)
    case Velocity(x, y, z, yaw) =>
      && !Pressed(joy, b.takeoff) && !Pressed(joy, b.land)
      && x == joy.axes[b.throttle] && y == joy.axes[b.strafe]
      && z == joy.axes[b.vertical] && yaw == joy.axes[b.yaw]
  }

  /** The translation is exactly the one admissible command: it is admissible,
      and no other command is. */
  lemma TranslateIsTheAdmissibleCommand(b: Binding, joy: Joy, c: Command)
    requires Readable(b, joy)
    ensures Admissible(b, joy, c) <==> c == Translate(b, joy)
  {
  }

  /** A pressed button hides the axes: samples with the same buttons translate
      alike whenever one of the two bound buttons is pressed. */
  lemma ButtonMasksAxes(b: Binding, joy: Joy, joy': Joy)
    requires Readable(b, joy) && Readable(b, joy')
    requires joy.buttons == joy'.buttons
    requires Pressed(joy, b.takeoff) || Pressed(joy, b.land)
    ensures Translate(b, joy) == Translate(b, joy')
  {
  }

  /** Only the six bound entries matter. */
  lemma TranslateReadsOnlyBoundEntries(b: Binding, joy: Joy, joy': Joy)
    requires InRange(b, joy) && InRange(b, joy')
    requires joy.buttons[b.takeoff] == joy'.buttons[b.takeoff]
    requires joy.buttons[b.land] == joy'.buttons[b.land]
    requires joy.axes[b.throttle] == joy'.axes[b.throttle]
    requires joy.axes[b.strafe] == joy'.axes[b.strafe]
    requires joy.axes[b.vertical] == joy'.axes[b.vertical]
    requires joy.axes[b.yaw] == joy'.axes[b.yaw]
    ensures Translate(b, joy) == Translate(b, joy')
  {
  }

  /** The message a velocity command becomes: the four values in `linear.x`,
      `linear.y`, `linear.z` and `angular.z`, every other field at its default. */
  function TwistOf(c: Command): (t: Twist)
    requires c.Velocity?
    ensures t.linear == Vector3(c.x, c.y, c.z)
    ensures t.angular.x == DefaultTwist.angular.x && t.angular.y == DefaultTwist.angular.y
    ensures t.angular.z == c.yaw
  {
    DefaultTwist.(linear := Vector3(c.x, c.y, c.z),
                  angular := DefaultTwist.angular.(z := c.yaw))
  }

  /** What one callback invocation does: one service request, or one call to
      the publisher's publish. */
  datatype Effect =
    | CallService(service: string, request: ActionRequest)
    | Publish(topic: string, twist: Twist)

  /** joy_callback. Reachable only while the subscription exists, which (the
      handles being acquired together) means all three handles are held. */
  function JoyCallback(n: Node, b: Binding, joy: Joy): (e: Effect)
    requires n.Holds()
    requires Readable(b, joy)
    ensures e.CallService? <==> Pressed(joy, b.takeoff) || Pressed(joy, b.land)
    ensures e.CallService? ==> e.service == n.telloClient.value.service
    ensures e.CallService? && Pressed(joy, b.takeoff) ==> e.request == ActionRequest(TakeoffCmd)
    ensures e.CallService? && !Pressed(joy, b.takeoff) ==> e.request == ActionRequest(LandCmd)
    ensures e.Publish? ==> e.topic == n.cmdVelPub.value.topic
    ensures e.Publish? ==>
      && e.twist.linear == Vector3(joy.axes[b.throttle], joy.axes[b.strafe], joy.axes[b.vertical])
      && e.twist.angular == Vector3(0.0, 0.0, joy.axes[b.yaw])
  {
    match Translate(b, joy)
    case Takeoff => CallService(n.telloClient.value.service, ActionRequest(TakeoffCmd))
    case Land => CallService(n.telloClient.value.service, ActionRequest(LandCmd))
    case Velocity(x, y, z, yaw) =>
      Publish(n.cmdVelPub.value.topic, TwistOf(Velocity(x, y, z, yaw)))
  }
}
