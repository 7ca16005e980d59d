/**
 The managed-node state machine the lifecycle framework drives the node
 through. The framework, not the node, decides which transitions are legal;
 here that decision is a precondition on stepping, and the node's callbacks
 are shown to keep its handles in step with the framework's primary state.
 */
module Lifecycle {
  import opened Wrappers
  import Node = TelloJoyNode

  /** The four primary states of a managed node. */
  datatype Phase = Unconfigured | Inactive | Active | Finalized

  datatype Transition = Configure | Activate | Deactivate | Cleanup | Shutdown

  /** The managed node: the framework's primary state and the node's own state. */
  datatype Managed = Managed(phase: Phase, node: Node.Node)

  /** The primary-state graph of the ROS 2 managed-node design: where each
      transition leads, or `None` when the framework refuses it. */
  function Target(p: Phase, t: Transition): Option<Phase> {
    match (p, t)
    case (Unconfigured, Configure) => Some(Inactive)
    case (Inactive, Activate) => Some(Active)
    case (Active, Deactivate) => Some(Inactive)
    case (Inactive, Cleanup) => Some(Unconfigured)
    case (Unconfigured, Shutdown) => Some(Finalized)
    case (Inactive, Shutdown) => Some(Finalized)
    case (Active, Shutdown) => Some(Finalized)
    case _ => None
  }

  /** Handles exist exactly in the configured states, the publisher forwards
      exactly in the active state, and the publisher's topic is the one derived
      from the drone name configure read. */
  ghost predicate Consistent(m: Managed) {
    var n := m.node;
    match m.phase
    case Unconfigured => n.Released()
    case Finalized => n.Released()
    case Inactive =>
      n.Holds() && !n.PublishEnabled() && n.cmdVelPub.value.topic == Node.CmdVelTopic(n.droneName)
    case Active =>
      n.Holds() && n.PublishEnabled() && n.cmdVelPub.value.topic == Node.CmdVelTopic(n.droneName)
  }

  /** The node's callback for a transition. */
  function Callback(n: Node.Node, t: Transition): (o: Node.Outcome)
    requires t == Activate || t == Deactivate ==> n.cmdVelPub.Some?
    ensures o.ret == Node.Success
  {
    match t
    case Configure => Node.Configure(n)
    case Activate => Node.Activate(n)
    case Deactivate => Node.Deactivate(n)
    case Cleanup => Node.Cleanup(n)
    case Shutdown => Node.Shutdown(n)
  }

  /** One transition request. A refused request changes nothing; an accepted
      one runs the node's callback, which always reports SUCCESS, so the
      framework moves on to the target state. */
  function Step(m: Managed, t: Transition): (m': Managed)
    requires Consistent(m)
    ensures Consistent(m')
    ensures Target(m.phase, t).None? ==> m' == m
    ensures Target(m.phase, t).Some? ==> m'.phase == Target(m.phase, t).value
    ensures m'.node.droneNameParam == m.node.droneNameParam
  {
    match Target(m.phase, t)
    case None => m
    case Some(p') => Managed(p', Callback(m.node, t).node)
  }

  /** A sequence of transition requests, handled one after another. */
  function Run(m: Managed, ts: seq<Transition>): (m': Managed)
    requires Consistent(m)
    ensures Consistent(m')
    ensures m'.node.droneNameParam == m.node.droneNameParam
    decreases |ts|
  {
    if ts == [] then m else Run(Step(m, ts[0]), ts[1..])
  }

  /** A freshly constructed node starts consistent in Unconfigured. */
  lemma ConstructedIsConsistent(overrideName: Option<string>)
    ensures Consistent(Managed(Unconfigured, Node.Construct(overrideName)))
  {
  }

  /** While the subscription exists (so the joystick callback can run), the
      node is configured and holds every handle the callback dereferences. */
  lemma SubscriptionMeansHandlesHeld(m: Managed)
    requires Consistent(m)
    ensures m.node.joySub.Some? <==> m.phase == Inactive || m.phase == Active
    ensures m.node.joySub.Some? ==> m.node.Holds()
  {
  }

  /** The publisher forwards messages exactly when the node is Active. */
  lemma PublishEnabledIffActive(m: Managed)
    requires Consistent(m)
    ensures m.node.PublishEnabled() <==> m.phase == Active
  {
  }

  /** Shutdown is accepted from every state but Finalized and releases everything. */
  lemma ShutdownFromAnyLiveState(m: Managed)
    requires Consistent(m)
    requires m.phase != Finalized
    ensures Step(m, Shutdown).phase == Finalized
    ensures Step(m, Shutdown).node.Released()
  {
  }

  /** Finalized is terminal: no sequence of requests leaves it or changes the node. */
  lemma {:induction false} FinalizedIsTerminal(m: Managed, ts: seq<Transition>)
    requires Consistent(m) && m.phase == Finalized
    ensures Run(m, ts) == m
    decreases |ts|
  {
    if ts != [] {
      assert Step(m, ts[0]) == m;
      FinalizedIsTerminal(m, ts[1..]);
    }
  }

  /** Every configured state publishes on the topic of the parameter value:
      along any run from construction, the drone name configure read is the
      parameter, so the topic is `"/" + drone_name + "/cmd_vel"`. */
  lemma {:induction false} TopicFollowsParameter(m: Managed, ts: seq<Transition>)
    requires Consistent(m)
    requires m.phase in {Inactive, Active} ==> m.node.droneName == m.node.droneNameParam
    ensures Run(m, ts).phase in {Inactive, Active} ==>
      Run(m, ts).node.cmdVelPub.value.topic == Node.CmdVelTopic(m.node.droneNameParam)
    decreases |ts|
  {
    if ts == [] {
    } else {
      var m1 := Step(m, ts[0]);
      assert m1.phase in {Inactive, Active} ==> m1.node.droneName == m1.node.droneNameParam;
      TopicFollowsParameter(m1, ts[1..]);
    }
  }
}
