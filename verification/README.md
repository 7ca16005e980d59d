# tello_joy: the joystick teleoperation lifecycle node, modelled in Dafny

`tello_joy::TelloJoyNode` is a ROS 2 lifecycle node that turns `sensor_msgs/Joy`
samples from a game controller into commands for a Tello drone. The model covers
its two concerns.

* **Joystick translation** (`joy_callback`). Each sample yields one effect, and the
  first match wins:
  * a `"takeoff"` request on the `tello_action` service if the takeoff button is pressed;
  * otherwise a `"land"` request if the land button is pressed;
  * otherwise one `geometry_msgs/Twist` published on the velocity topic. Its
    `linear.x`, `linear.y`, `linear.z` and `angular.z` are the throttle, strafe,
    vertical and yaw axes, copied unmodified.
* **Lifecycle handle discipline** (`on_configure`, `on_activate`, `on_deactivate`,
  `on_cleanup`, `on_shutdown`).
  * Configure reads `drone_name` (default `"drone1"`), derives the topic
    `"/" + drone_name + "/cmd_vel"`, and acquires the subscription, the publisher
    and the client.
  * Activate and deactivate only switch the lifecycle publisher on and off.
  * Cleanup and shutdown reset all three handles.
  * Every callback returns SUCCESS.

Files and modules:

* `wrappers.dfy` (`Wrappers`): `Option`, used for nullable handles.
* `messages.dfy` (`Messages`): the Joy, Twist and TelloAction-request fields the node touches.
* `tello_joy_node.dfy` (`TelloJoyNode`): the node record and the topic derivation
  with its inverse. It also holds the five lifecycle callbacks, the translation
  policy with a relational reference definition, and the joystick callback.
* `lifecycle.dfy` (`Lifecycle`): the ROS 2 managed-node primary states.
  * The framework, not the node, refuses illegal transitions, so the legal
    transitions are stated as a graph that the model steps through.
  * `Consistent` is the invariant: handles are held exactly in Inactive/Active,
    and the publisher forwards exactly in Active. The lemmas show every
    transition and every run of transitions keeps it.
* `session.dfy` (`Session`): a stream of samples and what leaves the node, in order.
  It also holds the worked scenarios with the default drone name.

Modelling choices:

* Axis values are `float32` and are only copied into `float64` fields. That
  widening is exact, so axes are modelled as `real`.
* Buttons are `int32`. A button is pressed when its entry is non-zero, as in C++.
* The button and axis indices are node members declared in the header, which is
  not part of this model. They are a `Binding` parameter.
* The joystick callback indexes without bounds checks. Its precondition
  `Readable` asks only for the entries the callback actually reads:
  * the takeoff button, always;
  * the land button, when takeoff is released;
  * the four axes, when both buttons are released.

  `InRangeIsReadable` shows that "every bound index in range" implies it.
* A freshly created lifecycle publisher is disabled until `on_activate`.
  Publishing through a disabled one is dropped. Service requests are never gated.

Behaviour of the code worth stating plainly:

* Configure has no failure path of its own: every return statement in the node
  is SUCCESS, whatever `drone_name` holds. Exceptions raised while creating a
  handle are outside the model (see `TelloJoyNode.Configure` under "Left out").
* An inactive node still sends takeoff and land requests, because the
  subscription exists from configure on and the client is not gated. Only its
  velocity messages are dropped (`Session.RequestsAreNotGatedByActivation`).
* No callback returns anything but SUCCESS.

## Model

| member | source | states |
|---|---|---|
| TelloJoyNode.Construct | tello_driver/src/tello_joy_node.cpp:12-19 | `drone_name` defaults to "drone1" unless overridden; a new node holds no handle |
| TelloJoyNode.CmdVelTopic | tello_driver/src/tello_joy_node.cpp:37 | the topic is a slash, then the drone name verbatim, then "/cmd_vel", with length name + 9 |
| TelloJoyNode.DroneNameOf | tello_driver/src/tello_joy_node.cpp:37 | the inverse of the topic derivation, stated for the proofs only (the node never parses topics): a parsed topic is exactly name + 9 characters long |
| TelloJoyNode.TopicRoundTrip | tello_driver/src/tello_joy_node.cpp:37 | parsing the derived topic gives back the drone name |
| TelloJoyNode.TopicParseSound | tello_driver/src/tello_joy_node.cpp:37 | any topic that parses to a name is that name's derived topic |
| TelloJoyNode.CmdVelTopicInjective | tello_driver/src/tello_joy_node.cpp:37 | different drone names give different velocity topics |
| TelloJoyNode.Configure | tello_driver/src/tello_joy_node.cpp:24-46 | SUCCESS; all three handles held: subscription to "joy" depth 1, a disabled publisher on the derived topic depth 1, a client of "tello_action"; the drone name is the parameter's value |
| TelloJoyNode.Activate | tello_driver/src/tello_joy_node.cpp:48-59 | SUCCESS; the publisher is enabled; topic, depth, other handles and names unchanged |
| TelloJoyNode.Deactivate | tello_driver/src/tello_joy_node.cpp:61-71 | SUCCESS; the publisher is still held but disabled; everything else unchanged |
| TelloJoyNode.ReleaseAll | tello_driver/src/tello_joy_node.cpp:78-81 | resetting the three shared pointers leaves all of them null and keeps the names |
| TelloJoyNode.Cleanup | tello_driver/src/tello_joy_node.cpp:73-85 | SUCCESS; all handles null; names kept |
| TelloJoyNode.Shutdown | tello_driver/src/tello_joy_node.cpp:87-99 | SUCCESS; all handles null whatever was held; names kept; a node holding nothing is left unchanged |
| TelloJoyNode.ShutdownIdempotent | tello_driver/src/tello_joy_node.cpp:92-95 | shutdown twice gives the same outcome as shutdown once |
| TelloJoyNode.ShutdownOfReleasedIsNoOp | tello_driver/src/tello_joy_node.cpp:92-95 | shutdown of a node holding nothing changes nothing and succeeds |
| TelloJoyNode.ActivateDeactivateInverse | tello_driver/src/tello_joy_node.cpp:53-67 | deactivate undoes activate, and activate undoes deactivate |
| TelloJoyNode.ConfigureForgetsHandles | tello_driver/src/tello_joy_node.cpp:29-40 | configure's result does not depend on handles held before, so cleanup then configure equals configure |
| TelloJoyNode.InRangeIsReadable | tello_driver/src/tello_joy_node.cpp:103-118 | a sample holding every bound index satisfies the callback's read requirement |
| TelloJoyNode.Translate | tello_driver/src/tello_joy_node.cpp:103-121 | takeoff iff the takeoff button is pressed; land iff takeoff released and land pressed; velocity iff both released, carrying the four bound axes unmodified |
| TelloJoyNode.TranslateIsTheAdmissibleCommand | tello_driver/src/tello_joy_node.cpp:103-121 | a command satisfies the clause-by-clause priority rule if and only if it is the translation |
| TelloJoyNode.ButtonMasksAxes | tello_driver/src/tello_joy_node.cpp:103-112 | when either bound button is pressed the axes are ignored: same buttons give the same command |
| TelloJoyNode.TranslateReadsOnlyBoundEntries | tello_driver/src/tello_joy_node.cpp:103-118 | samples agreeing on the six bound entries translate alike |
| TelloJoyNode.TwistOf | tello_driver/src/tello_joy_node.cpp:114-118 | linear.x/y/z and angular.z carry the command's values; angular.x and angular.y keep the default-constructed value |
| TelloJoyNode.JoyCallback | tello_driver/src/tello_joy_node.cpp:101-122 | exactly one effect: a service call to the node's client iff a bound button is pressed, "takeoff" taking priority over "land"; otherwise a publish on the node's topic of the bound axes with angular.x = angular.y = 0 |
| Lifecycle.Callback | tello_driver/src/tello_joy_node.cpp:24-99 | every lifecycle callback returns SUCCESS |
| Lifecycle.Step | tello_driver/src/tello_joy_node.cpp:24-99 | a legal transition moves to its target state and keeps the handle invariant; a refused one changes nothing |
| Lifecycle.Run | tello_driver/src/tello_joy_node.cpp:24-99 | any sequence of transition requests keeps the handle invariant and the parameter |
| Lifecycle.ConstructedIsConsistent | tello_driver/src/tello_joy_node.cpp:12-19 | a newly constructed node is consistent with Unconfigured |
| Lifecycle.SubscriptionMeansHandlesHeld | tello_driver/src/tello_joy_node.cpp:32-40 | the subscription exists iff the node is Inactive or Active, and then every handle the callback uses is held |
| Lifecycle.PublishEnabledIffActive | tello_driver/src/tello_joy_node.cpp:53-67 | the publisher forwards iff the node is Active |
| Lifecycle.ShutdownFromAnyLiveState | tello_driver/src/tello_joy_node.cpp:87-99 | shutdown from any non-final state reaches Finalized with every handle released |
| Lifecycle.FinalizedIsTerminal | tello_driver/src/tello_joy_node.cpp:87-99 | after shutdown no request sequence changes the state |
| Lifecycle.TopicFollowsParameter | tello_driver/src/tello_joy_node.cpp:29-38 | along any run, a configured node publishes on "/" + drone_name + "/cmd_vel" for the parameter's value |
| Session.Deliver | tello_driver/src/tello_joy_node.cpp:106-119 | requests always leave; a publish leaves iff the publisher is enabled |
| Session.DeliveriesAppend | tello_driver/src/tello_joy_node.cpp:101-122 | the outputs of a concatenated stream are the outputs of each part in order, so each sample's output keeps its place |
| Session.Deliveries | tello_driver/src/tello_joy_node.cpp:101-122 | no subscription, no output; active, one output per sample in order, each the callback's effect; inactive, only requests leave and one per non-velocity sample |
| Session.OneOutputPerSampleWhenActive | tello_driver/src/tello_joy_node.cpp:103-121 | an active node turns one sample into exactly its callback effect |
| Session.RequestsAreNotGatedByActivation | tello_driver/src/tello_joy_node.cpp:103-119 | a configured but inactive node still sends takeoff and land requests; its velocity messages are dropped |
| Session.NoOutputUnlessConfigured | tello_driver/src/tello_joy_node.cpp:79-95 | Unconfigured or Finalized, no sample produces any output |
| Session.ActiveDefaultNode | tello_driver/src/tello_joy_node.cpp:18-58 | constructing with the default name, then configuring and activating, gives an Active node publishing on "/drone1/cmd_vel" with client "tello_action" |
| Session.ScenarioTakeoff | tello_driver/src/tello_joy_node.cpp:103-107 | buttons [1,0] on the active default node send one "takeoff" request and publish nothing |
| Session.ScenarioVelocity | tello_driver/src/tello_joy_node.cpp:113-119 | axes [0.5,-0.2,0.0,1.0] with no button publish one Twist with those values on "/drone1/cmd_vel" |
| Session.SilentAfterDeactivateAndCleanup | tello_driver/src/tello_joy_node.cpp:73-85 | an active node, deactivated then cleaned up, is Unconfigured and no sample produces output |

## Left out

- Node construction plumbing, the parameter descriptor (its description text is unrelated to the parameter), logging, and component registration. These are framework glue with no behaviour to state.
- Enforcement of legal lifecycle transitions. That lives in `rclcpp_lifecycle`, which is not part of this model. `Lifecycle.Step` models the refusal as a guard: a request `Lifecycle.Target` refuses leaves the state unchanged. The node itself makes no such check.
- The asynchronous service round-trip. Requests are fire-and-forget, and the response is never read.
- Message transport and queue depth beyond recording the depth 1. Dropping inside a disabled lifecycle publisher is reduced to its `enabled` flag.
- Run-time changes to `drone_name` after construction. The parameter is read once per configure, and the model keeps it fixed.
- NaN and infinite axis values. `real` has none, and the node copies them unchanged anyway.
- The concrete button and axis indices. They are declared in `tello_joy_node.hpp`, which is not part of this model.
- Concurrency. Samples and transitions are taken to be handled one at a time, as by a single-threaded executor.
- TelloJoyNode.Configure: always SUCCESS. Exceptions thrown while creating a handle are not modelled. One example is `create_publisher` rejecting an invalid topic name built from `drone_name`, such as `"//cmd_vel"` from an empty name. The framework would report such an exception as ERROR after the subscription was already created. Modelling it needs the ROS 2 topic-name rules and the framework's exception handling, which are not part of this model.
