/**
 A stream of joystick samples reaching the node, and what leaves it: service
 requests, which the client sends whatever the lifecycle state, and velocity
 messages, which the lifecycle publisher forwards only while enabled.
 */
module Session {
  import opened Wrappers
  import opened Messages
  import opened TelloJoyNode
  import L = Lifecycle

  /** What leaves the node for one callback effect. Requests are never gated;
      a publish on a disabled lifecycle publisher is dropped. */
  function Deliver(n: Node, e: Effect): (out: seq<Effect>)
    ensures e.CallService? ==> out == [e]
    ensures e.Publish? && n.PublishEnabled() ==> out == [e]
    ensures e.Publish? && !n.PublishEnabled() ==> out == []
  {
    if e.CallService? || n.PublishEnabled() then [e] else []
  }

  /** How many of the samples translate to a velocity command. */
  function VelocityCount(b: Binding, samples: seq<Joy>): (k: nat)
    requires forall i :: 0 <= i < |samples| ==> Readable(b, samples[i])
    ensures k <= |samples|
    ensures (forall i :: 0 <= i < |samples| ==> Translate(b, samples[i]).Velocity?) ==> k == |samples|
    ensures (forall i :: 0 <= i < |samples| ==> !Translate(b, samples[i]).Velocity?) ==> k == 0
    decreases |samples|
  {
    if samples == [] then 0
    else (if Translate(b, samples[0]).Velocity? then 1 else 0) + VelocityCount(b, samples[1..])
  }

  /** The outputs, in order, of a stream of samples handled one at a time.
      Samples reach the callback only while the subscription exists. */
  function Deliveries(n: Node, b: Binding, samples: seq<Joy>): (out: seq<Effect>)
    requires n.Valid()
    requires forall i :: 0 <= i < |samples| ==> Readable(b, samples[i])
    ensures n.joySub.None? ==> out == []
    ensures n.Holds() && n.PublishEnabled() ==>
      && |out| == |samples|
      && forall i :: 0 <= i < |samples| ==> out[i] == JoyCallback(n, b, samples[i])
    ensures n.Holds() && !n.PublishEnabled() ==>
      && |out| + VelocityCount(b, samples) == |samples|
      && forall i :: 0 <= i < |out| ==> out[i].CallService?
    decreases |samples|
  {
    if samples == [] || n.joySub.None? then []
    else Deliver(n, JoyCallback(n, b, samples[0])) + Deliveries(n, b, samples[1..])
  }

  /** Every sample of a stream can be read by the callback. */
  predicate AllReadable(b: Binding, samples: seq<Joy>) {
    forall i :: 0 <= i < |samples| ==> Readable(b, samples[i])
  }

  /** Concatenating readable streams gives a readable stream. */
  lemma AllReadableConcat(b: Binding, s: seq<Joy>, t: seq<Joy>)
    requires AllReadable(b, s) && AllReadable(b, t)
    ensures AllReadable(b, s + t)
  {
    forall i | 0 <= i < |s + t|
      ensures Readable(b, (s + t)[i])
    {
      if i < |s| { assert (s + t)[i] == s[i]; } else { assert (s + t)[i] == t[i - |s|]; }
    }
  }

  /** A subscribed node handles the first sample, then the rest. */
  lemma DeliveriesCons(n: Node, b: Binding, s: seq<Joy>)
    requires n.Valid() && n.joySub.Some? && s != [] && AllReadable(b, s)
    ensures AllReadable(b, s[1..])
    ensures Deliveries(n, b, s) == Deliver(n, JoyCallback(n, b, s[0])) + Deliveries(n, b, s[1..])
  {
    assert forall i :: 0 <= i < |s[1..]| ==> s[1..][i] == s[i + 1];
  }

  /** Dropping the head of a concatenation drops the head of its first part. */
  lemma TailOfConcat<T>(s: seq<T>, t: seq<T>)
    requires s != []
    ensures (s + t)[0] == s[0] && (s + t)[1..] == s[1..] + t
  {
  }

  /** Sequence concatenation is associative. */
  lemma ConcatAssociative<T>(a: seq<T>, b: seq<T>, c: seq<T>)
    ensures a + (b + c) == (a + b) + c
  {
  }

  /** A subscribed node handles the head of `s`, then the rest of `s` followed by `t`. */
  lemma DeliveriesConsConcat(n: Node, b: Binding, s: seq<Joy>, t: seq<Joy>)
    requires n.Valid() && n.joySub.Some? && s != []
    requires AllReadable(b, s) && AllReadable(b, s + t) && AllReadable(b, s[1..] + t)
    ensures Deliveries(n, b, s + t)
         == Deliver(n, JoyCallback(n, b, s[0])) + Deliveries(n, b, s[1..] + t)
  {
    TailOfConcat(s, t);
    DeliveriesCons(n, b, s + t);
  }

  /** Handling a stream is handling its parts one after the other: outputs
      keep the order of the samples that caused them. With the one-sample
      lemmas below this fixes, for every stream, which output each sample
      produces and where it stands. The readability of `s + t` follows from
      that of its parts by `AllReadableConcat`. */
  lemma {:induction false} DeliveriesAppend(n: Node, b: Binding, s: seq<Joy>, t: seq<Joy>)
    requires n.Valid() && AllReadable(b, s) && AllReadable(b, t) && AllReadable(b, s + t)
    ensures Deliveries(n, b, s + t) == Deliveries(n, b, s) + Deliveries(n, b, t)
    decreases |s|
  {
    if s == [] {
      assert s + t == t;
    } else if n.joySub.Some? {
      TailOfConcat(s, t);
      DeliveriesCons(n, b, s + t);
      DeliveriesAppend(n, b, s[1..], t);
      DeliveriesConsConcat(n, b, s, t);
      DeliveriesCons(n, b, s);
      ConcatAssociative(Deliver(n, JoyCallback(n, b, s[0])), Deliveries(n, b, s[1..]), Deliveries(n, b, t));
    }
  }

  /** Each sample handled by an active node yields exactly one output. */
  lemma OneOutputPerSampleWhenActive(n: Node, b: Binding, joy: Joy)
    requires n.Holds() && n.PublishEnabled() && Readable(b, joy)
    ensures Deliveries(n, b, [joy]) == [JoyCallback(n, b, joy)]
  {
  }

  /** An inactive but configured node still sends takeoff and land requests:
      only the publisher is gated by activation. */
  lemma RequestsAreNotGatedByActivation(n: Node, b: Binding, joy: Joy)
    requires n.Holds() && !n.PublishEnabled() && Readable(b, joy)
    ensures Pressed(joy, b.takeoff) ==>
      Deliveries(n, b, [joy]) == [CallService(n.telloClient.value.service, ActionRequest(TakeoffCmd))]
    ensures !Pressed(joy, b.takeoff) && Pressed(joy, b.land) ==>
      Deliveries(n, b, [joy]) == [CallService(n.telloClient.value.service, ActionRequest(LandCmd))]
    ensures !Pressed(joy, b.takeoff) && !Pressed(joy, b.land) ==> Deliveries(n, b, [joy]) == []
  {
  }

  /** Unconfigured or finalized, the node holds no subscription, so no sample
      reaches the callback and nothing is sent or published. */
  lemma NoOutputUnlessConfigured(m: L.Managed, b: Binding, samples: seq<Joy>)
    requires L.Consistent(m)
    requires m.phase == L.Unconfigured || m.phase == L.Finalized
    requires forall i :: 0 <= i < |samples| ==> Readable(b, samples[i])
    ensures m.node.Valid() && Deliveries(m.node, b, samples) == []
  {
  }

  /** The binding used by the worked scenarios below: takeoff on button 0,
      land on button 1, the four axes in order. */
  const ScenarioBinding: Binding := Binding(0, 1, 0, 1, 2, 3)

  /** The node after construction with the default name, configure and activate. */
  function ActiveDefaultNode(): (m: L.Managed)
    ensures L.Consistent(m)
    ensures m.phase == L.Active
    ensures m.node.cmdVelPub.value.topic == "/drone1/cmd_vel"
    ensures m.node.telloClient.value.service == "tello_action"
  {
    L.ConstructedIsConsistent(None);
    var constructed := L.Managed(L.Unconfigured, Construct(None));
    assert CmdVelTopic(DefaultDroneName) == "/drone1/cmd_vel";
    L.Step(L.Step(constructed, L.Configure), L.Activate)
  }

  /** With the takeoff button held the node requests takeoff and publishes nothing. */
  lemma ScenarioTakeoff()
    ensures Deliveries(ActiveDefaultNode().node, ScenarioBinding, [Joy([0.0, 0.0, 0.0, 0.0], [1, 0])])
         == [CallService("tello_action", ActionRequest("takeoff"))]
  {
  }

  /** With no button held the node publishes the axes on "/drone1/cmd_vel". */
  lemma ScenarioVelocity()
    ensures Deliveries(ActiveDefaultNode().node, ScenarioBinding, [Joy([0.5, -0.2, 0.0, 1.0], [0, 0])])
         == [Publish("/drone1/cmd_vel", Twist(Vector3(0.5, -0.2, 0.0), Vector3(0.0, 0.0, 1.0)))]
  {
  }

  /** An active node that is deactivated and cleaned up is Unconfigured, and
      no sample then produces anything. */
  lemma SilentAfterDeactivateAndCleanup(m: L.Managed, b: Binding, samples: seq<Joy>)
    requires L.Consistent(m) && m.phase == L.Active
    requires forall i :: 0 <= i < |samples| ==> Readable(b, samples[i])
    ensures L.Step(L.Step(m, L.Deactivate), L.Cleanup).phase == L.Unconfigured
    ensures Deliveries(L.Step(L.Step(m, L.Deactivate), L.Cleanup).node, b, samples) == []
  {
    var inactive := L.Step(m, L.Deactivate);
    var cleaned := L.Step(inactive, L.Cleanup);
    NoOutputUnlessConfigured(cleaned, b, samples);
  }
}
