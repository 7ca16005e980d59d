/**
 The message and service types the joystick node exchanges: `sensor_msgs/Joy`
 samples in, `geometry_msgs/Twist` setpoints and `tello_msgs/TelloAction`
 requests out. Only the fields the node touches are modelled.
 */
module Messages {

  /** One joystick sample. Axis values are `float32` in the message; they are only
      ever copied, so they are modelled as exact `real`s. Button states are `int32`
      and a button counts as pressed when its entry is non-zero. */
  datatype Joy = Joy(axes: seq<real>, buttons: seq<int>)

  /** C++ truthiness of one `int32` button entry. */
  predicate Pressed(joy: Joy, i: nat)
    requires i < |joy.buttons|
  {
    joy.buttons[i] != 0
  }

  datatype Vector3 = Vector3(x: real, y: real, z: real)

  /** A six-degree-of-freedom velocity. */
  datatype Twist = Twist(linear: Vector3, angular: Vector3)

  /** Every field of a default-constructed `geometry_msgs` message is zero. */
  const ZeroVector: Vector3 := Vector3(0.0, 0.0, 0.0)
  const DefaultTwist: Twist := Twist(ZeroVector, ZeroVector)

  /** The request half of the `TelloAction` service: a single command word. */
  datatype ActionRequest = ActionRequest(cmd: string)
}
