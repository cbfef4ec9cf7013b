/**
 * The bridge-side objects the light adapters wrap. The adapters only read and
 * assign attributes of a native light and call `connect` on a bridge; the
 * bridge's network protocol is not modelled; whether the handshake succeeds is
 * the constant `reachable`.
 */
module Native {
  import opened Errors

  /** A light as the bridge reports it; the adapters assign its attributes in place. */
  class NativeLight {
    const name: string
    var on: bool
    var brightness: real
    var hue: real
    var saturation: real

    constructor (name: string, on: bool, brightness: real, hue: real, saturation: real)
      ensures this.name == name && this.on == on && this.brightness == brightness
      ensures this.hue == hue && this.saturation == saturation
    {
      this.name := name;
      this.on := on;
      this.brightness := brightness;
      this.hue := hue;
      this.saturation := saturation;
    }
  }

  /** A bridge: its lights, in the order it lists them, and its connection state. */
  class Bridge {
    const lights: seq<NativeLight>
    const reachable: bool
    var connected: bool

    constructor (lights: seq<NativeLight>, reachable: bool)
      ensures this.lights == lights && this.reachable == reachable && !connected
    {
      this.lights := lights;
      this.reachable := reachable;
      connected := false;
    }

    /** `bridge.connect()`: succeeds when the bridge answers, and raises otherwise. */
    method Connect() returns (r: Outcome)
      modifies this
      ensures r == Pass <==> reachable
      ensures r != Pass ==> r == Fail(ConnectionError)
      ensures connected == (reachable || old(connected))
    {
      if reachable {
        connected := true;
        r := Pass;
      } else {
        r := Fail(ConnectionError);
      }
    }
  }
}
