/** What the wLightBoxS client exchanges with the device: the fields of the
    JSON payloads the core reads, the body of a set request, and the outcome
    of one network call once the transport is abstracted away. */
module Device {
  import Hex

  datatype Option<T> = None | Some(value: T)

  /** One device call: the parsed JSON body, or `ConnectionError` (which
      stands for a connect failure, a timeout or a body that is not JSON). */
  datatype Outcome<T> = Ok(value: T) | ConnErr

  /** `status["device"]`: the fields of `/api/device/state` the entity keeps. */
  datatype Status = Status(id: string, typ: string, deviceName: string)

  /** `state["light"]`: the field of `/api/light/state` the entity reads. */
  datatype LightState = LightState(desiredColor: string)

  /** A light-state reply whose `desiredColor` `int(_, 16)` accepts. */
  predicate WellFormed(o: Outcome<LightState>) {
    o.Ok? ==> Hex.IsHex(o.value.desiredColor)
  }

  /** The JSON body `{"light": {"desiredColor": ..., "fadeSpeed": ...}}`. */
  datatype SetBody = SetBody(desiredColor: string, fadeSpeed: int)

  /** The HTTP verb of a request the client issues. */
  datatype Verb = Get | Post

  /** One request as the transport sees it: verb, URL and optional JSON body. */
  datatype Request = Request(verb: Verb, url: string, body: Option<SetBody>)

  const StatusPath: string := "/api/device/state"
  const StatePath: string := "/api/light/state"
  const SetPath: string := "/api/light/set"

  /** The default `fadeSpeed` of `set_params`. */
  const DefaultFadeSpeed: int := 213

  function Url(ip: string, path: string): string {
    "http://" + ip + path
  }

  /** The body `set_brightness(level)` posts: the level as two (or more)
      lowercase hex digits and the default fade speed. The device reads back
      exactly the level that was sent. */
  function BrightnessBody(level: nat): (b: SetBody)
    ensures b.fadeSpeed == DefaultFadeSpeed
    ensures Hex.IsHex(b.desiredColor) && Hex.IsLowerHex(b.desiredColor)
    ensures Hex.Decode(b.desiredColor) == level
    ensures level < 256 <==> |b.desiredColor| == 2
  {
    Hex.DecodeEncode(level);
    SetBody(Hex.Encode(level), DefaultFadeSpeed)
  }
}
