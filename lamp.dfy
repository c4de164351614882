/** The characteristic setters of the lamp accessory that feed the
    coalescer: each host write becomes a one-key update in the bulb's field
    names and units. */
module Lamp {
  import opened Transforms
  import opened Coalescer

  /** The host characteristics whose writes are coalesced. */
  datatype Characteristic = Hue | Brightness | Saturation | ColorTemperature

  /** The bulb's name for the setting a characteristic controls. */
  function DeviceField(c: Characteristic): (f: string)
  {
    match c
    case Hue => "hue"
    case Brightness => "brightness"
    case Saturation => "saturation"
    case ColorTemperature => "color_temp"
  }

  /** The update a host write of `value` to `c` hands to the coalescer:
      hue and saturation pass unchanged, brightness is raised to at least 1,
      and a colour temperature in mired becomes `FromHbToTemp` of it, in
      kelvin within [2500, 6500]. */
  function SettingUpdate(c: Characteristic, value: int): (u: map<string, int>)
    ensures u.Keys == {DeviceField(c)}
    ensures (c == Hue || c == Saturation) ==> u[DeviceField(c)] == value
    ensures c == Brightness ==> u[DeviceField(c)] == if value < 1 then 1 else value
    ensures c == ColorTemperature ==> u[DeviceField(c)] == FromHbToTemp(value)
    ensures c == ColorTemperature ==> MinKelvin <= u[DeviceField(c)] <= MaxKelvin
  {
    match c
    case Hue => map["hue" := value]
    case Brightness => map["brightness" := ClampBrightness(value)]
    case Saturation => map["saturation" := value]
    case ColorTemperature => map["color_temp" := FromHbToTemp(value)]
  }

  /** Three writes inside one window, hue 10, hue 20 and brightness 5: only
      the first arms a timer, and its one flush carries hue 20 and
      brightness 5. */
  method OneWindowScenario() returns (armed: seq<bool>, flushed: map<string, int>)
    ensures armed == [true, false, false]
    ensures flushed == map["hue" := 20, "brightness" := 5]
  {
    var t := new Throttle<string, int>();
    var a1 := t.Add(SettingUpdate(Hue, 10));
    var a2 := t.Add(SettingUpdate(Hue, 20));
    var a3 := t.Add(SettingUpdate(Brightness, 5));
    armed := [a1, a2, a3];
    flushed := t.Fire();
    assert |t.Flushes| == 1 && t.hash == map[];
  }

  /** Writes separated by a flush: each window flushes once with only its
      own writes, and a brightness of 0 goes out as 1. */
  method TwoWindowsScenario() returns (first: map<string, int>, second: map<string, int>)
    ensures first == map["hue" := 10]
    ensures second == map["brightness" := 1]
  {
    var t := new Throttle<string, int>();
    var a1 := t.Add(SettingUpdate(Hue, 10));
    first := t.Fire();
    var a2 := t.Add(SettingUpdate(Brightness, 0));
    assert a1 && a2;
    second := t.Fire();
    assert t.Flushes == [first, second] && t.Scheduled == 2;
  }
}
