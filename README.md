# Tapo lamp adapter: coalescer, session retry and unit transforms

This project models the logic of the Homebridge plugin for TP-Link Tapo colour
bulbs (`index.js`). Almost all of that file is glue for the host platform. The
model covers its three pieces of real logic:

- **Settings coalescer** (`useThrottle`, module `Coalescer`, file
  `throttle.dfy`). A partial settings update is merged into one accumulator,
  last write wins per key. The first update after a flush arms a single timer.
  When that timer fires, the whole accumulator goes to the callback, and the
  accumulator and the "armed" flag are reset. The class `Throttle` keeps the
  closure state (`hash`, `prepared`). The timer's expiry is the explicit event
  `Fire`. Ghost fields record the window of updates since the last flush,
  every callback argument, and how many timers were armed. `Valid()` ties
  them together: the accumulator is the merge of the window, a timer is armed
  exactly while the window is non-empty, and at most one timer is ever
  pending.
- **Session retry** (`request` and its `token` variable, module
  `SessionManager`, file `session.dfy`). An action runs against the current
  token. On any failure the session logs in once, stores the new token and
  runs the action exactly once more. That second outcome is the result. A
  failing login propagates its error and the action is not retried. The
  vendor calls are oracles passed in by the caller: `action(token, attempt)`
  and the outcome `login` would produce. Ghost fields count calls and logins
  and record the token of every attempt.
- **Unit transforms** (module `Transforms`, file `transforms.dfy`). These are
  the clamp `setBorders`, the mired/kelvin conversions `fromHbToTemp` and
  `fromTempToHb`, and the brightness floor of 1. The JavaScript numbers they
  meet are modelled as integers plus positive infinity (`Num`). So
  `1000000 / 0` (a bulb that reports colour temperature 0) and the literal
  `Infinity` bound of the brightness clamp are modelled exactly, and no
  `v > 0` precondition is needed. `Math.floor` of the quotient is written out
  for negative divisors, where Dafny's division differs.

Module `Lamp` (file `lamp.dfy`) gives the one-key updates that the hue,
brightness, saturation and colour-temperature setters pass to the coalescer.
It also drives the coalescer through example windows.

The timer is armed by the first update after a flush and is never re-armed
or extended (index.js:124-130). A window therefore ends 20 ms after its first
update, not its last: a throttle, not a debounce.

## Model

| member | source | states |
|---|---|---|
| Transforms.FloorMillionOver | index.js:53-54 | `Math.floor(1000000 / v)` is positive infinity exactly when v is 0; otherwise it is the integer q with q·v ≤ 1000000 < (q+1)·v for v > 0, or the reversed bounds for v < 0 (the floor of the real quotient) |
| Transforms.SetBorders | index.js:52 | the result is value, max or min; it lies in [min, max] when min ≤ max; a value in range is kept, one above max becomes max, one below min (and not above max) becomes min |
| Transforms.DivAntitone | index.js:53-54 | for any non-negative n and 0 < a ≤ b, n / b ≤ n / a; with n = 1000000 this is why neither conversion's quotient grows with its input |
| Transforms.SetBordersMonotone | index.js:52 | clamping to a non-empty range preserves order |
| Transforms.FromHbToTemp | index.js:53 | host mired to bulb kelvin always lands in [2500, 6500]; it is the integer quotient 1000000/v when that is in range, 6500 for v = 0, 2500 for v < 0 |
| Transforms.FromTempToHb | index.js:54 | bulb kelvin to host mired always lands in [140, 500]; it is 1000000/v when that is in range, 500 for v = 0 (a bulb reporting no colour temperature), 140 for v < 0 |
| Transforms.FromHbToTempAntitone | index.js:53 | for 0 < a ≤ b, fromHbToTemp(b) ≤ fromHbToTemp(a) |
| Transforms.FromTempToHbAntitone | index.js:54 | for 0 < a ≤ b, fromTempToHb(b) ≤ fromTempToHb(a) |
| Transforms.RoundTripMonotone | index.js:53-54 | converting a positive host value to the bulb and back stays in [140, 500] and is non-decreasing in the input |
| Transforms.RoundTripExample | index.js:53-54 | 140 mired becomes 6500 K, which reads back as 153 mired: the round trip is not the identity |
| Transforms.ClampBrightness | index.js:68 | the brightness queued for a write of b is max(b, 1): at least 1, b itself when b ≥ 1 |
| Transforms.ClampBrightnessExamples | index.js:68 | brightness 0 is sent as 1, brightness 50 as 50 |
| Coalescer.Assign | index.js:122 | `Object.assign`: the keys are those of both maps, keys of the update take the update's value, all other keys keep theirs |
| Coalescer.MergeAll | index.js:117-122 | the accumulator after a window's updates are assigned into an empty object, left to right: every key of every update of the window is in it |
| Coalescer.MergeAllKeys | index.js:117-122 | a key is in the merge of a window exactly when some update of the window holds it: nothing added is lost |
| Coalescer.MergeAllLastWriteWins | index.js:117-122 | a key's merged value is the value from the last update in the window that holds it |
| Coalescer.Throttle.constructor | index.js:117-119 | a new coalescer has an empty accumulator, no armed timer, no flushes |
| Coalescer.Throttle.Add | index.js:121-131 | the accumulator becomes the old one assigned with the update; a timer is armed by this call exactly when none was armed; afterwards one is armed; no callback runs; the invariant (accumulator = merge of window, at most one pending timer) is kept |
| Coalescer.Throttle.Fire | index.js:125-129 | the callback receives exactly the accumulator at fire time, the last-write-wins merge of the updates since the previous flush; the accumulator is then empty and no timer is armed, so the next window shares nothing with this one |
| SessionManager.Session.constructor | index.js:88 | the session starts with the token of the initial login and no calls, logins or attempts |
| SessionManager.Session.Request | index.js:90-96 | a first attempt that succeeds is returned, with no login and the token unchanged; a failed one triggers exactly one login; a failing login propagates its error, keeps the token and makes no second attempt; a successful one stores the new token and returns the second attempt's outcome unchanged; over all calls, no call makes a third attempt or a second login |
| SessionManager.ExpiredTokenScenario | index.js:90-96 | with a stale token, the first call succeeds on the retry with the fresh token; the next call succeeds at once with the stored fresh token and never reaches its (failing) login |
| SessionManager.PersistentFailureScenario | index.js:93-94 | an action failing on both attempts yields the second failure |
| SessionManager.LoginFailureScenario | index.js:93-94 | a failing login yields the login's error |
| Lamp.SettingUpdate | index.js:62-79 | a host write is a one-key update under the bulb's field name; hue and saturation pass unchanged, brightness is max(value, 1), colour temperature is sent as `FromHbToTemp(value)`, a kelvin value in [2500, 6500] |
| Lamp.OneWindowScenario | index.js:117-132 | writes hue 10, hue 20, brightness 5 in one window arm one timer (the first write only) and flush once as {hue: 20, brightness: 5} |
| Lamp.TwoWindowsScenario | index.js:117-132 | writes separated by a flush give two flushes, each with only its own window's writes ({hue: 10}, then {brightness: 1} for a write of 0) |

## Left out

- Host platform glue: platform registration, accessory lookup and UUIDs, `getService`/`addService`, and attaching the `onGet`/`onSet` handlers (index.js:6-8, 22, 56-60, 82-85, 97-114). These calls carry no logic of their own. The setters' updates are modelled by `Lamp.SettingUpdate`. The colour-temperature getter is `Transforms.FromTempToHb`.
- The power setter (index.js:60). It sends `turnOn` through the session at once, without coalescing, and records the value in the snapshot. It is a plain `Request` with a different action.
- The vendor library calls `loginDeviceByIp`, `getDeviceInfo`, `securePassthrough` and `turnOn`. These are network calls. They appear only as the `action` and `login` oracles of `Session.Request`.
- Real time and async scheduling. The 20 ms `setTimeout` is the explicit `Throttle.Fire` event, which can happen only while a timer is armed. Interleavings of awaits are not modelled.
- The flush callback (index.js:42-50). It wraps the merged settings in a `set_device_info` request, sends it through the session, and only logs a failure. The model returns the merged settings from `Fire`. Sending them and logging the error are not modelled.
- The one-time `dynamic_light_effect_enable` setup request and the unhandled failure of the initial `getDeviceInfo` (index.js:25-40). These are I/O sequencing with no rule beyond sending one command.
- A failure of the initial login (index.js:88). It rejects the launch handler before a session exists. The constructor takes the token it produced.
- Fractional, NaN and negative-infinity JavaScript numbers. Brightness and colour temperature are taken as integers, plus the positive infinity from a division by zero. Hue and saturation are passed through unchanged and are given the type `int` only so that one update type serves all four settings.
- Logging (`console.log`, `log.error`, index.js:27, 38-39, 49, 77).
