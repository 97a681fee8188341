# wLightBoxS light: a verified model

This project models the core of the Home Assistant platform for the BleBox
wLightBoxS dimmer (`blebox_wlightboxs/light.py`). It covers three parts:

- **The brightness codec.** A level goes to the device as `format(level, '02x')`
  (module `Hex`, function `Encode`). It comes back through `int(desiredColor, 16)`
  (`Hex.Decode`). The two are proved to round-trip for every level. They are also
  proved to be a bijection between `0..255` and the two-character lowercase hex
  strings.
- **The device client `BleboxWlightBoxS`** (module `Api`). It has its two session
  fields, `session` and `autoSession`. It has the lazy-session prologue of
  `_fetch_get`/`_fetch_post`, the calls `get_status`, `get_state`, `set_params`
  and `set_brightness`, and `close`. The network is a parameter:
  - each call takes the outcome `net` (`Ok(payload)` or `ConnErr`, the client's
    `ConnectionError`) and returns it;
  - the ghost log `sent` records each request attempted: verb, URL and JSON body.

  Module `SessionOwnership` restates the two fields as a value. Its lemmas are
  about any sequence of fetches and closes.
- **The light entity `BleboxWlightBoxSLight`** (module `Entity`). It covers
  `__init__`, `async_update`, `async_turn_on` and `async_turn_off`, and it keeps
  a ghost log of the "connection lost" / "connection restored" warnings. Each
  method is tied to one `Step` of the value-level state machine in
  `Reconcile`. The lemmas there are about whole runs of polls and commands.
- **The setup probe `async_setup_platform`** (module `Platform`). It loops over
  the hosts. It either hands one fresh light per host, in host order, to the
  platform, or it returns `PlatformNotReady` at the first failed probe.

Behaviour of `light.py` that the model keeps:

- `is_on` depends only on the device type: it holds iff `_type` is
  `"wLightBoxS"`, whatever the brightness (`Reconcile.IsOnIgnoresBrightness`).
  `async_update` refreshes `_status` but never `_type`, so `is_on` never changes
  after construction (`Reconcile.IsOnIsFixed`).
- `_fetch_post` issues a GET carrying the JSON body. Every request in `sent`
  therefore has verb `Get`.
- A bare `turn_on` resends `_brightness`, which `__init__` always sets from
  the probed `desiredColor`.
- A failed probe on any host aborts the whole platform. No light is added,
  not even for hosts probed before the failure.
- A failed send in `turn_on` or `turn_off` propagates: both return `ConnErr`.
  The brightness is then left as it was.
- When `get_status` succeeds and `get_state` fails, `_status` is already
  replaced but `_state` and `_brightness` are not (`Entity.BleboxWlightBoxSLight.Update`).
- Levels are not clamped. A remembered brightness above 255 (the device
  reported three or more hex digits) is resent as three or more digits, and
  `Hex.Encode` is modelled for every natural number.

## Model

| member | source | states |
|---|---|---|
| `Hex.Encode` | blebox_wlightboxs/light.py:98-99 | the encoding of a level is at least two lowercase hex digits, and exactly two iff the level is below 256 |
| `Hex.Decode` | blebox_wlightboxs/light.py:143 | parsing a well-formed string of k hex digits (either case) gives a value below 16^k |
| `Hex.DecodeEncode` | blebox_wlightboxs/light.py:192 | parsing the encoding of any level gives the level back |
| `Hex.EncodeDecode` | blebox_wlightboxs/light.py:143 | every two-character lowercase hex string parses to a level below 256 whose encoding is that same string |
| `Hex.EncodeInjective` | blebox_wlightboxs/light.py:99 | distinct levels are sent as distinct strings |
| `Hex.EncodeExamples` | blebox_wlightboxs/light.py:99 | 0, 5, 200 and 255 encode to "00", "05", "c8" and "ff"; "FF" parses to 255 |
| `Device.BrightnessBody` | blebox_wlightboxs/light.py:87-100 | the set request carries fade speed 213 and a colour that parses back to exactly the level requested, two characters iff the level is below 256 |
| `SessionOwnership.Acquire` | blebox_wlightboxs/light.py:42-45 | after the prologue a session is present; ownership is taken iff no session was present |
| `SessionOwnership.Release` | blebox_wlightboxs/light.py:103-107 | after close no session is owned; a session remains iff one was present and not owned |
| `SessionOwnership.ReleaseIdempotent` | blebox_wlightboxs/light.py:103-107 | a second close changes nothing |
| `SessionOwnership.CreatedSessionsAreClosedOnce` | blebox_wlightboxs/light.py:61-64 | over any run of fetches and closes, sessions created equal sessions closed plus the one still owned, and ownership stays consistent |
| `SessionOwnership.InjectedSessionIsNeverReleased` | blebox_wlightboxs/light.py:37-40 | with an injected session, no run of fetches and closes creates, closes or drops a session |
| `Api.BleboxWlightBoxS.constructor` | blebox_wlightboxs/light.py:37-40 | the client keeps the given session and does not own it |
| `Api.BleboxWlightBoxS.AcquireSession` | blebox_wlightboxs/light.py:43-45 | an existing session is kept; a fresh open session is created and owned only when there is none |
| `Api.BleboxWlightBoxS.FetchGet` | blebox_wlightboxs/light.py:42-59 | the session prologue, one GET request to http://ip+path, and the call's outcome returned unchanged |
| `Api.BleboxWlightBoxS.FetchPost` | blebox_wlightboxs/light.py:61-77 | the session prologue, one GET request (not POST) with the JSON body, and the outcome returned unchanged |
| `Api.BleboxWlightBoxS.GetStatus` | blebox_wlightboxs/light.py:79-81 | one GET of /api/device/state |
| `Api.BleboxWlightBoxS.GetState` | blebox_wlightboxs/light.py:83-85 | one GET of /api/light/state |
| `Api.BleboxWlightBoxS.SetParams` | blebox_wlightboxs/light.py:87-96 | one request to /api/light/set whose body holds the given colour and fade speed |
| `Api.BleboxWlightBoxS.SetBrightness` | blebox_wlightboxs/light.py:98-100 | one request to /api/light/set with the level's hex encoding and fade speed 213 |
| `Api.BleboxWlightBoxS.Close` | blebox_wlightboxs/light.py:103-107 | an owned session is closed and both fields are reset; an injected session is neither closed nor dropped |
| `Reconcile.Initial` | blebox_wlightboxs/light.py:139-144 | a new light is available, keeps the probed type, and its brightness re-encodes to the probed two-digit lowercase colour |
| `Reconcile.Step` | blebox_wlightboxs/light.py:176-201 | no poll or command changes the remembered type |
| `Reconcile.StepWarnings` | blebox_wlightboxs/light.py:194-201 | a step logs at most one warning, exactly when it changes availability: "lost" when it was available, "restored" when it was not |
| `Reconcile.BrightnessIsLastCommitted` | blebox_wlightboxs/light.py:189-197 | after any run, the brightness is the level of the last successful poll or delivered explicit turn_on, or the initial one; failed polls, failed sends and turn_off freeze it |
| `Reconcile.AvailabilityIsLastPoll` | blebox_wlightboxs/light.py:194-201 | after any run, availability is the outcome of the last poll, or the initial value if there was none |
| `Reconcile.IsOnIgnoresBrightness` | blebox_wlightboxs/light.py:162-164 | is_on holds iff the device type is "wLightBoxS", whatever the brightness and availability |
| `Reconcile.IsOnIsFixed` | blebox_wlightboxs/light.py:162-164 | is_on after any run equals is_on at construction |
| `Reconcile.WarningsAlternate` | blebox_wlightboxs/light.py:194-201 | warnings alternate lost/restored; the first leaves the initial availability and the last arrives at the final one; a run with no warning ends as available as it began |
| `Reconcile.RepeatedOutcomeIsSilent` | blebox_wlightboxs/light.py:194-201 | a run of polls with the same outcome logs only what its first poll logs |
| `Reconcile.OffThenBareOnResends` | blebox_wlightboxs/light.py:176-185 | after a turn_off, delivered or not, a bare turn_on sends the level held before it |
| `Reconcile.DimOffOnScenario` | blebox_wlightboxs/light.py:176-185 | set up at "ff" (255), dimmed to 200 and turned off, a bare turn_on sends "c8" |
| `Entity.BleboxWlightBoxSLight.constructor` | blebox_wlightboxs/light.py:134-144 | the light keeps the api, status, state, id, type and name; it is available, its brightness is the parsed desiredColor, and it has logged nothing |
| `Entity.BleboxWlightBoxSLight.Update` | blebox_wlightboxs/light.py:187-201 | a failed fetch leaves available false and brightness unchanged; two successful fetches leave available true and brightness equal to the parsed desiredColor; a warning is logged only on an edge; the client keeps its session object (or creates a fresh open one if it had none); status is replaced once get_status succeeds; get_state is requested only after it |
| `Entity.BleboxWlightBoxSLight.TurnOn` | blebox_wlightboxs/light.py:176-181 | sends the requested level, or the remembered brightness when none is given; commits it only if the send returned; otherwise brightness is unchanged and ConnErr propagates; the client keeps its session object (or creates a fresh open one if it had none) |
| `Entity.BleboxWlightBoxSLight.TurnOff` | blebox_wlightboxs/light.py:183-185 | sends "00" with fade speed 213 and changes neither brightness nor availability; a failed send propagates; the client keeps its session object (or creates a fresh open one if it had none) |
| `Platform.AsyncSetupPlatform` | blebox_wlightboxs/light.py:110-128 | lights are added iff every host's two probes succeed, then exactly one fresh light per host in host order, each on its own client over the shared unowned session, available with the probed brightness; otherwise PlatformNotReady and nothing added, after contacting the hosts up to and including the first failing one and no further |

## Left out

- The aiohttp transport (URL fetching, `response.json()`, `async with`): each call's outcome is a parameter of the method that makes it.
- Exceptions of other types are not caught by the source: an exception from `session.get` or `response.json()` other than `ClientConnectorError`, `asyncio.TimeoutError` and `JSONDecodeError` escapes `async_update` without a warning or an availability change, and escapes setup as something other than `PlatformNotReady`. The model has no outcome for them: every failure is `ConnErr`.
- The translation of `ClientConnectorError`, `asyncio.TimeoutError` and `JSONDecodeError` into `ConnectionError`: every such failure is the single outcome `ConnErr`.
- asyncio scheduling: the model is sequential. Each method runs to completion.
- Logging: debug traces are dropped. The two warnings are kept as a ghost log.
- Home Assistant glue: the `Light` base class, `PLATFORM_SCHEMA`, `async_get_clientsession` (the shared session is a parameter), `SCAN_INTERVAL`, `supported_features`, and the string formatting of `name`.
- Malformed payloads: a missing JSON key or a `desiredColor` that `int(_, 16)` rejects would raise an uncaught exception. Instead, well-formedness is a precondition (`Device.WellFormed`).
- Hex.Decode: accepts only a non-empty string of hex digits. The leading/trailing whitespace, sign, `0x` prefix and `_` separators that `int(_, 16)` also accepts are not modelled.
- Hex.Encode: defined for natural numbers only. `format` of a negative level (`"-5"`) is not modelled, because brightness levels are never negative.
- The unused field `_error_reported`, and the defaults no caller in the core uses: `desiredColor="FF"` of `set_params`, `brightness=255` of `set_brightness`, and `params=None`/`json={}` of `_fetch_get`/`_fetch_post`. The default `fadeSpeed=213`, which `set_brightness` relies on, is modelled as `Device.DefaultFadeSpeed`.
- The HTTP verb `Post` is declared but never produced, because the source never issues a POST.
