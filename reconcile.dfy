/** The state machine of a `BleboxWlightBoxSLight` entity, as values: what a
    poll, a `turn_on` and a `turn_off` do to the remembered type, brightness
    and availability, and which warnings they log. The entity class ties each
    of its methods to one `Step`; the lemmas below are about runs of steps. */
module Reconcile {
  import opened Device
  import Hex

  datatype Warning = ConnectionLost | ConnectionRestored

  /** What one `async_update` learned: both fetches succeeded and the light
      state carried `level`, or one of them raised `ConnectionError`. */
  datatype PollResult = Refreshed(level: nat) | Unreachable

  /** The fields of the entity that its methods change or its properties
      read: `_type`, `_brightness`, `_available`. */
  datatype EntityState = EntityState(typ: string, brightness: nat, available: bool)

  datatype Event =
    | Poll(result: PollResult)
    | TurnOn(requested: Option<nat>, delivered: bool)
    | TurnOff(delivered: bool)

  /** The two fetches of `async_update`: `get_state` is only reached when
      `get_status` succeeded. */
  function PollOf(status: Outcome<Status>, state: Outcome<LightState>): (p: PollResult)
    requires WellFormed(state)
    ensures p.Refreshed? <==> status.Ok? && state.Ok?
    ensures p.Refreshed? ==> p.level == Hex.Decode(state.value.desiredColor)
  {
    if status.Ok? && state.Ok? then Refreshed(Hex.Decode(state.value.desiredColor)) else Unreachable
  }

  /** The state `__init__` builds from a successful setup probe. */
  function Initial(status: Status, state: LightState): (s: EntityState)
    requires Hex.IsHex(state.desiredColor)
    ensures s.available && s.typ == status.typ
    ensures Hex.IsLowerHex(state.desiredColor) && |state.desiredColor| == 2 ==>
              s.brightness < 256 && Hex.Encode(s.brightness) == state.desiredColor
  {
    var level := Hex.Decode(state.desiredColor);
    assert Hex.IsLowerHex(state.desiredColor) && |state.desiredColor| == 2 ==>
             level < 256 && Hex.Encode(level) == state.desiredColor by {
      if Hex.IsLowerHex(state.desiredColor) && |state.desiredColor| == 2 {
        Hex.EncodeDecode(state.desiredColor);
      }
    }
    EntityState(status.typ, level, true)
  }

  /** `is_on`: decided by the device type alone, not by the brightness. */
  predicate IsOn(s: EntityState) {
    s.typ == "wLightBoxS"
  }

  /** Only the type decides `is_on`: brightness and availability do not. */
  lemma IsOnIgnoresBrightness(s: EntityState, brightness: nat, available: bool)
    ensures IsOn(EntityState(s.typ, brightness, available)) == IsOn(s)
    ensures IsOn(s) <==> s.typ == "wLightBoxS"
  {
  }

  /** The level `async_turn_on` sends: the requested one, else the
      remembered brightness. */
  function TurnOnLevel(s: EntityState, requested: Option<nat>): nat {
    match requested
    case Some(level) => level
    case None => s.brightness
  }

  function Step(s: EntityState, e: Event): (r: EntityState)
    ensures r.typ == s.typ
  {
    match e
    case Poll(Refreshed(level)) => EntityState(s.typ, level, true)
    case Poll(Unreachable) => EntityState(s.typ, s.brightness, false)
    case TurnOn(requested, delivered) =>
      if delivered then EntityState(s.typ, TurnOnLevel(s, requested), s.available) else s
    case TurnOff(_) => s
  }

  /** The warnings one step logs: at most one, and exactly when the step
      changes availability. */
  function StepWarnings(s: EntityState, e: Event): (w: seq<Warning>)
    ensures |w| <= 1
    ensures |w| == 1 <==> Step(s, e).available != s.available
    ensures |w| == 1 ==> w[0] == (if s.available then ConnectionLost else ConnectionRestored)
  {
    match e
    case Poll(Refreshed(_)) => if s.available then [] else [ConnectionRestored]
    case Poll(Unreachable) => if s.available then [ConnectionLost] else []
    case _ => []
  }

  /** The state after the events of `evs`, in order. */
  function Run(s: EntityState, evs: seq<Event>): EntityState
    decreases |evs|
  {
    if evs == [] then s else Run(Step(s, evs[0]), evs[1..])
  }

  /** The warnings logged while running `evs`. */
  function RunWarnings(s: EntityState, evs: seq<Event>): seq<Warning>
    decreases |evs|
  {
    if evs == [] then [] else StepWarnings(s, evs[0]) + RunWarnings(Step(s, evs[0]), evs[1..])
  }

  /** Running one more event is one more step. */
  lemma {:induction false} RunSnoc(s: EntityState, evs: seq<Event>, e: Event)
    ensures Run(s, evs + [e]) == Step(Run(s, evs), e)
    ensures RunWarnings(s, evs + [e]) == RunWarnings(s, evs) + StepWarnings(Run(s, evs), e)
    decreases |evs|
  {
    if evs != [] {
      assert (evs + [e])[1..] == evs[1..] + [e];
      RunSnoc(Step(s, evs[0]), evs[1..], e);
    }
  }

  /** The level an event commits, if it commits one: a successful poll
      commits what the device reported, a delivered `turn_on` with an
      explicit level commits that level. Nothing else changes the remembered
      brightness (a bare `turn_on` resends it). */
  function Committed(e: Event): Option<nat> {
    match e
    case Poll(Refreshed(level)) => Some(level)
    case TurnOn(Some(level), true) => Some(level)
    case _ => None
  }

  /** The most recently committed level in `evs`, or `initial` if none. */
  function LastCommitted(initial: nat, evs: seq<Event>): nat
    decreases |evs|
  {
    if evs == [] then initial
    else match Committed(evs[|evs| - 1])
      case Some(level) => level
      case None => LastCommitted(initial, evs[..|evs| - 1])
  }

  /** The outcome of the most recent poll in `evs`, or `initial` if none. */
  function LastPollSucceeded(initial: bool, evs: seq<Event>): bool
    decreases |evs|
  {
    if evs == [] then initial
    else if evs[|evs| - 1].Poll? then evs[|evs| - 1].result.Refreshed?
    else LastPollSucceeded(initial, evs[..|evs| - 1])
  }

  /** The remembered brightness is the last level committed: a failed poll,
      a failed send and a `turn_off` all leave it frozen. */
  lemma {:induction false} BrightnessIsLastCommitted(s: EntityState, evs: seq<Event>)
    ensures Run(s, evs).brightness == LastCommitted(s.brightness, evs)
    decreases |evs|
  {
    if evs != [] {
      var init, e := evs[..|evs| - 1], evs[|evs| - 1];
      assert evs == init + [e];
      RunSnoc(s, init, e);
      BrightnessIsLastCommitted(s, init);
    }
  }

  /** `available` is the outcome of the last poll; commands never touch it. */
  lemma {:induction false} AvailabilityIsLastPoll(s: EntityState, evs: seq<Event>)
    ensures Run(s, evs).available == LastPollSucceeded(s.available, evs)
    decreases |evs|
  {
    if evs != [] {
      var init, e := evs[..|evs| - 1], evs[|evs| - 1];
      assert evs == init + [e];
      RunSnoc(s, init, e);
      AvailabilityIsLastPoll(s, init);
    }
  }

  /** `is_on` never changes after construction, whatever the polls report. */
  lemma {:induction false} IsOnIsFixed(s: EntityState, evs: seq<Event>)
    ensures IsOn(Run(s, evs)) == IsOn(s)
    decreases |evs|
  {
    if evs != [] {
      IsOnIsFixed(Step(s, evs[0]), evs[1..]);
    }
  }

  /** The warning logged when availability leaves `available`. */
  function Leaving(available: bool): Warning {
    if available then ConnectionLost else ConnectionRestored
  }

  /** No two neighbouring warnings are the same. */
  predicate Alternating(w: seq<Warning>) {
    forall i :: 0 <= i < |w| - 1 ==> w[i] != w[i + 1]
  }

  lemma ConsAlternating(x: Warning, rest: seq<Warning>)
    requires Alternating(rest) && (rest == [] || rest[0] != x)
    ensures Alternating([x] + rest)
  {
    var w := [x] + rest;
    forall i | 0 < i < |w| - 1
      ensures w[i] != w[i + 1]
    {
      assert w[i] == rest[i - 1] && w[i + 1] == rest[i];
    }
  }

  /** Warnings fire once per edge of `available`: they alternate between
      lost and restored, the first one leaves the initial availability, the
      last one arrives at the final availability, and a run without warnings
      ends as available as it began. */
  lemma {:induction false} WarningsAlternate(s: EntityState, evs: seq<Event>)
    ensures var w := RunWarnings(s, evs);
      Alternating(w) &&
      (|w| > 0 ==> w[0] == Leaving(s.available) && w[|w| - 1] == Leaving(!Run(s, evs).available)) &&
      (|w| == 0 ==> Run(s, evs).available == s.available)
    decreases |evs|
  {
    if evs != [] {
      var t := Step(s, evs[0]);
      var head, rest := StepWarnings(s, evs[0]), RunWarnings(t, evs[1..]);
      WarningsAlternate(t, evs[1..]);
      assert RunWarnings(s, evs) == head + rest;
      assert Run(s, evs) == Run(t, evs[1..]);
      if head == [] {
        assert head + rest == rest;
      } else {
        assert head == [Leaving(s.available)] && t.available == !s.available;
        ConsAlternating(head[0], rest);
        if rest != [] {
          assert (head + rest)[|head + rest| - 1] == rest[|rest| - 1];
        }
      }
    }
  }

  /** Polls that all succeed, or all fail, log at most the one warning of
      the first poll: repeating an outcome is silent. */
  lemma {:induction false} RepeatedOutcomeIsSilent(s: EntityState, succeeded: bool, evs: seq<Event>)
    requires |evs| > 0
    requires forall i :: 0 <= i < |evs| ==> evs[i].Poll? && evs[i].result.Refreshed? == succeeded
    ensures RunWarnings(s, evs) == StepWarnings(s, evs[0])
    decreases |evs|
  {
    var t := Step(s, evs[0]);
    if |evs| > 1 {
      RepeatedOutcomeIsSilent(t, succeeded, evs[1..]);
      assert StepWarnings(t, evs[1]) == [];
    }
  }

  /** A `turn_off` (delivered or not) followed by a bare `turn_on` sends the
      level the light had before it was turned off. */
  lemma OffThenBareOnResends(s: EntityState, offDelivered: bool)
    ensures TurnOnLevel(Step(s, TurnOff(offDelivered)), None) == s.brightness
  {
  }

  /** Set up at `"ff"`, dimmed to 200, turned off: a bare `turn_on` still
      sends `"c8"` (200), not `"ff"`. */
  lemma DimOffOnScenario(status: Status)
    ensures var s0 := Initial(status, LightState("ff"));
      var s1 := Run(s0, [TurnOn(Some(200), true), TurnOff(true)]);
      s0.brightness == 255 && s1.brightness == 200 &&
      BrightnessBody(TurnOnLevel(s1, None)).desiredColor == "c8"
  {
    Hex.EncodeExamples();
    var s0 := Initial(status, LightState("ff"));
    assert Hex.Encode(s0.brightness) == "ff";
    Hex.EncodeInjective(s0.brightness, 255);
    assert [TurnOn(Some(200), true), TurnOff(true)][1..] == [TurnOff(true)];
  }
}
