/** The light entity `BleboxWlightBoxSLight`: the fields that `__init__`,
    `async_update`, `async_turn_on` and `async_turn_off` set, with each method
    tied to one step of the state machine in `Reconcile`. */
module Entity {
  import opened Device
  import Hex
  import Api
  import SessionOwnership
  import opened Reconcile

  class BleboxWlightBoxSLight {
    const api: Api.BleboxWlightBoxS
    var status: Status
    var state: LightState
    /** `unique_id` */
    const id: string
    const typ: string
    const deviceName: string
    /** the `brightness` property */
    var brightness: nat
    /** the `available` property */
    var available: bool
    /** The warnings logged so far, oldest first. */
    ghost var warnings: seq<Warning>

    ghost predicate Valid()
      reads this, api
    {
      api.Valid()
    }

    function Snapshot(): EntityState
      reads this
    {
      EntityState(typ, brightness, available)
    }

    /** `is_on` */
    predicate IsOn()
      reads this
    {
      Reconcile.IsOn(Snapshot())
    }

    constructor (api: Api.BleboxWlightBoxS, status: Status, state: LightState)
      requires api.Valid() && Hex.IsHex(state.desiredColor)
      ensures Valid() && this.api == api
      ensures this.status == status && this.state == state
      ensures id == status.id && typ == status.typ && deviceName == status.deviceName
      ensures Snapshot() == Initial(status, state)
      ensures available && brightness == Hex.Decode(state.desiredColor)
      ensures warnings == []
    {
      this.api := api;
      this.status := status;
      this.state := state;
      this.id := status.id;
      this.typ := status.typ;
      this.deviceName := status.deviceName;
      this.brightness := Hex.Decode(state.desiredColor);
      this.available := true;
      this.warnings := [];
    }

    /** `async_update`: fetch status, then state; only when both arrive is
        the brightness refreshed. A `ConnectionError` from either is caught. */
    method Update(statusNet: Outcome<Status>, stateNet: Outcome<LightState>)
      requires Valid() && WellFormed(stateNet)
      modifies this, api
      ensures Valid()
      ensures Snapshot() == Step(old(Snapshot()), Poll(PollOf(statusNet, stateNet)))
      ensures warnings == old(warnings) + StepWarnings(old(Snapshot()), Poll(PollOf(statusNet, stateNet)))
      ensures statusNet.ConnErr? || stateNet.ConnErr? ==> !available && brightness == old(brightness)
      ensures statusNet.Ok? && stateNet.Ok? ==>
                available && brightness == Hex.Decode(stateNet.value.desiredColor)
      ensures status == (if statusNet.Ok? then statusNet.value else old(status))
      ensures state == (if statusNet.Ok? && stateNet.Ok? then stateNet.value else old(state))
      ensures api.sent == old(api.sent) + [Request(Get, Url(api.ip, StatusPath), None)]
                + (if statusNet.Ok? then [Request(Get, Url(api.ip, StatePath), None)] else [])
      ensures api.Own() == SessionOwnership.Acquire(old(api.Own()))
      ensures old(api.session) != null ==> api.session == old(api.session)
      ensures old(api.session) == null ==> fresh(api.session) && !api.session.closed
    {
      var st := api.GetStatus(statusNet);
      if st.Ok? {
        status := st.value;
        var ls := api.GetState(stateNet);
        if ls.Ok? {
          state := ls.value;
          brightness := Hex.Decode(state.desiredColor);
          if !available {
            warnings := warnings + [ConnectionRestored];
          }
          available := true;
          return;
        }
      }
      if available {
        warnings := warnings + [ConnectionLost];
      }
      available := false;
    }

    /** `async_turn_on`: send the requested level, or the remembered one;
        the level is committed only once the send returned. A failed send
        raises `ConnectionError` to the caller (`r == ConnErr`). */
    method TurnOn(requested: Option<nat>, net: Outcome<LightState>) returns (r: Outcome<()>)
      requires Valid()
      modifies this, api
      ensures Valid()
      ensures r.ConnErr? <==> net.ConnErr?
      ensures Snapshot() == Step(old(Snapshot()), Event.TurnOn(requested, net.Ok?))
      ensures net.Ok? ==> brightness == TurnOnLevel(old(Snapshot()), requested)
      ensures net.ConnErr? ==> brightness == old(brightness)
      ensures available == old(available) && warnings == old(warnings)
      ensures status == old(status) && state == old(state)
      ensures api.sent == old(api.sent)
                + [Request(Get, Url(api.ip, SetPath), Some(BrightnessBody(TurnOnLevel(old(Snapshot()), requested))))]
      ensures api.Own() == SessionOwnership.Acquire(old(api.Own()))
      ensures old(api.session) != null ==> api.session == old(api.session)
      ensures old(api.session) == null ==> fresh(api.session) && !api.session.closed
    {
      var level := match requested case Some(l) => l case None => brightness;
      var sent := api.SetBrightness(level, net);
      if sent.ConnErr? {
        return ConnErr;
      }
      brightness := level;
      r := Ok(());
    }

    /** `async_turn_off`: send level 0 (`"00"`); nothing the entity
        remembers changes, so a later bare `turn_on` resends the old level. */
    method TurnOff(net: Outcome<LightState>) returns (r: Outcome<()>)
      requires Valid()
      modifies this, api
      ensures Valid()
      ensures r.ConnErr? <==> net.ConnErr?
      ensures Snapshot() == Step(old(Snapshot()), Event.TurnOff(net.Ok?)) == old(Snapshot())
      ensures warnings == old(warnings) && status == old(status) && state == old(state)
      ensures api.sent == old(api.sent) + [Request(Get, Url(api.ip, SetPath), Some(SetBody("00", DefaultFadeSpeed)))]
      ensures api.Own() == SessionOwnership.Acquire(old(api.Own()))
      ensures old(api.session) != null ==> api.session == old(api.session)
      ensures old(api.session) == null ==> fresh(api.session) && !api.session.closed
    {
      var sent := api.SetBrightness(0, net);
      assert Hex.Encode(0) == "00";
      if sent.ConnErr? {
        return ConnErr;
      }
      r := Ok(());
    }
  }
}
