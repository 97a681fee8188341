/** `async_setup_platform`: probe every configured host with the shared
    session and hand one light per host to the platform, or give up on the
    whole platform at the first `ConnectionError`. */
module Platform {
  import opened Device
  import Api
  import opened Reconcile
  import opened Entity

  /** The device's answers to the two probe calls for one host. */
  datatype Probe = Probe(status: Outcome<Status>, state: Outcome<LightState>)

  predicate ProbeOk(p: Probe) {
    p.status.Ok? && p.state.Ok?
  }

  /** What setup hands to `async_add_entities`, or `PlatformNotReady`, in
      which case nothing is added. */
  datatype Setup = Added(lights: seq<BleboxWlightBoxSLight>) | PlatformNotReady

  /** The light created for `host` from its probe, as `__init__` leaves it. */
  ghost predicate FreshLight(light: BleboxWlightBoxSLight, host: string, shared: Api.Session, p: Probe)
    reads light, light.api
    requires ProbeOk(p) && WellFormed(p.state)
  {
    light.Valid() && light.api.ip == host &&
    light.api.session == shared && !light.api.autoSession &&
    light.Snapshot() == Initial(p.status.value, p.state.value) &&
    light.status == p.status.value && light.state == p.state.value &&
    light.warnings == [] &&
    light.api.sent == [Request(Get, Url(host, StatusPath), None), Request(Get, Url(host, StatePath), None)]
  }

  /** `contacted` is the number of hosts probed: all of them on success, and
      on failure exactly those up to and including the first failing one. */
  method AsyncSetupPlatform(hosts: seq<string>, shared: Api.Session, net: seq<Probe>)
    returns (r: Setup, ghost contacted: nat)
    requires |net| == |hosts|
    requires forall i :: 0 <= i < |net| ==> WellFormed(net[i].state)
    ensures r.Added? <==> forall i :: 0 <= i < |hosts| ==> ProbeOk(net[i])
    ensures r.Added? ==> |r.lights| == |hosts| && contacted == |hosts|
    ensures r.PlatformNotReady? ==> 0 < contacted <= |hosts| && !ProbeOk(net[contacted - 1])
    ensures forall k :: 0 <= k < contacted - 1 ==> ProbeOk(net[k])
    ensures r.Added? ==> forall i :: 0 <= i < |hosts| ==>
              fresh(r.lights[i]) && fresh(r.lights[i].api) && FreshLight(r.lights[i], hosts[i], shared, net[i])
    ensures r.Added? ==> forall i, j :: 0 <= i < j < |hosts| ==> r.lights[i].api != r.lights[j].api
  {
    var lights: seq<BleboxWlightBoxSLight> := [];
    var i := 0;
    contacted := 0;
    while i < |hosts|
      invariant 0 <= i <= |hosts| && |lights| == i && contacted == i
      invariant forall k :: 0 <= k < i ==> ProbeOk(net[k])
      invariant forall k :: 0 <= k < i ==>
                  fresh(lights[k]) && fresh(lights[k].api) && FreshLight(lights[k], hosts[k], shared, net[k])
      invariant forall k, m :: 0 <= k < m < i ==> lights[k].api != lights[m].api
    {
      var api := new Api.BleboxWlightBoxS(hosts[i], shared);
      contacted := i + 1;
      var status := api.GetStatus(net[i].status);
      if status.ConnErr? {
        return PlatformNotReady, contacted;
      }
      var state := api.GetState(net[i].state);
      if state.ConnErr? {
        return PlatformNotReady, contacted;
      }
      var light := new BleboxWlightBoxSLight(api, status.value, state.value);
      lights := lights + [light];
      i := i + 1;
    }
    r := Added(lights);
    contacted := |hosts|;
  }
}
