/** The device client `BleboxWlightBoxS`. Each network call takes its outcome
    as a parameter (`net`); the client returns it unchanged and records the
    request it attempted in the ghost log `sent`. */
module Api {
  import opened Device
  import Hex
  import opened SessionOwnership

  /** An HTTP client session; `Close` is `await session.close()`. */
  class Session {
    var closed: bool

    constructor ()
      ensures !closed
    {
      closed := false;
    }

    method Close()
      modifies this
      ensures closed
    {
      closed := true;
    }
  }

  class BleboxWlightBoxS {
    const ip: string
    var session: Session?
    var autoSession: bool
    /** The session passed to the constructor, if any. */
    ghost const injected: Session?
    /** Every request attempted so far, oldest first. */
    ghost var sent: seq<Request>

    /** An injected session is kept and never owned; otherwise the client
        owns exactly the session it holds. */
    ghost predicate Valid()
      reads this
    {
      if injected != null then session == injected && !autoSession
      else autoSession == (session != null)
    }

    ghost function Own(): Ownership
      reads this
    {
      Ownership(session != null, autoSession)
    }

    constructor (ip: string, session: Session?)
      ensures Valid()
      ensures this.ip == ip && this.session == session && injected == session
      ensures !autoSession && sent == []
    {
      this.ip := ip;
      this.session := session;
      this.autoSession := false;
      this.injected := session;
      this.sent := [];
    }

    /** The prologue shared by `_fetch_get` and `_fetch_post`. */
    method AcquireSession()
      requires Valid()
      modifies this
      ensures Valid() && Own() == Acquire(old(Own())) && sent == old(sent)
      ensures old(session) != null ==> session == old(session)
      ensures old(session) == null ==> fresh(session) && !session.closed
    {
      if session == null {
        session := new Session();
        autoSession := true;
      }
    }

    /** `_fetch_get(path)`: a GET without a body. */
    method FetchGet<T>(path: string, net: Outcome<T>) returns (r: Outcome<T>)
      requires Valid()
      modifies this
      ensures Valid() && Own() == Acquire(old(Own())) && r == net
      ensures old(session) != null ==> session == old(session)
      ensures old(session) == null ==> fresh(session) && !session.closed
      ensures sent == old(sent) + [Request(Get, Url(ip, path), None)]
    {
      AcquireSession();
      sent := sent + [Request(Get, Url(ip, path), None)];
      r := net;
    }

    /** `_fetch_post(path, json)`: despite its name it issues a GET, with the
        JSON body attached. */
    method FetchPost<T>(path: string, body: SetBody, net: Outcome<T>) returns (r: Outcome<T>)
      requires Valid()
      modifies this
      ensures Valid() && Own() == Acquire(old(Own())) && r == net
      ensures old(session) != null ==> session == old(session)
      ensures old(session) == null ==> fresh(session) && !session.closed
      ensures sent == old(sent) + [Request(Get, Url(ip, path), Some(body))]
    {
      AcquireSession();
      sent := sent + [Request(Get, Url(ip, path), Some(body))];
      r := net;
    }

    method GetStatus(net: Outcome<Status>) returns (r: Outcome<Status>)
      requires Valid()
      modifies this
      ensures Valid() && Own() == Acquire(old(Own())) && r == net
      ensures old(session) != null ==> session == old(session)
      ensures old(session) == null ==> fresh(session) && !session.closed
      ensures sent == old(sent) + [Request(Get, Url(ip, StatusPath), None)]
    {
      r := FetchGet(StatusPath, net);
    }

    method GetState(net: Outcome<LightState>) returns (r: Outcome<LightState>)
      requires Valid()
      modifies this
      ensures Valid() && Own() == Acquire(old(Own())) && r == net
      ensures old(session) != null ==> session == old(session)
      ensures old(session) == null ==> fresh(session) && !session.closed
      ensures sent == old(sent) + [Request(Get, Url(ip, StatePath), None)]
    {
      r := FetchGet(StatePath, net);
    }

    /** `set_params(desiredColor, fadeSpeed)`. */
    method SetParams(desiredColor: string, fadeSpeed: int, net: Outcome<LightState>)
      returns (r: Outcome<LightState>)
      requires Valid()
      modifies this
      ensures Valid() && Own() == Acquire(old(Own())) && r == net
      ensures old(session) != null ==> session == old(session)
      ensures old(session) == null ==> fresh(session) && !session.closed
      ensures sent == old(sent) + [Request(Get, Url(ip, SetPath), Some(SetBody(desiredColor, fadeSpeed)))]
    {
      r := FetchPost(SetPath, SetBody(desiredColor, fadeSpeed), net);
    }

    /** `set_brightness(level)`: the level in hex, the default fade speed. */
    method SetBrightness(level: nat, net: Outcome<LightState>) returns (r: Outcome<LightState>)
      requires Valid()
      modifies this
      ensures Valid() && Own() == Acquire(old(Own())) && r == net
      ensures old(session) != null ==> session == old(session)
      ensures old(session) == null ==> fresh(session) && !session.closed
      ensures sent == old(sent) + [Request(Get, Url(ip, SetPath), Some(BrightnessBody(level)))]
    {
      r := SetParams(Hex.Encode(level), DefaultFadeSpeed, net);
    }

    /** `close`: closes and forgets a session the client created itself; a
        session that was injected is neither closed nor forgotten. */
    method Close()
      requires Valid()
      modifies this, if autoSession then {session} else {}
      ensures Valid() && Own() == Release(old(Own())) && sent == old(sent)
      ensures old(autoSession) ==> session == null && old(session).closed
      ensures !old(autoSession) ==> session == old(session)
    {
      if autoSession {
        session.Close();
        session := null;
        autoSession := false;
      }
    }
  }
}
