/** Who owns the HTTP session of a `BleboxWlightBoxS` client, as a value: is a
    session present, and was it created by the client itself
    (`_auto_session`)? The client class ties its two fields to this model. */
module SessionOwnership {

  datatype Ownership = Ownership(hasSession: bool, auto: bool)

  /** A self-created session is always present. */
  predicate Consistent(o: Ownership) {
    o.auto ==> o.hasSession
  }

  /** The prologue of `_fetch_get` and `_fetch_post`: create a session, and
      take ownership of it, only when there is none. */
  function Acquire(o: Ownership): (r: Ownership)
    ensures Consistent(r) && r.hasSession
    ensures Consistent(o) ==> (r.auto <==> o.auto || !o.hasSession)
  {
    if o.hasSession then o else Ownership(true, true)
  }

  /** `close`: release the session only if the client created it, then
      forget it; a session that was handed in is left alone. */
  function Release(o: Ownership): (r: Ownership)
    ensures Consistent(r) && !r.auto
    ensures Consistent(o) ==> (r.hasSession <==> o.hasSession && !o.auto)
  {
    if o.auto then Ownership(false, false) else o
  }

  /** A second `close` does nothing. */
  lemma ReleaseIdempotent(o: Ownership)
    ensures Release(Release(o)) == Release(o)
  {
  }

  datatype Op = Fetch | Close

  function Apply(o: Ownership, op: Op): Ownership {
    match op
    case Fetch => Acquire(o)
    case Close => Release(o)
  }

  /** The ownership after running `ops` in order. */
  function Replay(o: Ownership, ops: seq<Op>): Ownership
    decreases |ops|
  {
    if ops == [] then o else Replay(Apply(o, ops[0]), ops[1..])
  }

  /** How many sessions the client creates while running `ops`. */
  function Created(o: Ownership, ops: seq<Op>): nat
    decreases |ops|
  {
    if ops == [] then 0
    else (if ops[0] == Fetch && !o.hasSession then 1 else 0) + Created(Apply(o, ops[0]), ops[1..])
  }

  /** How many sessions the client closes while running `ops`. */
  function Released(o: Ownership, ops: seq<Op>): nat
    decreases |ops|
  {
    if ops == [] then 0
    else (if ops[0] == Close && o.auto then 1 else 0) + Released(Apply(o, ops[0]), ops[1..])
  }

  /** Every session the client creates is closed by exactly one `close`,
      except the one it may still hold: the sessions it created and has not
      closed number one if it owns a session now and zero otherwise. */
  lemma {:induction false} CreatedSessionsAreClosedOnce(o: Ownership, ops: seq<Op>)
    requires Consistent(o)
    ensures Consistent(Replay(o, ops))
    ensures Created(o, ops) + (if o.auto then 1 else 0)
         == Released(o, ops) + (if Replay(o, ops).auto then 1 else 0)
    decreases |ops|
  {
    if ops != [] {
      CreatedSessionsAreClosedOnce(Apply(o, ops[0]), ops[1..]);
    }
  }

  /** A client built around an injected session never creates one, never
      closes one, and keeps the injected one through any run of calls. */
  lemma {:induction false} InjectedSessionIsNeverReleased(ops: seq<Op>)
    ensures Replay(Ownership(true, false), ops) == Ownership(true, false)
    ensures Created(Ownership(true, false), ops) == 0
    ensures Released(Ownership(true, false), ops) == 0
    decreases |ops|
  {
    if ops != [] {
      InjectedSessionIsNeverReleased(ops[1..]);
    }
  }
}
