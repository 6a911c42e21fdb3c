/**
 The session manager object: two dictionaries and a counter, updated by the
 API calls exactly as the value model says.
 */
module SessionManagers {
  import opened QueueModel
  import opened SessionModel

  class SessionManager {
    var sessionMap: map<Handle, Session>
    var deferredCloseSessionMap: map<Handle, Session>
    var nextSession: Handle

    ghost function Model(): Table
      reads this
    {
      Table(sessionMap, deferredCloseSessionMap, nextSession)
    }

    constructor ()
      ensures Model() == Init().t
    {
      sessionMap, deferredCloseSessionMap, nextSession := map[], map[], 1;
    }

    method RegisterSession(session: Session) returns (handle: Handle)
      modifies this
      ensures handle == old(nextSession) && Model() == Register(old(Model()), session)
    {
      handle := nextSession;
      nextSession := Following(nextSession);
      sessionMap := sessionMap[handle := session];
    }

    /** `pending` says that the session was found in the second table. */
    method GetSession(handle: Handle, checkDeferredCloseTable: bool) returns (session: Option<Session>, pending: bool)
      ensures session == Find(Model(), handle, checkDeferredCloseTable)
      ensures pending <==> session.Some? && handle !in sessionMap
    {
      if handle in sessionMap {
        return Some(sessionMap[handle]), false;
      }
      if checkDeferredCloseTable && handle in deferredCloseSessionMap {
        return Some(deferredCloseSessionMap[handle]), true;
      }
      return None, false;
    }

    method DestroySession(handle: Handle, deferWhileUserBuffersOutstanding: bool) returns (code: int)
      modifies this
      ensures Outcome(Model(), code) == Destroy(old(Model()), handle, deferWhileUserBuffersOutstanding)
    {
      if handle !in sessionMap {
        return INVALID_SESSION;
      }
      var erased := sessionMap[handle];
      sessionMap := sessionMap - {handle};
      var deferred := deferWhileUserBuffersOutstanding && !NoneOutstanding(erased);
      erased := Cancelled(erased);
      if deferred {
        deferredCloseSessionMap := deferredCloseSessionMap[handle := erased];
      }
      code := SUCCESS;
    }

    /** `CheckDeferredSessionDestructionReady`, for a session found in the second table. */
    method CheckDeferredSessionDestructionReady(handle: Handle, session: Session)
      modifies this
      ensures var was := old(deferredCloseSessionMap);
              Model() == old(Model()).(deferred := if NoneOutstanding(session) then was - {handle} else was)
    {
      if NoneOutstanding(session) {
        deferredCloseSessionMap := deferredCloseSessionMap - {handle};
      }
    }

    method ReleaseUserBufferRegionToIdle(handle: Handle, region: Option<Region>) returns (code: int)
      modifies this
      ensures Outcome(Model(), code) == ReleaseRegion(old(Model()), handle, region)
    {
      if region.None? || region.value.session != handle {
        return INVALID_ARGUMENT;
      }
      var b := region.value.b;
      var session, pending := GetSession(handle, true);
      if session.None? {
        return INVALID_SESSION;
      }
      if !Holds(session.value, b) {
        return INVALID_OPERATION;
      }
      var released := Released(session.value, b);
      if pending {
        deferredCloseSessionMap := deferredCloseSessionMap[handle := released];
        CheckDeferredSessionDestructionReady(handle, released);
        assert old(deferredCloseSessionMap)[handle := released] - {handle} == old(deferredCloseSessionMap) - {handle};
      } else {
        sessionMap := sessionMap[handle := released];
      }
      code := SUCCESS;
    }
  }
}
