/**
 * The application root's presence callback: each activity change reported by
 * the activity tracker stamps the signed-in user with a status and a
 * last-seen time, locally and in the user's document.
 */
module App {
  import opened Common

  const StatusOnline := "online"
  const StatusOffline := "offline"

  function StatusText(isActive: bool): (r: string)
    ensures r == StatusOnline <==> isActive
    ensures r == StatusOffline <==> !isActive
  {
    if isActive then StatusOnline else StatusOffline
  }

  /**
   * `{ ...user, status, lastSeen: new Date() }`: the user with the new status
   * and the client's time as last seen, every other field kept.
   */
  function WithPresence(u: User, isActive: bool, nowMs: int): (r: User)
    ensures r.status == StatusText(isActive) && r.lastSeen == LocalDate(nowMs)
    ensures r.(status := u.status, lastSeen := u.lastSeen) == u
  {
    u.(status := StatusText(isActive), lastSeen := LocalDate(nowMs))
  }

  /** Only the latest report counts: a second stamp overwrites the first. */
  lemma LatestPresenceWins(u: User, a: bool, t1: int, b: bool, t2: int)
    ensures WithPresence(WithPresence(u, a, t1), b, t2) == WithPresence(u, b, t2)
  {
  }

  /** The write `updateUserActiveStatus(docID, status, lastSeen)` sends to the user's document. */
  datatype StatusWrite = StatusWrite(docID: string, status: string, lastSeen: TimeValue)

  /** The signed-in user (null until sign-in) and the status writes sent so far. */
  class AppState {
    var user: Option<User>
    var writes: seq<StatusWrite>

    constructor ()
      ensures user == None && writes == []
    {
      user, writes := None, [];
    }

    /** `setUser`, as the sign-in screen calls it. */
    method SetUser(u: Option<User>)
      modifies this
      ensures user == u && writes == old(writes)
    {
      user := u;
    }

    /**
     * `onUserActive(isActive)` at `nowMs`: nothing without a user; otherwise
     * the user is stamped and one write with the same status and time is sent
     * for the user's document.
     */
    method OnUserActive(isActive: bool, nowMs: int)
      modifies this
      ensures old(user).None? ==> user == old(user) && writes == old(writes)
      ensures old(user).Some? ==> user == Some(WithPresence(old(user).value, isActive, nowMs))
      ensures old(user).Some? ==>
        writes == old(writes) + [StatusWrite(old(user).value.docID, StatusText(isActive), LocalDate(nowMs))]
    {
      if user.None? {
        return;
      }
      var newStatus := if isActive then StatusOnline else StatusOffline;
      var userUpdate := user.value.(status := newStatus, lastSeen := LocalDate(nowMs));
      var docID := user.value.docID;
      user := Some(userUpdate);
      writes := writes + [StatusWrite(docID, userUpdate.status, userUpdate.lastSeen)];
    }
  }
}
