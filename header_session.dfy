/** Leaving a session from the header: `logout()` and the administrator's
    `_returnToAdmin()`. Navigation afterwards is external to the model. */
module HeaderSession {
  import opened Common
  import opened Storage
  import opened SessionClassifier
  import DemoSnapshot
  import AuditLog

  /** The persistent entries that mark a browser as logged in. */
  const LoginKeys: set<string> := {CurrentUserKey, "currentAccount", "ONE_loggedIn", "ONE_userId", "ONE_userName"}

  const LogoutEvent: string := "logout"

  /** `JSON.stringify({})`, the detail of the logout entry. */
  const EmptyDetail: string := "{}"

  const SavedAdminKey: string := "_savedAdminSession"

  /** The stores after a confirmed `logout()`: the audit entry is written,
      the demo snapshot is restored for a flagged non-administrator (when the
      demo-mode script is loaded), the session store is cleared and the login
      entries are removed. */
  function LoggedOut(s: Stores, snapshotLoaded: bool, parseUser: string -> Option<User>,
                     parseLogs: string -> Option<seq<AuditLog.AuditEntry>>,
                     showLogs: seq<AuditLog.AuditEntry> -> string, loggedAt: string): Stores
  {
    var logged := AuditLog.AfterLog(s, parseUser, parseLogs, showLogs, LogoutEvent, EmptyDetail, loggedAt);
    var persistent :=
      if snapshotLoaded && RestoresOnExit(SessionUser(logged.session, parseUser))
      then DemoSnapshot.Restored(logged.persistent, logged.session, DemoSnapshot.SnapshotKeys)
      else logged.persistent;
    Stores(persistent - LoginKeys, map[])
  }

  /** After logout nothing of the session survives and the browser is no
      longer marked as logged in. */
  lemma LogoutEndsSession(s: Stores, snapshotLoaded: bool, parseUser: string -> Option<User>,
                          parseLogs: string -> Option<seq<AuditLog.AuditEntry>>,
                          showLogs: seq<AuditLog.AuditEntry> -> string, loggedAt: string)
    ensures var after := LoggedOut(s, snapshotLoaded, parseUser, parseLogs, showLogs, loggedAt);
            && after.session == map[]
            && SessionUser(after.session, parseUser).None?
            && forall k | k in LoginKeys :: Lookup(after.persistent, k).None?
  {
  }

  /** Logging out a flagged demo user puts every snapshotted entry back to its
      snapshot value, while the audit trail, which is not part of the
      snapshot, keeps the logout entry. Entries that are neither snapshotted
      nor login markers are left as the audit write left them. */
  lemma LogoutRestoresDemoData(s: Stores, parseUser: string -> Option<User>,
                               parseLogs: string -> Option<seq<AuditLog.AuditEntry>>,
                               showLogs: seq<AuditLog.AuditEntry> -> string, loggedAt: string)
    requires RestoresOnExit(SessionUser(s.session, parseUser))
    ensures var after := LoggedOut(s, true, parseUser, parseLogs, showLogs, loggedAt).persistent;
            var logged := AuditLog.AfterLog(s, parseUser, parseLogs, showLogs, LogoutEvent, EmptyDetail, loggedAt);
            && (forall k | k in DemoSnapshot.SnapshotKeys && DemoSnapshot.SnapshotKey(k) in s.session ::
                  Lookup(after, k) == Some(s.session[DemoSnapshot.SnapshotKey(k)]))
            && Lookup(after, AuditLog.AuditKey) == Lookup(logged.persistent, AuditLog.AuditKey)
            && (forall k | k !in DemoSnapshot.SnapshotKeys && k !in LoginKeys :: Lookup(after, k) == Lookup(logged.persistent, k))
  {
    var logged := AuditLog.AfterLog(s, parseUser, parseLogs, showLogs, LogoutEvent, EmptyDetail, loggedAt);
    assert SessionUser(logged.session, parseUser) == SessionUser(s.session, parseUser) by {
      assert Lookup(logged.session, CurrentUserKey) == Lookup(s.session, CurrentUserKey);
    }
    DemoSnapshot.RestoredEntries(logged.persistent, logged.session, DemoSnapshot.SnapshotKeys);
    var after := LoggedOut(s, true, parseUser, parseLogs, showLogs, loggedAt).persistent;
    forall k | k in DemoSnapshot.SnapshotKeys && DemoSnapshot.SnapshotKey(k) in s.session
      ensures Lookup(after, k) == Some(s.session[DemoSnapshot.SnapshotKey(k)])
    {
      assert Lookup(logged.session, DemoSnapshot.SnapshotKey(k)) == Lookup(s.session, DemoSnapshot.SnapshotKey(k));
      assert k in DemoSnapshot.Snapshotted(logged.session, DemoSnapshot.SnapshotKeys);
    }
    assert AuditLog.AuditKey !in DemoSnapshot.SnapshotKeys;
    forall k | k !in DemoSnapshot.SnapshotKeys
      ensures k !in DemoSnapshot.Snapshotted(logged.session, DemoSnapshot.SnapshotKeys)
    {
    }
  }

  /** A user that is not restored on exit keeps the persistent data as the
      session left it (apart from the audit entry and the login markers). */
  lemma LogoutKeepsOtherUsersData(s: Stores, snapshotLoaded: bool, parseUser: string -> Option<User>,
                                  parseLogs: string -> Option<seq<AuditLog.AuditEntry>>,
                                  showLogs: seq<AuditLog.AuditEntry> -> string, loggedAt: string)
    requires !RestoresOnExit(SessionUser(s.session, parseUser))
    ensures var after := LoggedOut(s, snapshotLoaded, parseUser, parseLogs, showLogs, loggedAt).persistent;
            forall k | k != AuditLog.AuditKey && k !in LoginKeys :: Lookup(after, k) == Lookup(s.persistent, k)
  {
    var logged := AuditLog.AfterLog(s, parseUser, parseLogs, showLogs, LogoutEvent, EmptyDetail, loggedAt);
    assert Lookup(logged.session, CurrentUserKey) == Lookup(s.session, CurrentUserKey);
  }

  /** `logout()`; `confirmed` is the answer to the confirmation prompt and
      `snapshotLoaded` whether `restoreDemoSnapshot` is defined on the page. */
  method Logout(st: WebStorage, confirmed: bool, snapshotLoaded: bool, parseUser: string -> Option<User>,
                parseLogs: string -> Option<seq<AuditLog.AuditEntry>>,
                showLogs: seq<AuditLog.AuditEntry> -> string, loggedAt: string)
    modifies st
    ensures !confirmed ==> st.persistent == old(st.persistent) && st.session == old(st.session)
    ensures confirmed ==>
              Stores(st.persistent, st.session)
              == LoggedOut(Stores(old(st.persistent), old(st.session)), snapshotLoaded, parseUser, parseLogs, showLogs, loggedAt)
  {
    if confirmed {
      AuditLog.LogAudit(st, parseUser, parseLogs, showLogs, LogoutEvent, EmptyDetail, loggedAt);
      var cu := SessionUser(st.session, parseUser);
      if snapshotLoaded && RestoresOnExit(cu) {
        DemoSnapshot.RestoreDemoSnapshot(st);
      }
      st.session := map[];
      st.persistent := st.persistent - LoginKeys;
    }
  }

  /** The session store after `_returnToAdmin()`: with a saved administrator
      session it becomes the current user again and the impersonation entries
      are dropped; otherwise nothing changes. */
  function ReturnedToAdmin(session: map<string, string>): (r: map<string, string>)
    ensures SavedAdminKey !in session || session[SavedAdminKey] == "" ==> r == session
    ensures SavedAdminKey in session && session[SavedAdminKey] != "" ==>
      && Lookup(r, CurrentUserKey) == Some(session[SavedAdminKey])
      && SavedAdminKey !in r && CurrentContractorKey !in r
      && forall k | k !in {CurrentUserKey, SavedAdminKey, CurrentContractorKey} :: Lookup(r, k) == Lookup(session, k)
  {
    if SavedAdminKey in session && session[SavedAdminKey] != "" then
      session[CurrentUserKey := session[SavedAdminKey]] - {SavedAdminKey, CurrentContractorKey}
    else session
  }

  /** Returning twice is returning once: the saved session is consumed. */
  lemma ReturnToAdminIdempotent(session: map<string, string>)
    ensures ReturnedToAdmin(ReturnedToAdmin(session)) == ReturnedToAdmin(session)
  {
  }

  /** After returning, the session principal is the saved administrator. */
  lemma ReturnToAdminRestoresPrincipal(session: map<string, string>, parseUser: string -> Option<User>)
    requires SavedAdminKey in session && session[SavedAdminKey] != ""
    ensures SessionUser(ReturnedToAdmin(session), parseUser) == parseUser(session[SavedAdminKey])
  {
    assert Lookup(ReturnedToAdmin(session), CurrentUserKey) == Some(session[SavedAdminKey]);
  }

  /** `_returnToAdmin()`; `navigated` tells whether the page moves on. */
  method ReturnToAdmin(st: WebStorage) returns (navigated: bool)
    modifies st
    ensures navigated <==> SavedAdminKey in old(st.session) && old(st.session)[SavedAdminKey] != ""
    ensures st.session == ReturnedToAdmin(old(st.session))
    ensures st.persistent == old(st.persistent)
  {
    var saved := Lookup(st.session, SavedAdminKey);
    navigated := saved.Some? && saved.value != "";
    if navigated {
      st.session := st.session[CurrentUserKey := saved.value];
      st.session := st.session - {SavedAdminKey};
      st.session := st.session - {CurrentContractorKey};
    }
  }
}
