/** The header's audit trail: `audit.logs` is kept as a JSON list in both
    the session store and the persistent store. Each write first merges the
    persistent copy into the session copy, then appends the new entry and
    writes the same list to both stores. */
module AuditLog {
  import opened Common
  import opened Storage

  const AuditKey: string := "audit.logs"
  const HeaderScreen: string := "unified-header"

  /** `timestamp` is the ISO text of the time of the event. */
  datatype AuditEntry = AuditEntry(
    timestamp: string,
    kind: string,
    screen: string,
    user: string,
    userId: string,
    companyCode: string,
    officeCode: string,
    details: string)

  /** Two entries record the same event when timestamp and user id agree. */
  predicate SameEvent(a: AuditEntry, b: AuditEntry)
  {
    a.timestamp == b.timestamp && a.userId == b.userId
  }

  predicate Recorded(logs: seq<AuditEntry>, r: AuditEntry)
  {
    exists i | 0 <= i < |logs| :: SameEvent(logs[i], r)
  }

  /** The merge of `local` into `logs`, one local entry at a time: an entry is
      appended unless the list built so far already records its event. */
  function Merged(logs: seq<AuditEntry>, local: seq<AuditEntry>): seq<AuditEntry>
  {
    if local == [] then logs
    else
      var m := Merged(logs, local[..|local| - 1]);
      var r := local[|local| - 1];
      if Recorded(m, r) then m else m + [r]
  }

  /** The `find` of the merge loop. */
  method FindEvent(logs: seq<AuditEntry>, r: AuditEntry) returns (found: bool)
    ensures found <==> Recorded(logs, r)
  {
    found := false;
    var i := 0;
    while i < |logs| && !found
      invariant 0 <= i <= |logs|
      invariant found <==> exists j | 0 <= j < i :: SameEvent(logs[j], r)
    {
      found := SameEvent(logs[i], r);
      i := i + 1;
    }
  }

  /** The `forEach` over the persistent copy. */
  method MergeAuditLogs(logs: seq<AuditEntry>, local: seq<AuditEntry>) returns (merged: seq<AuditEntry>)
    ensures merged == Merged(logs, local)
  {
    merged := logs;
    var i := 0;
    while i < |local|
      invariant 0 <= i <= |local|
      invariant merged == Merged(logs, local[..i])
    {
      assert local[..i + 1][..i] == local[..i];
      var found := FindEvent(merged, local[i]);
      if !found {
        merged := merged + [local[i]];
      }
      i := i + 1;
    }
    assert local[..|local|] == local;
  }

  /** The session copy is kept, in order, at the front of the merge. */
  lemma {:induction false} MergeKeepsSessionLogs(logs: seq<AuditEntry>, local: seq<AuditEntry>)
    ensures |Merged(logs, local)| >= |logs|
    ensures Merged(logs, local)[..|logs|] == logs
  {
    if local != [] {
      MergeKeepsSessionLogs(logs, local[..|local| - 1]);
    }
  }

  /** Every event of the persistent copy is recorded in the merge. */
  lemma {:induction false} MergeCoversLocal(logs: seq<AuditEntry>, local: seq<AuditEntry>)
    ensures forall r | r in local :: Recorded(Merged(logs, local), r)
  {
    if local != [] {
      var init := local[..|local| - 1];
      MergeCoversLocal(logs, init);
      var m := Merged(logs, init);
      var last := local[|local| - 1];
      assert local == init + [last];
      forall r | r in local
        ensures Recorded(Merged(logs, local), r)
      {
        if r in init {
          var i :| 0 <= i < |m| && SameEvent(m[i], r);
          MergeKeepsSessionLogs(m, [last]);
          assert Merged(logs, local)[i] == m[i];
        } else {
          assert r == last;
          if !Recorded(m, r) {
            assert Merged(logs, local)[|m|] == r;
          }
        }
      }
    }
  }

  /** The merge adds nothing that is in neither copy. */
  lemma {:induction false} MergeAddsOnlyLocal(logs: seq<AuditEntry>, local: seq<AuditEntry>)
    ensures forall x | x in Merged(logs, local) :: x in logs || x in local
  {
    if local != [] {
      var init := local[..|local| - 1];
      MergeAddsOnlyLocal(logs, init);
      assert local == init + [local[|local| - 1]];
    }
  }

  /** No two entries of the list record the same event. */
  predicate DistinctEvents(logs: seq<AuditEntry>)
  {
    forall i, j | 0 <= i < j < |logs| :: !SameEvent(logs[i], logs[j])
  }

  /** The merge introduces no duplicate event into a list that has none, even
      when the persistent copy itself holds duplicates. */
  lemma {:induction false} MergeKeepsEventsDistinct(logs: seq<AuditEntry>, local: seq<AuditEntry>)
    requires DistinctEvents(logs)
    ensures DistinctEvents(Merged(logs, local))
  {
    if local != [] {
      MergeKeepsEventsDistinct(logs, local[..|local| - 1]);
    }
  }

  /** Merging a persistent copy whose events are all recorded changes nothing;
      in particular merging the same copy twice is merging it once. */
  lemma {:induction false} MergeOfRecordedIsIdentity(logs: seq<AuditEntry>, local: seq<AuditEntry>)
    requires forall r | r in local :: Recorded(logs, r)
    ensures Merged(logs, local) == logs
  {
    if local != [] {
      var init := local[..|local| - 1];
      assert forall r | r in init :: r in local;
      MergeOfRecordedIsIdentity(logs, init);
    }
  }

  lemma MergeIdempotent(logs: seq<AuditEntry>, local: seq<AuditEntry>)
    ensures Merged(Merged(logs, local), local) == Merged(logs, local)
  {
    MergeCoversLocal(logs, local);
    MergeOfRecordedIsIdentity(Merged(logs, local), local);
  }

  /** The entry `_logAudit(type, detail)` appends, for the session user
      (if any); `details` is the detail already serialised. */
  function NewAuditEntry(user: Option<User>, kind: string, details: string, timestamp: string): (e: AuditEntry)
    ensures e.screen == HeaderScreen && e.kind == kind && e.details == details && e.timestamp == timestamp
    ensures user.None? ==> e.user == "" && e.userId == "" && e.companyCode == "" && e.officeCode == ""
    ensures user.Some? ==> e.userId == (if user.value.id != "" then user.value.id else user.value.userId)
    ensures user.Some? ==> e.user == user.value.name && e.companyCode == user.value.companyCode
                           && e.officeCode == user.value.officeCode
  {
    match user
    case None => AuditEntry(timestamp, kind, HeaderScreen, "", "", "", "", details)
    case Some(u) =>
      AuditEntry(timestamp, kind, HeaderScreen, u.name, OrElse(u.id, u.userId),
                 u.companyCode, u.officeCode, details)
  }

  /** The list both stores hold after `_logAudit`. */
  function LoggedList(session: map<string, string>, persistent: map<string, string>,
                      parseLogs: string -> Option<seq<AuditEntry>>, entry: AuditEntry): seq<AuditEntry>
  {
    Merged(ReadList(session, AuditKey, parseLogs), ReadList(persistent, AuditKey, parseLogs)) + [entry]
  }

  /** After logging, the list ends with the new entry, keeps the session copy
      in front of it and records every event of the persistent copy. */
  lemma LoggedListShape(session: map<string, string>, persistent: map<string, string>,
                        parseLogs: string -> Option<seq<AuditEntry>>, entry: AuditEntry)
    ensures var logs := LoggedList(session, persistent, parseLogs, entry);
            var before := ReadList(session, AuditKey, parseLogs);
            && |logs| == |Merged(before, ReadList(persistent, AuditKey, parseLogs))| + 1 > |before|
            && logs[|logs| - 1] == entry
            && logs[..|before|] == before
            && forall r | r in ReadList(persistent, AuditKey, parseLogs) :: Recorded(logs, r)
  {
    var before := ReadList(session, AuditKey, parseLogs);
    var local := ReadList(persistent, AuditKey, parseLogs);
    var m := Merged(before, local);
    MergeKeepsSessionLogs(before, local);
    MergeCoversLocal(before, local);
    assert (m + [entry])[..|m|] == m;
    forall r | r in local
      ensures Recorded(m + [entry], r)
    {
      var i :| 0 <= i < |m| && SameEvent(m[i], r);
      assert (m + [entry])[i] == m[i];
    }
  }

  /** Both stores after `_logAudit(type, detail)`: only `audit.logs` changes. */
  function AfterLog(s: Stores, parseUser: string -> Option<User>,
                    parseLogs: string -> Option<seq<AuditEntry>>, showLogs: seq<AuditEntry> -> string,
                    kind: string, details: string, timestamp: string): (r: Stores)
    ensures forall k | k != AuditKey :: Lookup(r.persistent, k) == Lookup(s.persistent, k)
    ensures forall k | k != AuditKey :: Lookup(r.session, k) == Lookup(s.session, k)
    ensures AuditKey in r.session && AuditKey in r.persistent
    ensures r.session[AuditKey] == r.persistent[AuditKey]
  {
    var entry := NewAuditEntry(SessionUser(s.session, parseUser), kind, details, timestamp);
    var text := showLogs(LoggedList(s.session, s.persistent, parseLogs, entry));
    Stores(s.persistent[AuditKey := text], s.session[AuditKey := text])
  }

  /** `_logAudit(type, detail)`; the clock is the `timestamp` parameter. */
  method LogAudit(st: WebStorage, parseUser: string -> Option<User>,
                  parseLogs: string -> Option<seq<AuditEntry>>, showLogs: seq<AuditEntry> -> string,
                  kind: string, details: string, timestamp: string)
    modifies st
    ensures var entry := NewAuditEntry(SessionUser(old(st.session), parseUser), kind, details, timestamp);
            var text := showLogs(LoggedList(old(st.session), old(st.persistent), parseLogs, entry));
            && st.session == old(st.session)[AuditKey := text]
            && st.persistent == old(st.persistent)[AuditKey := text]
    ensures Stores(st.persistent, st.session)
            == AfterLog(Stores(old(st.persistent), old(st.session)), parseUser, parseLogs, showLogs, kind, details, timestamp)
  {
    var user := SessionUser(st.session, parseUser);
    var logs := ReadList(st.session, AuditKey, parseLogs);
    var logsLocal := ReadList(st.persistent, AuditKey, parseLogs);
    logs := MergeAuditLogs(logs, logsLocal);
    logs := logs + [NewAuditEntry(user, kind, details, timestamp)];
    st.session := st.session[AuditKey := showLogs(logs)];
    st.persistent := st.persistent[AuditKey := showLogs(logs)];
  }
}
