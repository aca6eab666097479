/** Demo-session overlay: the tracked persistent entries are copied into the
    session store when a demo session starts and written back (then the copies
    are removed) when it ends. */
module DemoSnapshot {
  import opened Common
  import opened Storage
  import opened SessionClassifier

  /** The fixed, ordered list of persistent entries a demo session may change. */
  const SnapshotKeys: seq<string> :=
    ["companies", "offices", "accounts", "partners", "onetouch.contracts",
     "onetouch.items", "onetouch.reports", "officeCounter"]

  const SnapshotPrefix: string := "demo_snapshot_"

  /** Session key under which the snapshot of persistent entry `key` is kept. */
  function SnapshotKey(key: string): string
  {
    SnapshotPrefix + key
  }

  lemma SnapshotKeyInjective(a: string, b: string)
    ensures SnapshotKey(a) == SnapshotKey(b) ==> a == b
  {
    if SnapshotKey(a) == SnapshotKey(b) {
      assert a == SnapshotKey(a)[|SnapshotPrefix|..];
      assert b == SnapshotKey(b)[|SnapshotPrefix|..];
    }
  }

  // ---------------------------------------------------------------------
  // Specification: the effect of the loops, one key at a time, in order.

  /** Session store after saving `keys` (in order) from `persistent`. */
  function Saved(persistent: map<string, string>, session: map<string, string>, keys: seq<string>): map<string, string>
    decreases |keys|
  {
    if keys == [] then session
    else
      var rest := Saved(persistent, session, keys[..|keys| - 1]);
      var key := keys[|keys| - 1];
      if key in persistent then rest[SnapshotKey(key) := persistent[key]] else rest
  }

  /** Persistent store after writing back every snapshot of `keys` found in `session`. */
  function Restored(persistent: map<string, string>, session: map<string, string>, keys: seq<string>): map<string, string>
    decreases |keys|
  {
    if keys == [] then persistent
    else
      var rest := Restored(persistent, session, keys[..|keys| - 1]);
      var key := keys[|keys| - 1];
      if SnapshotKey(key) in session then rest[key := session[SnapshotKey(key)]] else rest
  }

  /** Session store after removing the snapshot entry of every key in `keys`. */
  function Cleared(session: map<string, string>, keys: seq<string>): map<string, string>
    decreases |keys|
  {
    if keys == [] then session
    else Cleared(session, keys[..|keys| - 1]) - {SnapshotKey(keys[|keys| - 1])}
  }

  /** Tracked keys that had a value when the snapshot was taken. */
  function Present(persistent: map<string, string>, keys: seq<string>): set<string>
  {
    set k | k in keys && k in persistent
  }

  /** Tracked keys that currently have a snapshot entry. */
  function Snapshotted(session: map<string, string>, keys: seq<string>): set<string>
  {
    set k | k in keys && SnapshotKey(k) in session
  }

  // ---------------------------------------------------------------------
  // What save, restore and clear mean entry by entry.

  /** Save copies every present tracked entry into its snapshot key, creates
      no snapshot for an absent one, and touches no other session entry. */
  lemma {:induction false} SavedEntries(persistent: map<string, string>, session: map<string, string>, keys: seq<string>)
    ensures forall k | k in keys && k in persistent ::
      Lookup(Saved(persistent, session, keys), SnapshotKey(k)) == Some(persistent[k])
    ensures forall x | x !in (set k | k in Present(persistent, keys) :: SnapshotKey(k)) ::
      Lookup(Saved(persistent, session, keys), x) == Lookup(session, x)
    decreases |keys|
  {
    if keys != [] {
      var init := keys[..|keys| - 1];
      var key := keys[|keys| - 1];
      SavedEntries(persistent, session, init);
      forall k | k in keys && k in persistent
        ensures Lookup(Saved(persistent, session, keys), SnapshotKey(k)) == Some(persistent[k])
      {
        SnapshotKeyInjective(k, key);
        if k != key {
          assert k in init;
        }
      }
      forall x | x !in (set k | k in Present(persistent, keys) :: SnapshotKey(k))
        ensures Lookup(Saved(persistent, session, keys), x) == Lookup(session, x)
      {
        assert Present(persistent, init) <= Present(persistent, keys);
        if key in persistent {
          assert key in Present(persistent, keys);
          assert x != SnapshotKey(key);
        }
      }
    }
  }

  /** Restore writes every snapshot back to its tracked key and touches no
      key without a snapshot, nor any key outside `keys`. */
  lemma {:induction false} RestoredEntries(persistent: map<string, string>, session: map<string, string>, keys: seq<string>)
    ensures forall k | k in Snapshotted(session, keys) ::
      Lookup(Restored(persistent, session, keys), k) == Some(session[SnapshotKey(k)])
    ensures forall x | x !in Snapshotted(session, keys) ::
      Lookup(Restored(persistent, session, keys), x) == Lookup(persistent, x)
    decreases |keys|
  {
    if keys != [] {
      var init := keys[..|keys| - 1];
      var key := keys[|keys| - 1];
      RestoredEntries(persistent, session, init);
      forall k | k in Snapshotted(session, keys)
        ensures Lookup(Restored(persistent, session, keys), k) == Some(session[SnapshotKey(k)])
      {
        if k != key {
          assert k in Snapshotted(session, init);
        }
      }
    }
  }

  /** Clearing removes exactly the snapshot entries of `keys`. */
  lemma {:induction false} ClearedEntries(session: map<string, string>, keys: seq<string>)
    ensures forall k | k in keys :: SnapshotKey(k) !in Cleared(session, keys)
    ensures forall x | x !in (set k | k in keys :: SnapshotKey(k)) ::
      Lookup(Cleared(session, keys), x) == Lookup(session, x)
    decreases |keys|
  {
    if keys != [] {
      var init := keys[..|keys| - 1];
      ClearedEntries(session, init);
      forall k | k in keys ensures SnapshotKey(k) !in Cleared(session, keys) {
        if k != keys[|keys| - 1] {
          assert k in init;
        }
      }
    }
  }

  // ---------------------------------------------------------------------
  // Guarantees of the overlay.

  /** Save, then any persistent writes, then restore: every tracked key that
      had a value at save time gets that value back; a tracked key that was
      absent keeps the later value unless a stale snapshot of it was already
      in the session; keys outside the list keep the later value; and the
      session ends as it started minus the snapshot entries. */
  lemma RoundTrip(before: map<string, string>, session: map<string, string>, after: map<string, string>, keys: seq<string>)
    ensures var s1 := Saved(before, session, keys);
            var p2 := Restored(after, s1, keys);
            && (forall k | k in keys && k in before :: Lookup(p2, k) == Lookup(before, k))
            && (forall k | k in keys && k !in before && SnapshotKey(k) !in session :: Lookup(p2, k) == Lookup(after, k))
            && (forall x | x !in keys :: Lookup(p2, x) == Lookup(after, x))
            && Cleared(s1, keys) == Cleared(session, keys)
  {
    var s1 := Saved(before, session, keys);
    var p2 := Restored(after, s1, keys);
    SavedEntries(before, session, keys);
    RestoredEntries(after, s1, keys);
    forall k | k in keys && k in before ensures Lookup(p2, k) == Lookup(before, k) {
      assert k in Snapshotted(s1, keys);
    }
    forall k | k in keys && k !in before && SnapshotKey(k) !in session
      ensures Lookup(p2, k) == Lookup(after, k)
    {
      if SnapshotKey(k) in (set k | k in Present(before, keys) :: SnapshotKey(k)) {
        var k' :| k' in Present(before, keys) && SnapshotKey(k') == SnapshotKey(k);
        SnapshotKeyInjective(k, k');
      }
      assert Lookup(s1, SnapshotKey(k)) == Lookup(session, SnapshotKey(k)) == None;
      assert k !in Snapshotted(s1, keys);
    }
    ClearedEntries(s1, keys);
    ClearedEntries(session, keys);
    forall x ensures Lookup(Cleared(s1, keys), x) == Lookup(Cleared(session, keys), x) {
      if x !in (set k | k in keys :: SnapshotKey(k)) {
        assert x !in (set k | k in Present(before, keys) :: SnapshotKey(k));
      } else {
        var k :| k in keys && x == SnapshotKey(k);
        assert x !in Cleared(s1, keys) && x !in Cleared(session, keys);
      }
    }
    LookupExtensional(Cleared(s1, keys), Cleared(session, keys));
  }

  /** A second restore, run after the first has cleared the snapshots, changes nothing. */
  lemma RestoreIdempotent(persistent: map<string, string>, session: map<string, string>, keys: seq<string>)
    ensures var s1 := Cleared(session, keys);
            Restored(persistent, s1, keys) == persistent && Cleared(s1, keys) == s1
  {
    var s1 := Cleared(session, keys);
    ClearedEntries(session, keys);
    RestoredEntries(persistent, s1, keys);
    assert Snapshotted(s1, keys) == {};
    LookupExtensional(Restored(persistent, s1, keys), persistent);
    ClearedEntries(s1, keys);
    forall x ensures Lookup(Cleared(s1, keys), x) == Lookup(s1, x) {
      if x in (set k | k in keys :: SnapshotKey(k)) {
        assert x !in s1;
      }
    }
    LookupExtensional(Cleared(s1, keys), s1);
  }

  /** Restore is not atomic, but because the snapshots are only removed after
      every key has been written back, re-running a restore that stopped after
      any number of keys gives the same persistent store as one complete run. */
  lemma InterruptedRestoreResumes(persistent: map<string, string>, session: map<string, string>, keys: seq<string>, done: nat)
    requires done <= |keys|
    ensures Restored(Restored(persistent, session, keys[..done]), session, keys) == Restored(persistent, session, keys)
  {
    var partial := Restored(persistent, session, keys[..done]);
    RestoredEntries(persistent, session, keys[..done]);
    RestoredEntries(partial, session, keys);
    RestoredEntries(persistent, session, keys);
    forall x ensures Lookup(Restored(partial, session, keys), x) == Lookup(Restored(persistent, session, keys), x) {
      if x !in Snapshotted(session, keys) {
        assert x !in Snapshotted(session, keys[..done]);
      }
    }
    LookupExtensional(Restored(partial, session, keys), Restored(persistent, session, keys));
  }

  // ---------------------------------------------------------------------
  // The operations.

  /** `saveDemoSnapshot()`. */
  method SaveDemoSnapshot(st: WebStorage)
    modifies st
    ensures st.persistent == old(st.persistent)
    ensures st.session == Saved(old(st.persistent), old(st.session), SnapshotKeys)
  {
    var i := 0;
    while i < |SnapshotKeys|
      invariant 0 <= i <= |SnapshotKeys|
      invariant st.persistent == old(st.persistent)
      invariant st.session == Saved(st.persistent, old(st.session), SnapshotKeys[..i])
    {
      var key := SnapshotKeys[i];
      if key in st.persistent {
        st.session := st.session[SnapshotKey(key) := st.persistent[key]];
      }
      assert SnapshotKeys[..i + 1][..i] == SnapshotKeys[..i];
      i := i + 1;
    }
    assert SnapshotKeys[..i] == SnapshotKeys;
  }

  /** `restoreDemoSnapshot()`: first every snapshot is written back, then
      every snapshot entry is removed. */
  method RestoreDemoSnapshot(st: WebStorage)
    modifies st
    ensures st.persistent == Restored(old(st.persistent), old(st.session), SnapshotKeys)
    ensures st.session == Cleared(old(st.session), SnapshotKeys)
  {
    var i := 0;
    while i < |SnapshotKeys|
      invariant 0 <= i <= |SnapshotKeys|
      invariant st.session == old(st.session)
      invariant st.persistent == Restored(old(st.persistent), st.session, SnapshotKeys[..i])
    {
      var key := SnapshotKeys[i];
      if SnapshotKey(key) in st.session {
        st.persistent := st.persistent[key := st.session[SnapshotKey(key)]];
      }
      assert SnapshotKeys[..i + 1][..i] == SnapshotKeys[..i];
      i := i + 1;
    }
    assert SnapshotKeys[..i] == SnapshotKeys;
    var j := 0;
    while j < |SnapshotKeys|
      invariant 0 <= j <= |SnapshotKeys|
      invariant st.persistent == Restored(old(st.persistent), old(st.session), SnapshotKeys)
      invariant st.session == Cleared(old(st.session), SnapshotKeys[..j])
    {
      st.session := st.session - {SnapshotKey(SnapshotKeys[j])};
      assert SnapshotKeys[..j + 1][..j] == SnapshotKeys[..j];
      j := j + 1;
    }
    assert SnapshotKeys[..j] == SnapshotKeys;
  }

  /** The `beforeunload` hook: restores only for a flagged demo user that is
      not a system administrator. */
  method OnBeforeUnload(st: WebStorage, parseUser: string -> Option<User>)
    modifies st
    ensures RestoresOnExit(SessionUser(old(st.session), parseUser)) ==>
      st.persistent == Restored(old(st.persistent), old(st.session), SnapshotKeys)
      && st.session == Cleared(old(st.session), SnapshotKeys)
    ensures !RestoresOnExit(SessionUser(old(st.session), parseUser)) ==>
      st.persistent == old(st.persistent) && st.session == old(st.session)
  {
    if RestoresOnExit(SessionUser(st.session, parseUser)) {
      RestoreDemoSnapshot(st);
    }
  }
}
