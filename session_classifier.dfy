/** Classification of the session principal. The code base tests for "demo"
    in three different ways; each is modelled as written and the lemmas below
    relate them. */
module SessionClassifier {
  import opened Common

  /** Companies whose users are always in demo mode. */
  const DemoCompanies: set<string> := {"TAMJ", "JMAT", "SYSTEM"}

  const SystemAdminRole: string := "system_admin"

  /** `isDemoMode()`: a parsed user whose company is a demo company or whose
      record carries the demo flag. No user (absent or unparseable) is not demo. */
  predicate IsDemoMode(cu: Option<User>)
    ensures IsDemoMode(cu) ==> cu.Some?
    ensures cu.Some? && cu.value.isDemoMode ==> IsDemoMode(cu)
    ensures cu.Some? && cu.value.companyCode == "TAMJ" ==> IsDemoMode(cu)
  {
    match cu
    case None => false
    case Some(u) => u.companyCode in DemoCompanies || u.isDemoMode
  }

  /** `isSystemAdmin()`: a parsed user with the system administrator role. */
  predicate IsSystemAdmin(cu: Option<User>)
    ensures IsSystemAdmin(cu) ==> cu.Some? && !RestoresOnExit(cu)
  {
    cu.Some? && cu.value.role == SystemAdminRole
  }

  /** The test shared by the `beforeunload` hook and `logout`: only the demo
      flag and the role are consulted, not the company. */
  predicate RestoresOnExit(cu: Option<User>)
  {
    cu.Some? && cu.value.isDemoMode && cu.value.role != SystemAdminRole
  }

  /** The test in `_changePassword`: company TAMJ (only) or the demo flag. */
  predicate PasswordChangeIsDemo(u: User)
  {
    u.companyCode == "TAMJ" || u.isDemoMode
  }

  /** A demo session is recognised by company or flag; without a parsed user
      classification fails open (neither demo nor administrator). */
  lemma DemoModeCharacterised(cu: Option<User>)
    ensures IsDemoMode(cu) <==> cu.Some? && (cu.value.companyCode in DemoCompanies || cu.value.isDemoMode)
    ensures cu.None? ==> !IsDemoMode(cu) && !IsSystemAdmin(cu)
  {
  }

  /** Every principal whose data is restored on exit is one the destructive
      operation gate restricts. */
  lemma RestoreOnExitImpliesRestricted(cu: Option<User>)
    ensures RestoresOnExit(cu) ==> IsDemoMode(cu) && !IsSystemAdmin(cu)
  {
  }

  /** The converse fails: a TAMJ user without the demo flag is restricted by
      the gate but its changes are not rolled back at logout or page unload. */
  lemma RestrictedUserNotRestoredOnExit()
    ensures var cu := Some(User("u1", "u1", "n", "staff", "TAMJ", "TAMJ-J0001", "pw", false, false));
            IsDemoMode(cu) && !IsSystemAdmin(cu) && !RestoresOnExit(cu)
  {
  }

  /** The password-change test implies demo mode, but a JMAT or SYSTEM user
      without the flag is demo for the gate and not for password change. */
  lemma PasswordDemoTestIsNarrower(u: User)
    ensures PasswordChangeIsDemo(u) ==> IsDemoMode(Some(u))
    ensures u.companyCode == "JMAT" && !u.isDemoMode ==> IsDemoMode(Some(u)) && !PasswordChangeIsDemo(u)
  {
  }
}
