/** The header's password change (`_changePassword`): validation of the
    three form fields, then either a session-only change for demo principals
    or an update of the principal's master record in the persistent store. */
module PasswordChange {
  import opened Common
  import opened Storage
  import opened SessionClassifier
  import AuditLog

  const PartnersKey: string := "partners"
  const AccountsKey: string := "accounts"
  const ContractorRole: string := "contractor"
  const PasswordChangeEvent: string := "password_change"
  const MinPasswordLength: nat := 6

  /** The logged-in management company kept under `currentContractor`. */
  datatype Contractor = Contractor(id: string, name: string, password: string)

  /** An entry of the `partners` list: the login of a management company. */
  datatype PartnerLogin = PartnerLogin(id: string, loginId: string, name: string, password: string)

  /** An entry of the `accounts` list: the login of a staff member. */
  datatype Account = Account(
    id: string,
    userId: string,
    name: string,
    password: string,
    isFirstLogin: bool,
    passwordChangedAt: string)

  /** The serialisations the operation goes through. */
  datatype Codecs = Codecs(
    parseUser: string -> Option<User>,
    showUser: User -> string,
    parseContractor: string -> Option<Contractor>,
    showContractor: Contractor -> string,
    parsePartners: string -> Option<seq<PartnerLogin>>,
    showPartners: seq<PartnerLogin> -> string,
    parseAccounts: string -> Option<seq<Account>>,
    showAccounts: seq<Account> -> string,
    parseLogs: string -> Option<seq<AuditLog.AuditEntry>>,
    showLogs: seq<AuditLog.AuditEntry> -> string,
    /** `JSON.stringify({ userId: id })` */
    showDetail: string -> string)

  /** What the three form fields contain. */
  datatype PasswordForm = PasswordForm(current: string, newPassword: string, confirmation: string)

  datatype Rejection = MissingField | Mismatch | TooShort | WrongCurrent

  datatype Outcome =
    | NoUser              // no session principal
    | Rejected(why: Rejection)
    | ChangedDemo         // demo principal: session copy only
    | Changed             // master record updated
    | UpdateFailed        // no master record for the principal
    | Failed              // the master list could not be parsed

  /** The checks, in the order the form applies them; None means the form is
      accepted. */
  function Validate(u: User, form: PasswordForm): (r: Option<Rejection>)
    ensures r.None? <==>
      && form.current != "" && form.newPassword != "" && form.confirmation != ""
      && form.newPassword == form.confirmation
      && |form.newPassword| >= MinPasswordLength
      && u.password == form.current
    ensures r == Some(MissingField) <==> form.current == "" || form.newPassword == "" || form.confirmation == ""
    ensures r == Some(Mismatch) <==>
      && form.current != "" && form.newPassword != "" && form.confirmation != ""
      && form.newPassword != form.confirmation
    ensures r == Some(TooShort) <==>
      && form.current != "" && form.newPassword != "" && form.confirmation != ""
      && form.newPassword == form.confirmation
      && |form.newPassword| < MinPasswordLength
    ensures r == Some(WrongCurrent) <==>
      && form.current != "" && form.newPassword != "" && form.confirmation != ""
      && form.newPassword == form.confirmation
      && |form.newPassword| >= MinPasswordLength
      && u.password != form.current
  {
    if form.current == "" || form.newPassword == "" || form.confirmation == "" then Some(MissingField)
    else if form.newPassword != form.confirmation then Some(Mismatch)
    else if |form.newPassword| < MinPasswordLength then Some(TooShort)
    else if u.password != form.current then Some(WrongCurrent)
    else None
  }

  /** A wrong current password is reported only for a form that is otherwise
      well formed: the current password is not checked against a short or
      unconfirmed new one. */
  lemma WrongCurrentReportedLast(u: User, form: PasswordForm)
    requires Validate(u, form) == Some(WrongCurrent)
    ensures form.current != "" && form.newPassword == form.confirmation
    ensures |form.newPassword| >= MinPasswordLength
  {
  }

  /** The first entry of `partners` whose `loginId` is `key`. */
  function FindLogin(ps: seq<PartnerLogin>, key: string): (r: Option<nat>)
    ensures r.Some? ==> r.value < |ps| && ps[r.value].loginId == key
    ensures r.Some? ==> forall j | 0 <= j < r.value :: ps[j].loginId != key
    ensures r.None? ==> forall j | 0 <= j < |ps| :: ps[j].loginId != key
  {
    if ps == [] then None
    else if ps[0].loginId == key then Some(0)
    else match FindLogin(ps[1..], key)
      case None => None
      case Some(i) => Some(i + 1)
  }

  /** The identifier an account is known by: `userId`, else `id`. */
  function AccountKey(a: Account): string
  {
    OrElse(a.userId, a.id)
  }

  /** The first entry of `accounts` whose key is `key`. */
  function FindAccount(accounts: seq<Account>, key: string): (r: Option<nat>)
    ensures r.Some? ==> r.value < |accounts| && AccountKey(accounts[r.value]) == key
    ensures r.Some? ==> forall j | 0 <= j < r.value :: AccountKey(accounts[j]) != key
    ensures r.None? ==> forall j | 0 <= j < |accounts| :: AccountKey(accounts[j]) != key
  {
    if accounts == [] then None
    else if AccountKey(accounts[0]) == key then Some(0)
    else match FindAccount(accounts[1..], key)
      case None => None
      case Some(i) => Some(i + 1)
  }

  /** The principal after a successful change. */
  function WithNewPassword(u: User, newPassword: string): User
  {
    u.(password := newPassword, isFirstLogin := false)
  }

  /** `JSON.parse(sessionStorage.getItem('currentContractor'))` inside
      try/catch: missing, null and unparseable all read as None. */
  function ParsedContractor(session: map<string, string>, c: Codecs): Option<Contractor>
  {
    if CurrentContractorKey in session then c.parseContractor(session[CurrentContractorKey]) else None
  }

  /** The demo branch's update of `currentContractor`: a parsed record is
      written back with the new password; otherwise the step is skipped. */
  function ContractorUpdated(session: map<string, string>, c: Codecs, newPassword: string): (r: map<string, string>)
    ensures forall k | k != CurrentContractorKey :: Lookup(r, k) == Lookup(session, k)
    ensures ParsedContractor(session, c).None? ==> r == session
    ensures ParsedContractor(session, c).Some? ==>
      Lookup(r, CurrentContractorKey)
        == Some(c.showContractor(ParsedContractor(session, c).value.(password := newPassword)))
  {
    if CurrentContractorKey in session then
      match c.parseContractor(session[CurrentContractorKey])
      case None => session
      case Some(ct) => session[CurrentContractorKey := c.showContractor(ct.(password := newPassword))]
    else session
  }

  datatype PasswordResult = PasswordResult(outcome: Outcome, stores: Stores)

  /** The stores after the change has been written: the session copy of the
      principal, then the audit entry. */
  function Finish(s: Stores, c: Codecs, u: User, newPassword: string, outcome: Outcome, loggedAt: string): PasswordResult
  {
    var s1 := s.(session := s.session[CurrentUserKey := c.showUser(WithNewPassword(u, newPassword))]);
    var s2 := if outcome == ChangedDemo && u.role == ContractorRole
              then s1.(session := ContractorUpdated(s1.session, c, newPassword)) else s1;
    PasswordResult(outcome, AuditLog.AfterLog(s2, c.parseUser, c.parseLogs, c.showLogs,
                                              PasswordChangeEvent, c.showDetail(OrElse(u.id, u.userId)), loggedAt))
  }

  /** `_changePassword()` on both stores. `changedAt` and `loggedAt` are the
      clock readings for the account record and the audit entry. */
  function ChangePasswordSpec(s: Stores, c: Codecs, form: PasswordForm, changedAt: string, loggedAt: string): PasswordResult
  {
    match SessionUser(s.session, c.parseUser)
    case None => PasswordResult(NoUser, s)
    case Some(u) =>
      match Validate(u, form)
      case Some(why) => PasswordResult(Rejected(why), s)
      case None =>
        var pw := form.newPassword;
        if PasswordChangeIsDemo(u) then Finish(s, c, u, pw, ChangedDemo, loggedAt)
        else if u.role == ContractorRole then
          match ReadListStrict(s.persistent, PartnersKey, c.parsePartners)
          case None => PasswordResult(Failed, s)
          case Some(ps) =>
            match FindLogin(ps, OrElse(u.id, u.userId))
            case None => PasswordResult(UpdateFailed, s)
            case Some(i) =>
              var ps' := ps[i := ps[i].(password := pw)];
              Finish(s.(persistent := s.persistent[PartnersKey := c.showPartners(ps')]), c, u, pw, Changed, loggedAt)
        else
          match ReadListStrict(s.persistent, AccountsKey, c.parseAccounts)
          case None => PasswordResult(Failed, s)
          case Some(accounts) =>
            match FindAccount(accounts, OrElse(u.userId, u.id))
            case None => PasswordResult(UpdateFailed, s)
            case Some(i) =>
              var as' := accounts[i := accounts[i].(password := pw, isFirstLogin := false, passwordChangedAt := changedAt)];
              Finish(s.(persistent := s.persistent[AccountsKey := c.showAccounts(as')]), c, u, pw, Changed, loggedAt)
  }

  predicate IsChange(o: Outcome)
  {
    o == ChangedDemo || o == Changed
  }

  /** Every outcome other than a change leaves both stores exactly as they were. */
  lemma RefusalsChangeNothing(s: Stores, c: Codecs, form: PasswordForm, changedAt: string, loggedAt: string)
    ensures var r := ChangePasswordSpec(s, c, form, changedAt, loggedAt);
            !IsChange(r.outcome) ==> r.stores == s
  {
  }

  /** A change happens exactly for a session principal whose form is valid;
      it is a demo change exactly when the principal is from TAMJ or flagged. */
  lemma ChangeRequiresValidForm(s: Stores, c: Codecs, form: PasswordForm, changedAt: string, loggedAt: string)
    ensures var r := ChangePasswordSpec(s, c, form, changedAt, loggedAt);
            var cu := SessionUser(s.session, c.parseUser);
            && (IsChange(r.outcome) ==> cu.Some? && Validate(cu.value, form).None?)
            && (r.outcome == ChangedDemo <==> cu.Some? && Validate(cu.value, form).None? && PasswordChangeIsDemo(cu.value))
  {
  }

  /** A demo change touches no master data: apart from the audit trail the
      persistent store is unchanged. */
  lemma DemoChangeKeepsMasterData(s: Stores, c: Codecs, form: PasswordForm, changedAt: string, loggedAt: string)
    requires ChangePasswordSpec(s, c, form, changedAt, loggedAt).outcome == ChangedDemo
    ensures forall k | k != AuditLog.AuditKey ::
      Lookup(ChangePasswordSpec(s, c, form, changedAt, loggedAt).stores.persistent, k) == Lookup(s.persistent, k)
  {
  }

  ghost predicate UserCodecRoundTrips(c: Codecs)
  {
    forall u: User :: c.parseUser(c.showUser(u)) == Some(u)
  }

  ghost predicate PartnersCodecRoundTrips(c: Codecs)
  {
    forall ps: seq<PartnerLogin> ::
      c.showPartners(ps) != "" && c.parsePartners(c.showPartners(ps)) == Some(ps)
  }

  ghost predicate ContractorCodecRoundTrips(c: Codecs)
  {
    forall ct: Contractor :: c.parseContractor(c.showContractor(ct)) == Some(ct)
  }

  ghost predicate AccountsCodecRoundTrips(c: Codecs)
  {
    forall accounts: seq<Account> ::
      c.showAccounts(accounts) != "" && c.parseAccounts(c.showAccounts(accounts)) == Some(accounts)
  }

  /** After any change the session principal carries the new password and is
      no longer on its first login. */
  lemma ChangeUpdatesSessionUser(s: Stores, c: Codecs, form: PasswordForm, changedAt: string, loggedAt: string)
    requires UserCodecRoundTrips(c)
    requires IsChange(ChangePasswordSpec(s, c, form, changedAt, loggedAt).outcome)
    ensures var u := SessionUser(s.session, c.parseUser).value;
            SessionUser(ChangePasswordSpec(s, c, form, changedAt, loggedAt).stores.session, c.parseUser)
              == Some(WithNewPassword(u, form.newPassword))
  {
    var after := ChangePasswordSpec(s, c, form, changedAt, loggedAt).stores.session;
    var u := SessionUser(s.session, c.parseUser).value;
    assert Lookup(after, CurrentUserKey) == Some(c.showUser(WithNewPassword(u, form.newPassword)));
  }

  /** A staff member's change rewrites exactly the first matching account:
      new password, first login cleared, change time recorded, all other
      accounts as they were. */
  lemma StaffChangeUpdatesOneAccount(s: Stores, c: Codecs, form: PasswordForm, changedAt: string, loggedAt: string)
    requires AccountsCodecRoundTrips(c)
    requires ChangePasswordSpec(s, c, form, changedAt, loggedAt).outcome == Changed
    requires SessionUser(s.session, c.parseUser).value.role != ContractorRole
    ensures var u := SessionUser(s.session, c.parseUser).value;
            var before := ReadListStrict(s.persistent, AccountsKey, c.parseAccounts).value;
            var after := ReadListStrict(ChangePasswordSpec(s, c, form, changedAt, loggedAt).stores.persistent,
                                        AccountsKey, c.parseAccounts);
            exists i: nat ::
              && i < |before| && FindAccount(before, OrElse(u.userId, u.id)) == Some(i)
              && after.Some? && |after.value| == |before|
              && after.value[i].password == form.newPassword
              && !after.value[i].isFirstLogin
              && after.value[i].passwordChangedAt == changedAt
              && forall j | 0 <= j < |before| && j != i :: after.value[j] == before[j]
    ensures var u := SessionUser(s.session, c.parseUser).value;
            var before := ReadListStrict(s.persistent, AccountsKey, c.parseAccounts).value;
            var after := ReadListStrict(ChangePasswordSpec(s, c, form, changedAt, loggedAt).stores.persistent,
                                        AccountsKey, c.parseAccounts);
            exists i: nat ::
              && i < |before| && FindAccount(before, OrElse(u.userId, u.id)) == Some(i)
              && after == Some(before[i := before[i].(password := form.newPassword, isFirstLogin := false,
                                                      passwordChangedAt := changedAt)])
  {
    var u := SessionUser(s.session, c.parseUser).value;
    var before := ReadListStrict(s.persistent, AccountsKey, c.parseAccounts).value;
    var i: nat := FindAccount(before, OrElse(u.userId, u.id)).value;
    var as' := before[i := before[i].(password := form.newPassword, isFirstLogin := false, passwordChangedAt := changedAt)];
    var p := ChangePasswordSpec(s, c, form, changedAt, loggedAt).stores.persistent;
    assert Lookup(p, AccountsKey) == Some(c.showAccounts(as'));
    assert c.showAccounts(as') != "" && c.parseAccounts(c.showAccounts(as')) == Some(as');
  }

  /** A management company's change rewrites the password of exactly the
      first login whose `loginId` is the principal's id; all other logins are
      as they were. */
  lemma ContractorChangeUpdatesOneLogin(s: Stores, c: Codecs, form: PasswordForm, changedAt: string, loggedAt: string)
    requires PartnersCodecRoundTrips(c)
    requires ChangePasswordSpec(s, c, form, changedAt, loggedAt).outcome == Changed
    requires SessionUser(s.session, c.parseUser).value.role == ContractorRole
    ensures var u := SessionUser(s.session, c.parseUser).value;
            var before := ReadListStrict(s.persistent, PartnersKey, c.parsePartners).value;
            var after := ReadListStrict(ChangePasswordSpec(s, c, form, changedAt, loggedAt).stores.persistent,
                                        PartnersKey, c.parsePartners);
            exists i: nat ::
              && i < |before| && FindLogin(before, OrElse(u.id, u.userId)) == Some(i)
              && after == Some(before[i := before[i].(password := form.newPassword)])
  {
    var u := SessionUser(s.session, c.parseUser).value;
    var before := ReadListStrict(s.persistent, PartnersKey, c.parsePartners).value;
    var i: nat := FindLogin(before, OrElse(u.id, u.userId)).value;
    var ps' := before[i := before[i].(password := form.newPassword)];
    var p := ChangePasswordSpec(s, c, form, changedAt, loggedAt).stores.persistent;
    assert Lookup(p, PartnersKey) == Some(c.showPartners(ps'));
    assert c.showPartners(ps') != "" && c.parsePartners(c.showPartners(ps')) == Some(ps');
  }

  /** A demo change by a management company also gives the session's
      `currentContractor` record the new password, when that record parses. */
  lemma DemoContractorChangeUpdatesContractor(s: Stores, c: Codecs, form: PasswordForm, changedAt: string, loggedAt: string)
    requires ContractorCodecRoundTrips(c)
    requires ChangePasswordSpec(s, c, form, changedAt, loggedAt).outcome == ChangedDemo
    requires SessionUser(s.session, c.parseUser).value.role == ContractorRole
    requires ParsedContractor(s.session, c).Some?
    ensures ParsedContractor(ChangePasswordSpec(s, c, form, changedAt, loggedAt).stores.session, c)
            == Some(ParsedContractor(s.session, c).value.(password := form.newPassword))
  {
    var u := SessionUser(s.session, c.parseUser).value;
    var s1 := s.session[CurrentUserKey := c.showUser(WithNewPassword(u, form.newPassword))];
    assert Lookup(s1, CurrentContractorKey) == Lookup(s.session, CurrentContractorKey);
    assert ParsedContractor(s1, c) == ParsedContractor(s.session, c);
    var after := ChangePasswordSpec(s, c, form, changedAt, loggedAt).stores.session;
    assert Lookup(after, CurrentContractorKey) == Lookup(ContractorUpdated(s1, c, form.newPassword), CurrentContractorKey);
  }

  /** The entries a change may write. Apart from the audit trail, a change
      rewrites at most the principal's master list in the persistent store
      (none for a demo change, `partners` for a management company,
      `accounts` for anyone else) and `currentUser` in the session store,
      plus `currentContractor` in a demo change. */
  lemma ChangeFrame(s: Stores, c: Codecs, form: PasswordForm, changedAt: string, loggedAt: string)
    requires IsChange(ChangePasswordSpec(s, c, form, changedAt, loggedAt).outcome)
    ensures var r := ChangePasswordSpec(s, c, form, changedAt, loggedAt);
            var u := SessionUser(s.session, c.parseUser).value;
            var master := if r.outcome == ChangedDemo then AuditLog.AuditKey
                          else if u.role == ContractorRole then PartnersKey else AccountsKey;
            && (forall k | k != master && k != AuditLog.AuditKey :: Lookup(r.stores.persistent, k) == Lookup(s.persistent, k))
            && (forall k | k != CurrentUserKey && k != CurrentContractorKey && k != AuditLog.AuditKey ::
                  Lookup(r.stores.session, k) == Lookup(s.session, k))
            && (r.outcome == Changed ==>
                  Lookup(r.stores.session, CurrentContractorKey) == Lookup(s.session, CurrentContractorKey))
  {
  }

  /** `_changePassword()`, reading the form and the stores and writing the
      stores as the specification function says. */
  method ChangePassword(st: WebStorage, c: Codecs, form: PasswordForm, changedAt: string, loggedAt: string)
    returns (outcome: Outcome)
    modifies st
    ensures PasswordResult(outcome, Stores(st.persistent, st.session))
            == ChangePasswordSpec(Stores(old(st.persistent), old(st.session)), c, form, changedAt, loggedAt)
  {
    var user := SessionUser(st.session, c.parseUser);
    if user.None? {
      return NoUser;
    }
    var u := user.value;
    var invalid := Validate(u, form);
    if invalid.Some? {
      return Rejected(invalid.value);
    }
    var pw := form.newPassword;
    if PasswordChangeIsDemo(u) {
      st.session := st.session[CurrentUserKey := c.showUser(WithNewPassword(u, pw))];
      if u.role == ContractorRole {
        st.session := ContractorUpdated(st.session, c, pw);
      }
      outcome := ChangedDemo;
    } else if u.role == ContractorRole {
      var partners := ReadListStrict(st.persistent, PartnersKey, c.parsePartners);
      if partners.None? {
        return Failed;
      }
      var ps := partners.value;
      var found := FindLogin(ps, OrElse(u.id, u.userId));
      if found.None? {
        return UpdateFailed;
      }
      var i := found.value;
      ps := ps[i := ps[i].(password := pw)];
      st.persistent := st.persistent[PartnersKey := c.showPartners(ps)];
      st.session := st.session[CurrentUserKey := c.showUser(WithNewPassword(u, pw))];
      outcome := Changed;
    } else {
      var accounts := ReadListStrict(st.persistent, AccountsKey, c.parseAccounts);
      if accounts.None? {
        return Failed;
      }
      var list := accounts.value;
      var found := FindAccount(list, OrElse(u.userId, u.id));
      if found.None? {
        return UpdateFailed;
      }
      var i := found.value;
      list := list[i := list[i].(password := pw, isFirstLogin := false, passwordChangedAt := changedAt)];
      st.persistent := st.persistent[AccountsKey := c.showAccounts(list)];
      st.session := st.session[CurrentUserKey := c.showUser(WithNewPassword(u, pw))];
      outcome := Changed;
    }
    AuditLog.LogAudit(st, c.parseUser, c.parseLogs, c.showLogs, PasswordChangeEvent,
                      c.showDetail(OrElse(u.id, u.userId)), loggedAt);
  }
}
