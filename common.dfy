/** Values shared by every part of the model: an option type, the session
    principal record, JavaScript string truthiness, and the browser's two
    key/value stores. */
module Common {

  datatype Option<+T> = None | Some(value: T)

  /** The principal record kept (as JSON) under `currentUser` in the session
      store. A string field that the record lacks is modelled as "". */
  datatype User = User(
    id: string,
    userId: string,
    name: string,
    role: string,
    companyCode: string,
    officeCode: string,
    password: string,
    isDemoMode: bool,
    isFirstLogin: bool)

  /** JavaScript `a || b` on strings: the empty string is the only falsy string. */
  function OrElse(a: string, b: string): (r: string)
    ensures a != "" ==> r == a
    ensures a == "" ==> r == b
  {
    if a != "" then a else b
  }

  /** A value snapshot of both stores: `persistent` is localStorage and
      `session` is sessionStorage. */
  datatype Stores = Stores(persistent: map<string, string>, session: map<string, string>)

  /** `store.getItem(key)`: absent keys read as null (None). */
  function Lookup(m: map<string, string>, key: string): (r: Option<string>)
    ensures r.Some? <==> key in m
    ensures r.Some? ==> r.value == m[key]
  {
    if key in m then Some(m[key]) else None
  }

  /** Two stores are equal when every key reads the same. */
  lemma LookupExtensional(a: map<string, string>, b: map<string, string>)
    requires forall k :: Lookup(a, k) == Lookup(b, k)
    ensures a == b
  {
    assert a.Keys == b.Keys by {
      forall k ensures k in a <==> k in b {
        assert Lookup(a, k) == Lookup(b, k);
      }
    }
    forall k | k in a ensures a[k] == b[k] {
      assert Lookup(a, k) == Lookup(b, k);
    }
  }

  /** Session entry holding the principal record. */
  const CurrentUserKey: string := "currentUser"

  /** Session entry holding the logged-in management company's record. */
  const CurrentContractorKey: string := "currentContractor"

  /** `JSON.parse(sessionStorage.getItem('currentUser'))` inside try/catch:
      a missing entry parses to null and an unparseable one is caught, so both
      read as no user. */
  function SessionUser(session: map<string, string>, parseUser: string -> Option<User>): Option<User>
  {
    if CurrentUserKey in session then parseUser(session[CurrentUserKey]) else None
  }

  /** `JSON.parse(store.getItem(key) || '[]')` inside try/catch: a missing,
      empty or unparseable entry reads as the empty list. */
  function ReadList<T>(m: map<string, string>, key: string, parse: string -> Option<seq<T>>): seq<T>
  {
    if key in m && m[key] != "" then
      match parse(m[key])
      case Some(items) => items
      case None => []
    else []
  }

  /** The same read without the try/catch around the parse: a missing or
      empty entry is the empty list, an unparseable one is an error (None). */
  function ReadListStrict<T>(m: map<string, string>, key: string, parse: string -> Option<seq<T>>): Option<seq<T>>
  {
    if key in m && m[key] != "" then parse(m[key]) else Some([])
  }
}

/** The browser's localStorage (`persistent`) and sessionStorage (`session`),
    shared by every screen and updated in place. */
module Storage {

  class WebStorage {
    var persistent: map<string, string>
    var session: map<string, string>

    constructor (persistent: map<string, string>, session: map<string, string>)
      ensures this.persistent == persistent && this.session == session
    {
      this.persistent := persistent;
      this.session := session;
    }
  }
}
