/**
 * The signed-in session: login, signup and logout, and the session restored
 * from local storage at start-up.  A fresh user id (the source draws a random
 * UUID) is an input.  The stored record is written in a JSON subset that this
 * module both writes and reads back.
 */
module Session {
  import opened Base
  import opened Types
  import Text

  const UserKey: string := "resq-user"

  datatype Session = Session(user: Option<User>, store: Store)

  // ---------------------------------------------------------------------------
  // The stored record

  /** JSON string escaping of the quote and the backslash. */
  function Escape(s: string): (r: string)
    ensures |r| >= |s|
  {
    if |s| == 0 then ""
    else if s[0] == '"' || s[0] == '\\' then ['\\', s[0]] + Escape(s[1..])
    else [s[0]] + Escape(s[1..])
  }

  function Field(key: string, value: string): string {
    "\"" + key + "\":\"" + Escape(value) + "\""
  }

  /** `JSON.stringify(user)`: the fields in declaration order. */
  function Serialize(u: User): (s: string)
    ensures |s| >= 2 && s[0] == '{' && s[|s| - 1] == '}'
  {
    "{" + (Field("id", u.id) + ("," + (Field("name", u.name) + ("," + (Field("email", u.email)
      + ("," + (Field("role", RoleKey(u.role)) + "}")))))))
  }

  /** Reads the body of a JSON string up to its closing quote; the value and what follows. */
  function ReadString(s: string): Option<(string, string)>
    decreases |s|
  {
    if |s| == 0 then None
    else if s[0] == '"' then Some(("", s[1..]))
    else if s[0] == '\\' then
      if |s| >= 2 && (s[1] == '"' || s[1] == '\\') then
        match ReadString(s[2..])
        case Some((v, rest)) => Some(([s[1]] + v, rest))
        case None => None
      else None
    else
      match ReadString(s[1..])
      case Some((v, rest)) => Some(([s[0]] + v, rest))
      case None => None
  }

  /** Reading an escaped string back yields the original and leaves what follows the closing quote. */
  lemma {:induction false} ReadEscaped(v: string, rest: string)
    ensures ReadString(Escape(v) + "\"" + rest) == Some((v, rest))
    decreases |v|
  {
    var w := Escape(v) + "\"" + rest;
    if |v| == 0 {
      assert w == "\"" + rest;
      assert w[1..] == rest;
    } else {
      var tail := Escape(v[1..]) + "\"" + rest;
      ReadEscaped(v[1..], rest);
      assert [v[0]] + v[1..] == v;
      if v[0] == '"' || v[0] == '\\' {
        assert w == ['\\', v[0]] + tail;
        assert w[0] == '\\' && w[1] == v[0];
        assert w[2..] == tail;
      } else {
        assert w == [v[0]] + tail;
        assert w[0] == v[0];
        assert w[1..] == tail;
      }
    }
  }

  /** Consumes the literal `lit` at the front of `s`. */
  function Expect(lit: string, s: string): Option<string> {
    if Text.IsPrefix(lit, s) then Some(s[|lit|..]) else None
  }

  function ReadField(key: string, s: string): Option<(string, string)> {
    match Expect("\"" + key + "\":\"", s)
    case None => None
    case Some(rest) => ReadString(rest)
  }

  lemma ReadFieldOfField(key: string, value: string, rest: string)
    ensures ReadField(key, Field(key, value) + rest) == Some((value, rest))
  {
    var lit := "\"" + key + "\":\"";
    var tail := Escape(value) + "\"" + rest;
    assert Field(key, value) + rest == lit + tail;
    assert (lit + tail)[..|lit|] == lit;
    assert (lit + tail)[|lit|..] == tail;
    ReadEscaped(value, rest);
  }

  function RoleOf(key: string): Option<Role> {
    if key == "citizen" then Some(Citizen) else if key == "admin" then Some(Admin) else None
  }

  /** The stored record: `{`, then the four fields in order, then `}` and nothing after. */
  function ReadUser(s: string): Option<User> {
    match Expect("{", s)
    case None => None
    case Some(s1) => ReadFromId(s1)
  }

  function ReadFromId(s: string): Option<User> {
    match ReadField("id", s)
    case None => None
    case Some((id, s2)) =>
      match Expect(",", s2)
      case None => None
      case Some(s3) => ReadFromName(id, s3)
  }

  function ReadFromName(id: string, s: string): Option<User> {
    match ReadField("name", s)
    case None => None
    case Some((name, s4)) =>
      match Expect(",", s4)
      case None => None
      case Some(s5) => ReadFromEmail(id, name, s5)
  }

  function ReadFromEmail(id: string, name: string, s: string): Option<User> {
    match ReadField("email", s)
    case None => None
    case Some((email, s6)) =>
      match Expect(",", s6)
      case None => None
      case Some(s7) => ReadFromRole(id, name, email, s7)
  }

  function ReadFromRole(id: string, name: string, email: string, s: string): Option<User> {
    match ReadField("role", s)
    case None => None
    case Some((role, s8)) =>
      if s8 == "}" && RoleOf(role).Some? then Some(User(id, name, email, RoleOf(role).value))
      else None
  }

  /**
   * `JSON.parse` of the stored text: `None` when it throws, `Some(None)` for the
   * JSON `null`, `Some(Some(u))` for a user record.
   */
  function Parse(s: string): (r: Option<Option<User>>)
    ensures r == Some(None) <==> s == "null"
    ensures r.Some? && r.value.Some? ==> ReadUser(s) == r.value
  {
    if s == "null" then Some(None)
    else
      match ReadUser(s)
      case Some(u) => Some(Some(u))
      case None => None
  }

  lemma ExpectLiteral(lit: string, rest: string)
    ensures Expect(lit, lit + rest) == Some(rest)
  {
    assert (lit + rest)[..|lit|] == lit;
    assert (lit + rest)[|lit|..] == rest;
  }

  lemma ReadSerialized(u: User)
    ensures ReadUser(Serialize(u)) == Some(u)
  {
    var s8 := "}";
    var s7 := Field("role", RoleKey(u.role)) + s8;
    var s6 := "," + s7;
    var s5 := Field("email", u.email) + s6;
    var s4 := "," + s5;
    var s3 := Field("name", u.name) + s4;
    var s2 := "," + s3;
    var s1 := Field("id", u.id) + s2;
    ReadFieldOfField("role", RoleKey(u.role), s8);
    assert ReadFromRole(u.id, u.name, u.email, s7) == Some(u);
    ReadFieldOfField("email", u.email, s6);
    ExpectLiteral(",", s7);
    assert ReadFromEmail(u.id, u.name, s5) == Some(u);
    ReadFieldOfField("name", u.name, s4);
    ExpectLiteral(",", s5);
    assert ReadFromName(u.id, s3) == Some(u);
    ReadFieldOfField("id", u.id, s2);
    ExpectLiteral(",", s3);
    assert ReadFromId(s1) == Some(u);
    ExpectLiteral("{", s1);
  }

  /** A stored user reads back as the same user. */
  lemma SerializeRoundTrip(u: User)
    ensures Parse(Serialize(u)) == Some(Some(u))
  {
    ReadSerialized(u);
    assert Serialize(u)[0] == '{';
  }

  // ---------------------------------------------------------------------------
  // Transitions

  /** The session at start-up: nothing stored, empty, unparsable or `null` means logged out. */
  function Restore(store: Store): (user: Option<User>)
    ensures UserKey !in store ==> user.None?
    ensures (UserKey in store && (store[UserKey] == "" || store[UserKey] == "null"
                                  || Parse(store[UserKey]).None?)) ==> user.None?
    ensures UserKey in store && ReadUser(store[UserKey]).Some? ==> user == ReadUser(store[UserKey])
  {
    if UserKey !in store || store[UserKey] == "" then None
    else
      match Parse(store[UserKey])
      case Some(v) => v
      case None => None
  }

  function Initial(store: Store): Session {
    Session(Restore(store), store)
  }

  /** The name a login gives: a fixed one for administrators, else the email before its first '@'. */
  function LoginName(email: string, role: Role): (name: string)
    ensures role == Admin ==> name == "Commander Admin"
    ensures role == Citizen ==> Text.IsPrefix(name, email) && '@' !in name
    ensures role == Citizen ==> name == email || (|name| < |email| && email[|name|] == '@')
  {
    if role == Admin then "Commander Admin" else Text.BeforeFirst(email, '@')
  }

  /** For an address `local@domain` a citizen is named `local`. */
  lemma LoginNameOfAddress(local: string, domain: string)
    requires '@' !in local
    ensures LoginName(local + "@" + domain, Citizen) == local
  {
    var email := local + "@" + domain;
    var name := LoginName(email, Citizen);
    assert email[|local|] == '@';
    assert forall i :: 0 <= i < |local| ==> email[i] == local[i];
    assert name == email[..|name|] == local;
  }

  /** Records the user in memory and in storage. */
  function SignIn(s: Session, u: User): (r: Session)
    ensures r.user == Some(u)
    ensures Restore(r.store) == r.user
    ensures forall k :: k in s.store && k != UserKey ==> k in r.store && r.store[k] == s.store[k]
    ensures forall k :: k in r.store ==> k in s.store || k == UserKey
  {
    SerializeRoundTrip(u);
    Session(Some(u), s.store[UserKey := Serialize(u)])
  }

  /** `login`: accepts any password, always succeeds. */
  function Login(s: Session, email: string, password: string, role: Role, freshId: string): (r: (Session, bool))
    ensures r.1
    ensures r.0.user.Some? && r.0.user.value.id == freshId
    ensures r.0.user.Some? && r.0.user.value.email == email && r.0.user.value.role == role
    ensures r.0.user.Some? && r.0.user.value.name == LoginName(email, role)
    ensures Restore(r.0.store) == r.0.user
  {
    (SignIn(s, User(freshId, LoginName(email, role), email, role)), true)
  }

  /** The password plays no part in a login. */
  lemma LoginIgnoresPassword(s: Session, email: string, p1: string, p2: string, role: Role, freshId: string)
    ensures Login(s, email, p1, role, freshId) == Login(s, email, p2, role, freshId)
  {
  }

  /** `signup`: always a citizen with the given name and email, always succeeds. */
  function Signup(s: Session, name: string, email: string, password: string, freshId: string): (r: (Session, bool))
    ensures r.1
    ensures r.0.user == Some(User(freshId, name, email, Citizen))
    ensures Restore(r.0.store) == r.0.user
  {
    (SignIn(s, User(freshId, name, email, Citizen)), true)
  }

  /** `logout`: forgets the user in memory and in storage, leaving other entries alone. */
  function Logout(s: Session): (r: Session)
    ensures r.user.None? && UserKey !in r.store
    ensures Restore(r.store).None?
    ensures forall k :: k in s.store && k != UserKey ==> k in r.store && r.store[k] == s.store[k]
    ensures forall k :: k in r.store ==> k in s.store
  {
    Session(None, s.store - {UserKey})
  }

  /** A session survives a reload; logging out survives it too. */
  lemma ReloadKeepsSession(s: Session, email: string, password: string, role: Role, freshId: string)
    ensures var signedIn := Login(s, email, password, role, freshId).0;
      Initial(signedIn.store) == signedIn
    ensures Initial(Logout(s).store) == Logout(s)
  {
  }
}
