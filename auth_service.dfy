/** The session (`AuthService`): the stored id of the current user,
    resolved against the user store on every read. Every account accepts
    one shared password. */
module AuthService {
  import opened Types
  import opened Seqs
  import opened DataService

  /** The password every account accepts. */
  const Password: string := "password123"

  /** The user the session points at; none without a window, without a
      session, or when no stored user has the session's id. */
  function GetCurrentUser(st: LocalStorage): (r: Option<User>)
    reads st
    ensures r.Some? <==>
              && st.hasWindow && st.session.Some?
              && exists i :: 0 <= i < |GetUsers(st)| && GetUsers(st)[i].id == st.session.value
    ensures r.Some? ==> r.value.id == st.session.value && r.value in GetUsers(st)
    ensures r.Some? ==>
              exists i :: 0 <= i < |GetUsers(st)| && GetUsers(st)[i] == r.value &&
                forall j :: 0 <= j < i ==> GetUsers(st)[j].id != st.session.value
  {
    if !st.hasWindow then None
    else
      match st.session
      case None => None
      case Some(id) => GetUserById(st, id)
  }

  /** `getCurrentUser() !== null`: a session that names a stored user. */
  predicate IsAuthenticated(st: LocalStorage): (r: bool)
    reads st
    ensures r <==>
              && st.hasWindow && st.session.Some?
              && exists i :: 0 <= i < |GetUsers(st)| && GetUsers(st)[i].id == st.session.value
  {
    GetCurrentUser(st).Some?
  }

  /** The check `login` makes: the first user with this exact email,
      provided the password is the shared one. */
  function CheckCredentials(users: seq<User>, email: string, password: string): (r: Option<User>)
    ensures r.Some? <==> password == Password && exists i :: 0 <= i < |users| && users[i].email == email
    ensures r.Some? ==> r.value.email == email
    ensures r.Some? ==>
              exists i :: 0 <= i < |users| && users[i] == r.value &&
                forall j :: 0 <= j < i ==> users[j].email != email
  {
    var user := Find(users, UserEmail, email);
    if user.Some? && password == Password then user else None
  }

  /** On success the session points at the user found; on failure nothing
      changes. */
  method Login(st: LocalStorage, email: string, password: string) returns (r: Option<User>)
    modifies st
    ensures r == CheckCredentials(old(GetUsers(st)), email, password)
    ensures st.session == if r.Some? && st.hasWindow then Some(r.value.id) else old(st.session)
    ensures st.users == old(st.users) && st.collections == old(st.collections)
    ensures st.reports == old(st.reports)
    ensures r.Some? && st.hasWindow ==> IsAuthenticated(st) && GetCurrentUser(st).value.id == r.value.id
  {
    var user := GetUserByEmail(st, email);
    if user.Some? && password == Password {
      if st.hasWindow {
        st.session := Some(user.value.id);
      }
      return user;
    }
    return None;
  }

  /** `Omit<User, "id" | "createdAt">`: what the registration form supplies. */
  datatype UserData = UserData(
    email: string,
    name: string,
    role: Role,
    phone: Option<string>,
    address: Option<string>,
    company: Option<string>)

  function DataOf(u: User): UserData {
    UserData(u.email, u.name, u.role, u.phone, u.address, u.company)
  }

  /** `{ ...userData, id, createdAt }`: the form's fields, kept as they are,
      plus an id and a creation time. */
  function NewUser(d: UserData, id: string, now: Time): (u: User)
    ensures DataOf(u) == d
    ensures u.id == id && u.createdAt == now
  {
    User(id, d.email, d.name, d.role, d.phone, d.address, d.company, now)
  }

  /** Stores a new user under `id` (taken from the clock) and signs them in.
      No check is made that the email is not already in use. */
  method Register(st: LocalStorage, d: UserData, id: string, now: Time) returns (u: User)
    modifies st
    ensures DataOf(u) == d && u.id == id && u.createdAt == now
    ensures st.users == if st.hasWindow then Some(Upsert(old(GetUsers(st)), u, UserId)) else old(st.users)
    ensures st.session == if st.hasWindow then Some(id) else old(st.session)
    ensures st.collections == old(st.collections) && st.reports == old(st.reports)
    ensures st.hasWindow ==> GetCurrentUser(st) == Some(u)
  {
    u := NewUser(d, id, now);
    SaveUser(st, u);
    if st.hasWindow {
      st.session := Some(u.id);
    }
  }

  /** Clears the stored session. */
  method Logout(st: LocalStorage)
    modifies st
    ensures st.session == if st.hasWindow then None else old(st.session)
    ensures st.users == old(st.users) && st.collections == old(st.collections)
    ensures st.reports == old(st.reports)
    ensures GetCurrentUser(st).None? && !IsAuthenticated(st)
  {
    if st.hasWindow {
      st.session := None;
    }
  }

  /** Registering with an email that is already in use, under an id no
      stored user has, leaves the older account as the one found by email,
      and the one `login` signs in with that email. */
  lemma RegisterKeepsOlderAccount(users: seq<User>, u: User)
    requires forall i :: 0 <= i < |users| ==> users[i].id != u.id
    requires exists i :: 0 <= i < |users| && users[i].email == u.email
    ensures Find(Upsert(users, u, UserId), UserEmail, u.email) == Find(users, UserEmail, u.email)
    ensures CheckCredentials(Upsert(users, u, UserId), u.email, Password) == Find(users, UserEmail, u.email)
    ensures CheckCredentials(Upsert(users, u, UserId), u.email, Password) != Some(u)
  {
    assert Upsert(users, u, UserId) == users + [u];
    FindAppendFound(users, u, UserEmail, u.email);
  }

  /** Registering with an id and an email no stored user has, then logging
      in with that email and the shared password, signs in the new user. */
  lemma RegisterThenLogin(users: seq<User>, u: User)
    requires forall i :: 0 <= i < |users| ==> users[i].id != u.id && users[i].email != u.email
    ensures CheckCredentials(Upsert(users, u, UserId), u.email, Password) == Some(u)
  {
    var after := Upsert(users, u, UserId);
    assert after == users + [u];
    assert forall j :: 0 <= j < |users| ==> after[j] == users[j];
    assert after[|users|] == u;
  }
}
