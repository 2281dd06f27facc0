/** The session manager of contexts/AuthContext.tsx. The React state `user`
    and `loading`, the `localStorage` entry 'currentUser' and the shared
    store `mockUsers` become the fields of one object; the clock and the
    generated id that `register` reads are parameters. */
module Auth {
  import opened Wrappers
  import opened Types
  import opened Identity
  import MockData

  /** What `register` receives: a user without `id` and `joinedDate`. */
  datatype Registration = Registration(
    name: string,
    email: string,
    role: Role,
    avatar: Option<string>,
    bio: Option<string>,
    location: Option<string>)

  /** `{ ...userData, id, joinedDate }`. */
  function NewUser(data: Registration, id: string, joined: string): User {
    User(id, data.name, data.email, data.role, data.avatar, data.bio, data.location, joined)
  }

  class Session {
    /** The signed-in user (`null` when nobody is). */
    var user: Option<User>
    var loading: bool
    /** The persisted 'currentUser' entry. */
    var stored: Option<User>
    /** The identity store `mockUsers`, which `register` appends to. */
    var users: seq<User>

    /** Whenever someone is signed in, the persisted entry holds exactly
        that identity. */
    ghost predicate Valid()
      reads this
    {
      user.Some? ==> stored == user
    }

    /** `AuthProvider` mounting: nobody signed in yet, still loading. */
    constructor (store: seq<User>, persisted: Option<User>)
      ensures Valid()
      ensures user == None && loading && stored == persisted && users == store
    {
      user := None;
      loading := true;
      stored := persisted;
      users := store;
    }

    /** The mount effect: a persisted user becomes the current user, and
        loading ends either way. */
    method Restore()
      requires Valid()
      modifies this
      ensures Valid()
      ensures old(stored).Some? ==> user == old(stored)
      ensures old(stored).None? ==> user == old(user)
      ensures user == stored
      ensures !loading && stored == old(stored) && users == old(users)
    {
      if stored.Some? {
        user := stored;
      }
      loading := false;
    }

    /** `login`: succeeds exactly when some record has this email, and then
        signs in and persists the first such record. The password is not
        consulted. */
    method Login(email: string, password: string) returns (ok: bool)
      requires Valid()
      modifies this
      ensures Valid()
      ensures ok <==> exists j :: 0 <= j < |users| && users[j].email == email
      ensures ok ==> user == FindByEmail(users, email) && stored == user
      ensures !ok ==> user == old(user) && stored == old(stored)
      ensures users == old(users) && loading == old(loading)
    {
      var found := FindByEmail(users, email);
      if found.Some? {
        user := found;
        stored := found;
        ok := true;
      } else {
        ok := false;
      }
    }

    /** `register`: always succeeds, appends exactly one record built from the
        supplied fields, signs it in and persists it. There is no check that
        the email is unused. */
    method Register(data: Registration, id: string, joined: string) returns (ok: bool)
      requires Valid()
      modifies this
      ensures Valid()
      ensures ok
      ensures users == old(users) + [NewUser(data, id, joined)]
      ensures user == Some(NewUser(data, id, joined)) && stored == user
      ensures loading == old(loading)
    {
      var record := NewUser(data, id, joined);
      users := users + [record];
      user := Some(record);
      stored := Some(record);
      ok := true;
    }

    /** `logout`: nobody is signed in and nothing is persisted; the store is
        left as it was. */
    method Logout()
      requires Valid()
      modifies this
      ensures Valid()
      ensures user == None && stored == None
      ensures users == old(users) && loading == old(loading)
    {
      user := None;
      stored := None;
    }
  }

  /** Registering a second account under a fixture user's email, signing out
      and signing in again with that email resolves to the fixture record,
      not to the new one. */
  method DuplicateEmailScenario(data: Registration, id: string, joined: string)
    returns (ok: bool, resolved: Option<User>)
    requires exists j :: 0 <= j < |MockData.MockUsers| && MockData.MockUsers[j].email == data.email
    ensures ok && resolved == FindByEmail(MockData.MockUsers, data.email)
    ensures resolved.Some? && resolved.value in MockData.MockUsers
  {
    var session := new Session(MockData.MockUsers, None);
    session.Restore();
    var registered := session.Register(data, id, joined);
    session.Logout();
    AppendKeepsEarlierEmail(MockData.MockUsers, NewUser(data, id, joined), data.email);
    ok := session.Login(data.email, "");
    resolved := session.user;
  }

  /** Registering under an email nobody has, signing out and signing in with
      it resolves to the record that registration created. */
  method FreshEmailScenario(store: seq<User>, data: Registration, id: string, joined: string)
    returns (ok: bool, resolved: Option<User>)
    requires forall j :: 0 <= j < |store| ==> store[j].email != data.email
    ensures ok && resolved == Some(NewUser(data, id, joined))
  {
    var session := new Session(store, None);
    session.Restore();
    var registered := session.Register(data, id, joined);
    session.Logout();
    AppendFreshEmailResolves(store, NewUser(data, id, joined));
    ok := session.Login(data.email, "");
    resolved := session.user;
  }
}
