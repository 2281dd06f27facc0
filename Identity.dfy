/** Lookups in the identity store `mockUsers`: by exact email (the login of
    contexts/AuthContext.tsx) and by id with no role check (the requester
    lookup of the entrepreneur dashboard and the chat peer lookup). */
module Identity {
  import opened Wrappers
  import opened Types
  import Seqs

  /** `users[k]` is the first record whose email is exactly `email`. */
  ghost predicate FirstWithEmail(users: seq<User>, email: string, k: int) {
    0 <= k < |users| && users[k].email == email
    && forall j :: 0 <= j < k ==> users[j].email != email
  }

  /** `users[k]` is the first record whose id is exactly `id`. */
  ghost predicate FirstWithId(users: seq<User>, id: string, k: int) {
    0 <= k < |users| && users[k].id == id
    && forall j :: 0 <= j < k ==> users[j].id != id
  }

  /** `mockUsers.find(u => u.email === email)`. */
  function FindByEmail(users: seq<User>, email: string): (r: Option<User>)
    ensures r.None? <==> forall j :: 0 <= j < |users| ==> users[j].email != email
    ensures r.Some? ==> exists k :: FirstWithEmail(users, email, k) && users[k] == r.value
  {
    match Seqs.FindIndex(users, (u: User) => u.email == email)
    case None => None
    case Some(k) => Some(users[k])
  }

  /** `mockUsers.find(u => u.id === id)`. */
  function FindById(users: seq<User>, id: string): (r: Option<User>)
    ensures r.None? <==> forall j :: 0 <= j < |users| ==> users[j].id != id
    ensures r.Some? ==> exists k :: FirstWithId(users, id, k) && users[k] == r.value
  {
    match Seqs.FindIndex(users, (u: User) => u.id == id)
    case None => None
    case Some(k) => Some(users[k])
  }

  /** Appending a record whose email is already taken does not change which
      record that email resolves to: the earlier one still wins. */
  lemma AppendKeepsEarlierEmail(users: seq<User>, u: User, email: string)
    requires FindByEmail(users, email).Some?
    ensures FindByEmail(users + [u], email) == FindByEmail(users, email)
  {
    var p := (v: User) => v.email == email;
    Seqs.FindIndexAppend(users, u, p);
    var k := Seqs.FindIndex(users, p).value;
    assert (users + [u])[k] == users[k];
  }

  /** A record appended under an email nobody had resolves to itself. */
  lemma AppendFreshEmailResolves(users: seq<User>, u: User)
    requires FindByEmail(users, u.email).None?
    ensures FindByEmail(users + [u], u.email) == Some(u)
  {
    var p := (v: User) => v.email == u.email;
    Seqs.FindIndexAppendFresh(users, u, p);
  }
}
