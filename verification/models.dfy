/** The data model of `models.py`: users keyed by a unique e-mail, links and
    contexts owned by a user, and the many-to-many table joining contexts to
    the links they were built from. The database is a record of tables, each a
    map from primary key to row, with the next primary key of each table. */
module Models {
  import opened Wrappers

  datatype User = User(email: string, firstName: string, lastName: string, isActive: bool, isAdmin: bool) {
    /** `is_staff` is a property that reads `is_admin`. */
    predicate IsStaff() {
      isAdmin
    }

    /** Every permission is granted, to every user. */
    predicate HasPerm(perm: string) {
      true
    }

    predicate HasModulePerms(appLabel: string) {
      true
    }
  }

  /** A saved link; `owner` is the foreign key to its user. */
  datatype UserLink = UserLink(name: string, owner: nat, url: string)

  /** A context's own columns; its links live in the join table. */
  datatype Context = Context(owner: nat, text: string)

  /** One row of the join table behind `Context.links`. */
  datatype ContextLink = ContextLink(context: nat, link: nat)

  datatype Store = Store(
    users: map<nat, User>,
    links: map<nat, UserLink>,
    contexts: map<nat, Context>,
    contextLinks: set<ContextLink>,
    nextUserId: nat,
    nextLinkId: nat,
    nextContextId: nat)

  const EmptyStore := Store(map[], map[], map[], {}, 1, 1, 1)

  /** The `unique=True` constraint on `User.email`. */
  ghost predicate UniqueEmails(users: map<nat, User>) {
    forall a, b :: a in users && b in users && users[a].email == users[b].email ==> a == b
  }

  /** Database integrity: primary keys below the next key, unique e-mails,
      and every foreign key pointing at an existing row. */
  ghost predicate Valid(st: Store) {
    && (forall id :: id in st.users ==> id < st.nextUserId)
    && (forall id :: id in st.links ==> id < st.nextLinkId)
    && (forall id :: id in st.contexts ==> id < st.nextContextId)
    && UniqueEmails(st.users)
    && (forall id :: id in st.links ==> st.links[id].owner in st.users)
    && (forall id :: id in st.contexts ==> st.contexts[id].owner in st.users)
    && (forall p :: p in st.contextLinks ==> p.context in st.contexts && p.link in st.links)
  }

  lemma EmptyStoreValid()
    ensures Valid(EmptyStore)
  {
  }

  predicate StrictlyIncreasing(s: seq<nat>) {
    forall i, j :: 0 <= i < j < |s| ==> s[i] < s[j]
  }

  /** Two strictly increasing sequences with the same elements are equal: a
      set of primary keys has exactly one listing in key order. */
  lemma {:induction false} StrictlyIncreasingUnique(a: seq<nat>, b: seq<nat>)
    requires StrictlyIncreasing(a) && StrictlyIncreasing(b)
    requires forall x :: x in a <==> x in b
    ensures a == b
    decreases |a|
  {
    assert a != [] ==> a[0] in b;
    assert b != [] ==> b[0] in a;
    if a != [] && b != [] {
      assert a[0] == b[0] by {
        assert a[0] in b && b[0] in a;
      }
      forall x
        ensures x in a[1..] <==> x in b[1..]
      {
        if x in a[1..] {
          assert x in b && x != b[0];
        }
        if x in b[1..] {
          assert x in a && x != a[0];
        }
      }
      StrictlyIncreasingUnique(a[1..], b[1..]);
      assert a == [a[0]] + a[1..] && b == [b[0]] + b[1..];
    }
  }

  /** The primary keys from `k` on of the links that satisfy `keep`, in key order. */
  function SelectLinksFrom(st: Store, keep: (nat, UserLink) -> bool, k: nat): (r: seq<nat>)
    ensures StrictlyIncreasing(r)
    ensures forall i :: 0 <= i < |r| ==> k <= r[i] && r[i] in st.links && keep(r[i], st.links[r[i]])
    ensures forall id :: k <= id < st.nextLinkId && id in st.links && keep(id, st.links[id]) ==> id in r
    decreases st.nextLinkId - k
  {
    if k >= st.nextLinkId then []
    else (if k in st.links && keep(k, st.links[k]) then [k] else []) + SelectLinksFrom(st, keep, k + 1)
  }

  /** A filtered link queryset without an explicit ordering, read in
      primary-key order: exactly the keys of the links that satisfy `keep`. */
  function SelectLinks(st: Store, keep: (nat, UserLink) -> bool): (r: seq<nat>)
    requires Valid(st)
    ensures StrictlyIncreasing(r)
    ensures forall id :: id in r <==> id in st.links && keep(id, st.links[id])
  {
    SelectLinksFrom(st, keep, 0)
  }

  function UserWithEmailFrom(st: Store, email: string, k: nat): (r: Option<nat>)
    ensures r.Some? ==> k <= r.value && r.value in st.users && st.users[r.value].email == email
    ensures r.None? ==> forall id :: k <= id < st.nextUserId && id in st.users ==> st.users[id].email != email
    decreases st.nextUserId - k
  {
    if k >= st.nextUserId then None
    else if k in st.users && st.users[k].email == email then Some(k)
    else UserWithEmailFrom(st, email, k + 1)
  }

  /** `User.objects.filter(email=email).first()`; by the uniqueness of e-mails
      it is also what `User.objects.get(email=email)` finds. */
  function UserWithEmail(st: Store, email: string): (r: Option<nat>)
    requires Valid(st)
    ensures r.Some? ==> r.value in st.users && st.users[r.value].email == email
    ensures r.Some? ==> forall id :: id in st.users && st.users[id].email == email ==> id == r.value
    ensures r.None? <==> forall id :: id in st.users ==> st.users[id].email != email
  {
    UserWithEmailFrom(st, email, 0)
  }

  /** A user row as `create_user` builds it: the field defaults make it
      active and not an admin. */
  function NewUser(email: string, firstName: string, lastName: string): User {
    User(email, firstName, lastName, true, false)
  }

  datatype Created = Created(store: Store, id: nat)

  /** Saving a new user row under the next primary key. */
  function InsertUser(st: Store, u: User): (c: Created)
    requires Valid(st)
    requires forall id :: id in st.users ==> st.users[id].email != u.email
    ensures Valid(c.store)
    ensures c.id !in st.users && c.store.users == st.users[c.id := u]
    ensures c.store.links == st.links && c.store.contexts == st.contexts && c.store.contextLinks == st.contextLinks
  {
    Created(st.(users := st.users[st.nextUserId := u], nextUserId := st.nextUserId + 1), st.nextUserId)
  }

  datatype CreateError =
    | MissingEmail    // ValueError("Users must have an email address")
    | DuplicateEmail  // the database's unique constraint on the e-mail column

  /** `UserProfileManager.create_user`. E-mail normalisation belongs to the
      framework and is a parameter; the password is not modelled. */
  function CreateUser(st: Store, email: string, firstName: string, lastName: string, normalize: string -> string): (r: Result<Created, CreateError>)
    requires Valid(st)
    ensures email == [] <==> r == Failure(MissingEmail)
    ensures r == Failure(DuplicateEmail) <==>
      email != [] && exists id :: id in st.users && st.users[id].email == normalize(email)
    ensures r.Success? ==> Valid(r.value.store) && r.value.id !in st.users
    ensures r.Success? ==> r.value.store.users == st.users[r.value.id := User(normalize(email), firstName, lastName, true, false)]
    ensures r.Success? ==> r.value.store.links == st.links && r.value.store.contexts == st.contexts && r.value.store.contextLinks == st.contextLinks
  {
    if email == [] then Failure(MissingEmail)
    else
      var e := normalize(email);
      if UserWithEmail(st, e).Some? then Failure(DuplicateEmail)
      else Success(InsertUser(st, NewUser(e, firstName, lastName)))
  }

  /** `UserProfileManager.create_superuser`: `create_user`, then `is_admin` set
      and the row saved again. */
  function CreateSuperuser(st: Store, email: string, firstName: string, lastName: string, normalize: string -> string): (r: Result<Created, CreateError>)
    requires Valid(st)
    ensures var plain := CreateUser(st, email, firstName, lastName, normalize);
      && (r.Failure? <==> plain.Failure?)
      && (r.Failure? ==> r.error == plain.error)
      && (r.Success? ==>
            && r.value.id == plain.value.id
            && r.value.store == plain.value.store.(users := plain.value.store.users[r.value.id := plain.value.store.users[r.value.id].(isAdmin := true)]))
    ensures r.Success? ==> Valid(r.value.store) && r.value.store.users[r.value.id].IsStaff()
  {
    match CreateUser(st, email, firstName, lastName, normalize)
    case Failure(e) => Failure(e)
    case Success(c) =>
      var u := c.store.users[c.id];
      Success(Created(c.store.(users := c.store.users[c.id := u.(isAdmin := true)]), c.id))
  }

  /** A user made by `create_user` is active, not an admin, not staff, and
      still holds every permission; one made by `create_superuser` differs
      only in being an admin, hence staff. */
  lemma CreatedUserFlags(st: Store, email: string, firstName: string, lastName: string, normalize: string -> string, perm: string)
    requires Valid(st)
    ensures var r := CreateUser(st, email, firstName, lastName, normalize);
      r.Success? ==>
        var u := r.value.store.users[r.value.id];
        && u.email == normalize(email) && u.firstName == firstName && u.lastName == lastName
        && u.isActive && !u.isAdmin && !u.IsStaff() && u.HasPerm(perm)
    ensures var r := CreateSuperuser(st, email, firstName, lastName, normalize);
      r.Success? ==>
        var u := r.value.store.users[r.value.id];
        && u.email == normalize(email) && u.firstName == firstName && u.lastName == lastName
        && u.isActive && u.isAdmin && u.IsStaff() && u.HasPerm(perm)
  {
  }

  /** Deleting a user row; `on_delete=CASCADE` removes the user's links and
      contexts, and the join rows of every removed link or context. */
  function DeleteUser(st: Store, uid: nat): (r: Store)
    requires Valid(st)
    ensures Valid(r)
    ensures r.users.Keys == st.users.Keys - {uid}
    ensures forall id :: id in r.users ==> r.users[id] == st.users[id]
    ensures forall id :: id in r.links <==> id in st.links && st.links[id].owner != uid
    ensures forall id :: id in r.links ==> r.links[id] == st.links[id]
    ensures forall id :: id in r.contexts <==> id in st.contexts && st.contexts[id].owner != uid
    ensures forall id :: id in r.contexts ==> r.contexts[id] == st.contexts[id]
    ensures forall p :: p in r.contextLinks <==> p in st.contextLinks && p.context in r.contexts && p.link in r.links
    ensures r.nextUserId == st.nextUserId && r.nextLinkId == st.nextLinkId && r.nextContextId == st.nextContextId
  {
    var links := map id | id in st.links && st.links[id].owner != uid :: st.links[id];
    var contexts := map id | id in st.contexts && st.contexts[id].owner != uid :: st.contexts[id];
    var pairs := set p | p in st.contextLinks && p.context in contexts && p.link in links;
    st.(users := st.users - {uid}, links := links, contexts := contexts, contextLinks := pairs)
  }

  /** After the cascade nothing refers to the deleted user any more. */
  lemma DeleteUserLeavesNoOrphans(st: Store, uid: nat)
    requires Valid(st)
    ensures var r := DeleteUser(st, uid);
      && uid !in r.users
      && (forall id :: id in r.links ==> r.links[id].owner != uid)
      && (forall id :: id in r.contexts ==> r.contexts[id].owner != uid)
  {
  }
}
