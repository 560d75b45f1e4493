/** The user collection, seen through the repository queries the gateway uses:
    lookup by id, by e-mail and by phone number, listing, and save. */
module UserStore {
  import opened Wrappers
  import opened Domain

  /** The user collection, keyed by document id. */
  type Users = map<JavaInt, User>

  /** Every document is stored under its own id. */
  ghost predicate WellKeyed(users: Users) {
    forall id :: id in users ==> users[id].id == id
  }

  /** Some stored user answers the query. */
  ghost predicate HasUserWith(users: Users, q: UserQuery) {
    exists id :: id in users && Matches(users[id], q)
  }

  /** Lookup by id. */
  function FindById(users: Users, id: JavaInt): (found: Option<User>)
    ensures found.Some? <==> id in users
    ensures found.Some? ==> found.value == users[id]
    ensures WellKeyed(users) ==> (found.Some? <==> HasUserWith(users, ById(id)))
  {
    if id in users then Some(users[id]) else None
  }

  /** Lookup by a non-key field. The collection has no order, so when several
      users answer the query any one of them may come back. */
  method FindOne(users: Users, q: UserQuery) returns (found: Option<User>)
    ensures found.Some? <==> HasUserWith(users, q)
    ensures found.Some? ==> found.value in users.Values && Matches(found.value, q)
  {
    var pending := users.Keys;
    while pending != {}
      invariant pending <= users.Keys
      invariant forall id :: id in users.Keys - pending ==> !Matches(users[id], q)
      decreases pending
    {
      var id :| id in pending;
      if Matches(users[id], q) {
        return Some(users[id]);
      }
      pending := pending - {id};
    }
    return None;
  }

  /** `all` lists the documents stored under the keys `ids`, in that order,
      and `ids` names every stored key exactly once. */
  ghost predicate ListedBy(users: Users, all: seq<User>, ids: seq<JavaInt>) {
    && |ids| == |all|
    && (forall i, j :: 0 <= i < j < |ids| ==> ids[i] != ids[j])
    && (forall id :: id in users <==> id in ids)
    && (forall i :: 0 <= i < |ids| ==> ids[i] in users && all[i] == users[ids[i]])
  }

  /** Every stored document, each exactly once, in no particular order. */
  method FindAll(users: Users) returns (all: seq<User>)
    ensures exists ids :: ListedBy(users, all, ids)
    ensures |all| == |users|
    ensures forall u :: u in all <==> u in users.Values
  {
    all := [];
    ghost var ids: seq<JavaInt> := [];
    var pending := users.Keys;
    while pending != {}
      invariant pending <= users.Keys
      invariant |all| + |pending| == |users.Keys|
      invariant |ids| == |all|
      invariant forall i, j :: 0 <= i < j < |ids| ==> ids[i] != ids[j]
      invariant forall id :: id in ids <==> id in users.Keys - pending
      invariant forall i :: 0 <= i < |ids| ==> ids[i] in users && all[i] == users[ids[i]]
      decreases pending
    {
      var id :| id in pending;
      assert id !in ids;
      all := all + [users[id]];
      ids := ids + [id];
      pending := pending - {id};
    }
    assert users.Keys - pending == users.Keys;
    assert ListedBy(users, all, ids);
    ListedByCoversValues(users, all, ids);
  }

  /** A listing by keys holds exactly the stored documents. */
  lemma ListedByCoversValues(users: Users, all: seq<User>, ids: seq<JavaInt>)
    requires ListedBy(users, all, ids)
    ensures forall u :: u in all <==> u in users.Values
  {
  }

  /** Persist a user: the document stored under its id is replaced (or
      created), nothing else changes. */
  function Save(users: Users, u: User): (users': Users)
    ensures WellKeyed(users) ==> WellKeyed(users')
    ensures users'.Keys == users.Keys + {u.id}
    ensures FindById(users', u.id) == Some(u)
    ensures forall id :: id in users && id != u.id ==> users'[id] == users[id]
  {
    users[u.id := u]
  }
}
