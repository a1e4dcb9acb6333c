/** The list of online users a client shows, kept up to date by the
    `user:online` and `user:offline` socket events. The three clients use
    the same two updaters. */
module PresenceList {
  import opened ClientTypes
  import Sequences

  predicate HasId(users: seq<ClientUser>, id: string) {
    exists i :: 0 <= i < |users| && users[i].id == id
  }

  /** No two entries share an id. */
  predicate UniqueIds(users: seq<ClientUser>) {
    forall i, j :: 0 <= i < j < |users| ==> users[i].id != users[j].id
  }

  /** The `user:online` updater: the user is appended unless an entry with
      the same id is already listed. */
  function AddOnline(users: seq<ClientUser>, u: ClientUser): (r: seq<ClientUser>)
    ensures HasId(r, u.id)
    ensures users <= r && |r| <= |users| + 1
    ensures HasId(users, u.id) <==> r == users
    ensures UniqueIds(users) ==> UniqueIds(r)
  {
    if HasId(users, u.id) then users
    else
      assert (users + [u])[|users|] == u;
      users + [u]
  }

  function Other(id: string): ClientUser -> bool {
    (u: ClientUser) => u.id != id
  }

  /** The `user:offline` updater: every entry with the id goes. */
  function RemoveOnline(users: seq<ClientUser>, id: string): (r: seq<ClientUser>)
    ensures !HasId(r, id)
    ensures forall u :: u in r <==> u in users && u.id != id
    ensures |r| <= |users|
  {
    Sequences.Filter(users, Other(id))
  }

  /** Announcing the same user twice lists them once. */
  lemma AddOnlineIdempotent(users: seq<ClientUser>, u: ClientUser)
    ensures AddOnline(AddOnline(users, u), u) == AddOnline(users, u)
  {
  }

  /** Removal works element by element, so the entries that stay keep
      their order, and a list without the id is left as it is. */
  lemma {:induction false} RemoveOnlineKeepsOrder(a: seq<ClientUser>, b: seq<ClientUser>, id: string)
    ensures RemoveOnline(a + b, id) == RemoveOnline(a, id) + RemoveOnline(b, id)
    ensures !HasId(a, id) ==> RemoveOnline(a, id) == a
  {
    Sequences.FilterAppend(a, b, Other(id));
    if !HasId(a, id) {
      Sequences.FilterAll(a, Other(id));
    }
  }

  /** Removal keeps ids unique. */
  lemma {:induction false} RemoveOnlineKeepsUnique(users: seq<ClientUser>, id: string)
    requires UniqueIds(users)
    ensures UniqueIds(RemoveOnline(users, id))
  {
    if users != [] {
      var rest := users[1..];
      assert UniqueIds(rest);
      RemoveOnlineKeepsUnique(rest, id);
      assert forall v :: v in RemoveOnline(rest, id) ==> v.id != users[0].id;
    }
  }

  /** Online then offline for the same user leaves the list as if the
      user had only gone offline: no entry with the id remains. */
  lemma OnlineThenOffline(users: seq<ClientUser>, u: ClientUser)
    ensures RemoveOnline(AddOnline(users, u), u.id) == RemoveOnline(users, u.id)
    ensures !HasId(RemoveOnline(AddOnline(users, u), u.id), u.id)
  {
    if !HasId(users, u.id) {
      RemoveOnlineKeepsOrder(users, [u], u.id);
      assert RemoveOnline([u], u.id) == [];
    }
  }
}
