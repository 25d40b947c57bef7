/** Listing the linked users: every record of the `users` hash, in hash order,
    with the refresh token left out. */
module UsersHandler {
  import opened Common
  import opened Redis

  /** The only fields a listed user carries. */
  datatype PublicUser = PublicUser(id: string, name: string, image: Option<string>, connectedAt: string)

  function ListUsers(store: Store): (r: seq<PublicUser>)
    reads store
    ensures store.users == [] ==> r == []
    ensures |r| == |store.users|
    ensures forall i :: 0 <= i < |r| ==>
              var u := store.users[i];
              r[i].id == u.id && r[i].name == u.name && r[i].image == u.image && r[i].connectedAt == u.connectedAt
  {
    var us := store.users;
    seq(|us|, i requires 0 <= i < |us| => PublicUser(us[i].id, us[i].name, us[i].image, us[i].connectedAt))
  }
}
