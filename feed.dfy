/** The feed: every user's recent likes fetched with that user's refreshed
    credential, merged into one newest-first timeline, stripped of hidden entries
    and annotated with comment counts. The identity provider is reached through
    two oracles: `refresh` exchanges a refresh token for tokens (None when the
    exchange fails) and `likedTracks` lists the likes an access token can see
    (None when the request fails). */
module FeedHandler {
  import opened Common
  import opened Seqs
  import opened Redis
  import opened Timeline

  datatype Tokens = Tokens(accessToken: string, refreshToken: Option<string>)

  /** One item of the provider's liked-tracks listing. */
  datatype LikedItem = LikedItem(addedAt: int, trackId: string)

  datatype CountedSong = CountedSong(song: Song, commentCount: nat)

  datatype FeedReply = FeedReply(songs: seq<CountedSong>, users: seq<Liker>)

  function LikerOf(u: User): Liker
  {
    Liker(u.id, u.name, u.image)
  }

  /** The record to write back when the provider issued a refresh token that is
      non-empty and differs from the stored one. */
  function Rotated(u: User, t: Tokens): (r: Option<User>)
    ensures r.Some? <==> Truthy(t.refreshToken) && t.refreshToken.value != u.refreshToken
    ensures r.Some? ==> r.value.refreshToken == t.refreshToken.value
                        && r.value.(refreshToken := u.refreshToken) == u
  {
    if Truthy(t.refreshToken) && t.refreshToken.value != u.refreshToken then
      Some(u.(refreshToken := t.refreshToken.value))
    else None
  }

  /** The record of u once its refresh has run: the same id, name, image and
      connection time, and a new refresh token exactly when the provider rotated it. */
  function Refreshed(u: User, refresh: string -> Option<Tokens>): (r: User)
    ensures r.(refreshToken := u.refreshToken) == u
    ensures r.refreshToken != u.refreshToken <==>
              refresh(u.refreshToken).Some? && Truthy(refresh(u.refreshToken).value.refreshToken)
              && refresh(u.refreshToken).value.refreshToken.value != u.refreshToken
  {
    match refresh(u.refreshToken)
    case None => u
    case Some(t) => if Rotated(u, t).Some? then Rotated(u, t).value else u
  }

  /** The `users` hash after u's fetch: rewritten only when the refresh succeeded
      and rotated the token. */
  function AfterFetch(users: seq<User>, u: User, refresh: string -> Option<Tokens>): seq<User>
  {
    match refresh(u.refreshToken)
    case None => users
    case Some(t) => if Rotated(u, t).Some? then SetUser(users, Rotated(u, t).value) else users
  }

  /** The `users` hash after the fetches of us, one after another. */
  function AfterFetches(users: seq<User>, us: seq<User>, refresh: string -> Option<Tokens>): (r: seq<User>)
    decreases |us|
    ensures |users| <= |r|
    ensures DistinctIds(users) ==> DistinctIds(r) && forall i :: 0 <= i < |users| ==> r[i].id == users[i].id
  {
    if us == [] then users
    else AfterFetch(AfterFetches(users, us[..|us| - 1], refresh), us[|us| - 1], refresh)
  }

  /** What one user's fetch contributes: nothing when either provider call fails,
      otherwise one entry per listed item, in the listing's order, credited to the
      local user record. */
  function LikedSongs(u: User, refresh: string -> Option<Tokens>, likedTracks: string -> Option<seq<LikedItem>>)
    : (r: seq<Song>)
    ensures refresh(u.refreshToken).None? ==> r == []
    ensures refresh(u.refreshToken).Some? && likedTracks(refresh(u.refreshToken).value.accessToken).None? ==> r == []
    ensures forall i :: 0 <= i < |r| ==> r[i].likedBy == Liker(u.id, u.name, u.image)
    ensures refresh(u.refreshToken).Some? && likedTracks(refresh(u.refreshToken).value.accessToken).Some? ==>
              var items := likedTracks(refresh(u.refreshToken).value.accessToken).value;
              |r| == |items|
              && forall i :: 0 <= i < |r| ==> r[i].addedAt == items[i].addedAt && r[i].trackId == items[i].trackId
  {
    match refresh(u.refreshToken)
    case None => []
    case Some(t) =>
      match likedTracks(t.accessToken)
      case None => []
      case Some(items) => seq(|items|, i requires 0 <= i < |items| => Song(items[i].addedAt, items[i].trackId, LikerOf(u)))
  }

  /** The per-user lists in user order, as `Promise.all` returns them whatever
      order the fetches finish in. */
  function PerUser(us: seq<User>, refresh: string -> Option<Tokens>, likedTracks: string -> Option<seq<LikedItem>>)
    : (r: seq<seq<Song>>)
    ensures |r| == |us|
    ensures forall i :: 0 <= i < |us| ==> r[i] == LikedSongs(us[i], refresh, likedTracks)
  {
    seq(|us|, i requires 0 <= i < |us| => LikedSongs(us[i], refresh, likedTracks))
  }

  /** The feed's `users` list: every record reduced to id, name and image, in hash order. */
  function Likers(us: seq<User>): (r: seq<Liker>)
    ensures |r| == |us|
    ensures forall i :: 0 <= i < |us| ==> r[i].id == us[i].id && r[i].name == us[i].name && r[i].image == us[i].image
  {
    seq(|us|, i requires 0 <= i < |us| => LikerOf(us[i]))
  }

  /** `getUserLikedSongs`: refresh, write back a rotated token, fetch, map. */
  method GetUserLikedSongs(store: Store, u: User, refresh: string -> Option<Tokens>,
                           likedTracks: string -> Option<seq<LikedItem>>)
    returns (songs: seq<Song>)
    requires store.Valid()
    modifies store
    ensures store.Valid()
    ensures songs == LikedSongs(u, refresh, likedTracks)
    ensures store.users == AfterFetch(old(store.users), u, refresh)
    ensures store.hidden == old(store.hidden) && store.lists == old(store.lists)
  {
    var tokens := refresh(u.refreshToken);
    if tokens.None? {
      return [];
    }
    var rotated := Rotated(u, tokens.value);
    if rotated.Some? {
      store.HSet(rotated.value);
    }
    var items := likedTracks(tokens.value.accessToken);
    if items.None? {
      return [];
    }
    var listed := items.value;
    songs := seq(|listed|, i requires 0 <= i < |listed| => Song(listed[i].addedAt, listed[i].trackId, LikerOf(u)));
  }

  /** The pipelined `LLEN`s: one per entry, queued in entry order, and each reply
      assigned back to the entry at the same position. */
  method CountComments(store: Store, visible: seq<Song>) returns (counted: seq<CountedSong>)
    ensures |counted| == |visible|
    ensures forall i :: 0 <= i < |visible| ==>
              counted[i].song == visible[i]
              && counted[i].commentCount == store.LLen(CommentsKey(visible[i].trackId, visible[i].likedBy.id))
  {
    var keys: seq<string> := [];
    for i := 0 to |visible|
      invariant |keys| == i
      invariant forall j :: 0 <= j < i ==> keys[j] == CommentsKey(visible[j].trackId, visible[j].likedBy.id)
    {
      keys := keys + [CommentsKey(visible[i].trackId, visible[i].likedBy.id)];
    }
    var counts := seq(|keys|, j requires 0 <= j < |keys| reads store => store.LLen(keys[j]));
    counted := [];
    for i := 0 to |visible|
      invariant |counted| == i
      invariant forall j :: 0 <= j < i ==> counted[j] == CountedSong(visible[j], counts[j])
    {
      counted := counted + [CountedSong(visible[i], counts[i])];
    }
  }

  /** The handler. An empty `users` hash answers at once, with no provider call
      and no write. Otherwise only rotated refresh tokens are written, and the
      songs are the feed order with each entry's comment count. */
  method Feed(store: Store, refresh: string -> Option<Tokens>, likedTracks: string -> Option<seq<LikedItem>>)
    returns (r: FeedReply)
    requires store.Valid()
    modifies store
    ensures store.Valid()
    ensures store.hidden == old(store.hidden) && store.lists == old(store.lists)
    ensures store.users == AfterFetches(old(store.users), old(store.users), refresh)
    ensures old(store.users) == [] ==> r == FeedReply([], [])
    ensures old(store.users) != [] ==>
              var order := FeedOrder(PerUser(old(store.users), refresh, likedTracks), old(store.hidden));
              |r.songs| == |order|
              && (forall i :: 0 <= i < |order| ==>
                    r.songs[i].song == order[i]
                    && r.songs[i].commentCount == store.LLen(CommentsKey(order[i].trackId, order[i].likedBy.id)))
              && r.users == Likers(old(store.users))
  {
    var users := store.users;
    if |users| == 0 {
      return FeedReply([], []);
    }
    var perUser: seq<seq<Song>> := [];
    var i := 0;
    while i < |users|
      invariant 0 <= i <= |users|
      invariant store.Valid()
      invariant store.hidden == old(store.hidden) && store.lists == old(store.lists)
      invariant perUser == PerUser(users[..i], refresh, likedTracks)
      invariant store.users == AfterFetches(users, users[..i], refresh)
    {
      var songs := GetUserLikedSongs(store, users[i], refresh, likedTracks);
      assert users[..i + 1][..i] == users[..i];
      perUser := perUser + [songs];
      i := i + 1;
    }
    assert users[..i] == users;
    var allSongs := SortNewestFirst(Flatten(perUser));
    var visible := Visible(allSongs, store.hidden);
    var counted := CountComments(store, visible);
    r := FeedReply(counted, Likers(users));
  }

  /** The feed's writes leave every record in place and change at most its refresh
      token: exactly when the provider rotated it. */
  lemma {:induction false} OnlyRotatedTokensChange(users: seq<User>, refresh: string -> Option<Tokens>)
    requires DistinctIds(users)
    ensures |AfterFetches(users, users, refresh)| == |users|
    ensures forall i :: 0 <= i < |users| ==> AfterFetches(users, users, refresh)[i] == Refreshed(users[i], refresh)
  {
    AfterFetchesPrefix(users, |users|, refresh);
    assert users[..|users|] == users;
  }

  lemma {:induction false} AfterFetchesPrefix(users: seq<User>, k: nat, refresh: string -> Option<Tokens>)
    requires DistinctIds(users) && k <= |users|
    ensures |AfterFetches(users, users[..k], refresh)| == |users|
    ensures forall i :: 0 <= i < |users| ==>
              AfterFetches(users, users[..k], refresh)[i] == if i < k then Refreshed(users[i], refresh) else users[i]
  {
    if k > 0 {
      AfterFetchesPrefix(users, k - 1, refresh);
      assert users[..k][..k - 1] == users[..k - 1];
      var before := AfterFetches(users, users[..k - 1], refresh);
      assert forall i :: 0 <= i < |users| ==> before[i].id == users[i].id;
      assert DistinctIds(before);
      var u := users[k - 1];
      match refresh(u.refreshToken)
      case None =>
      case Some(t) =>
        if Rotated(u, t).Some? {
          var after := SetUser(before, Rotated(u, t).value);
          assert before[k - 1].id == u.id;
          assert |after| == |before|;
        }
    }
  }
}
