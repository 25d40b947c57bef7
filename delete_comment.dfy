/** Deleting one comment by its position in the oldest-first view: the handler
    reads the list, reverses it, checks the index and the author, removes the
    comment, deletes the key and pushes the remaining comments back one by one. */
module DeleteCommentHandler {
  import opened Common
  import opened Seqs
  import opened Session
  import opened Redis

  /** `index` is None when the request's `index` is not a number. */
  datatype DeleteRequest = DeleteRequest(trackId: Option<string>, likedByUserId: Option<string>, index: Option<int>)

  datatype Target = Target(userId: string, trackId: string, likedByUserId: string, index: int)

  /** The checks made before the store is read, in the handler's order. */
  function CheckDelete(httpMethod: string, cookie: Option<string>, req: DeleteRequest): (r: Reply<Target>)
    ensures r == Err(405, "Method not allowed") <==> httpMethod != "POST"
    ensures r == Err(401, "Not logged in") <==> httpMethod == "POST" && CurrentUserId(cookie).None?
    ensures r == Err(400, "Missing required fields") <==>
              httpMethod == "POST" && CurrentUserId(cookie).Some?
              && (!Truthy(req.trackId) || !Truthy(req.likedByUserId) || req.index.None?)
    ensures r.Ok? <==> httpMethod == "POST" && CurrentUserId(cookie).Some?
                       && Truthy(req.trackId) && Truthy(req.likedByUserId) && req.index.Some?
    ensures r.Ok? ==> r.body == Target(CurrentUserId(cookie).value, req.trackId.value,
                                       req.likedByUserId.value, req.index.value)
  {
    if httpMethod != "POST" then Err(405, "Method not allowed")
    else if CurrentUserId(cookie).None? then Err(401, "Not logged in")
    else if !Truthy(req.trackId) || !Truthy(req.likedByUserId) || req.index.None? then
      Err(400, "Missing required fields")
    else Ok(Target(CurrentUserId(cookie).value, req.trackId.value, req.likedByUserId.value, req.index.value))
  }

  /** The checks against the oldest-first view: the index must fall inside it and
      the comment there must be the user's own. */
  function CheckIndex(display: seq<Comment>, index: int, userId: string): (r: Reply<nat>)
    ensures r == Err(400, "Invalid comment index") <==> index < 0 || index >= |display|
    ensures r == Err(403, "You can only delete your own comments") <==>
              0 <= index < |display| && display[index].userId != userId
    ensures r.Ok? <==> 0 <= index < |display| && display[index].userId == userId
    ensures r.Ok? ==> r.body == index && r.body < |display| && display[r.body].userId == userId
  {
    if index < 0 || index >= |display| then Err(400, "Invalid comment index")
    else if display[index].userId != userId then Err(403, "You can only delete your own comments")
    else Ok(index)
  }

  /** `DEL key`, then one `LPUSH key` per element of `pushes`, first element first. */
  method ReplaceList(store: Store, key: string, pushes: seq<Comment>)
    requires store.Valid()
    modifies store
    ensures store.Valid()
    ensures store.users == old(store.users) && store.hidden == old(store.hidden)
    ensures store.lists == if pushes == [] then old(store.lists) - {key}
                           else old(store.lists)[key := PushAll([], pushes)]
  {
    store.Del(key);
    ghost var cleared := store.lists;
    var i := 0;
    while i < |pushes|
      invariant 0 <= i <= |pushes|
      invariant store.Valid()
      invariant store.users == old(store.users) && store.hidden == old(store.hidden)
      invariant store.lists == if i == 0 then cleared else cleared[key := PushAll([], pushes[..i])]
    {
      assert pushes[..i + 1] == pushes[..i] + [pushes[i]];
      PushAllSnoc([], pushes[..i], pushes[i]);
      store.LPush(key, pushes[i]);
      i := i + 1;
    }
    assert pushes[..i] == pushes;
  }

  /** The handler as written: the survivors are pushed newest-first, so the list
      is left oldest-first at its head, the opposite of the order every other
      writer keeps. */
  method DeleteComment(store: Store, httpMethod: string, cookie: Option<string>, req: DeleteRequest)
    returns (r: Reply<()>)
    requires store.Valid()
    modifies store
    ensures store.Valid()
    ensures store.users == old(store.users) && store.hidden == old(store.hidden)
    ensures CheckDelete(httpMethod, cookie, req).Err? ==>
              r == Err(CheckDelete(httpMethod, cookie, req).status, CheckDelete(httpMethod, cookie, req).error)
              && store.lists == old(store.lists)
    ensures CheckDelete(httpMethod, cookie, req).Ok? ==>
              var t := CheckDelete(httpMethod, cookie, req).body;
              var key := CommentsKey(t.trackId, t.likedByUserId);
              var display := Reverse(old(store.LRange(key)));
              var check := CheckIndex(display, t.index, t.userId);
              (check.Err? ==> r == Err(check.status, check.error) && store.lists == old(store.lists))
              && (check.Ok? ==>
                    r == Ok(())
                    && var remaining := RemoveAt(display, check.body);
                       store.lists == if remaining == [] then old(store.lists) - {key}
                                      else old(store.lists)[key := remaining])
  {
    var guard := CheckDelete(httpMethod, cookie, req);
    if guard.Err? {
      return Err(guard.status, guard.error);
    }
    var t := guard.body;
    var key := CommentsKey(t.trackId, t.likedByUserId);
    var comments := Reverse(store.LRange(key));
    var check := CheckIndex(comments, t.index, t.userId);
    if check.Err? {
      return Err(check.status, check.error);
    }
    comments := RemoveAt(comments, check.body);
    var reversed := Reverse(comments);
    ReplaceList(store, key, reversed);
    PushAllFromEmpty(reversed);
    ReverseReverse(comments);
    return Ok(());
  }

  /** The handler with the survivors pushed oldest-first, which leaves the list
      newest-first at its head as an `LPUSH`-only log keeps it. */
  method DeleteCommentIntended(store: Store, httpMethod: string, cookie: Option<string>, req: DeleteRequest)
    returns (r: Reply<()>)
    requires store.Valid()
    modifies store
    ensures store.Valid()
    ensures store.users == old(store.users) && store.hidden == old(store.hidden)
    ensures CheckDelete(httpMethod, cookie, req).Err? ==>
              r == Err(CheckDelete(httpMethod, cookie, req).status, CheckDelete(httpMethod, cookie, req).error)
              && store.lists == old(store.lists)
    ensures CheckDelete(httpMethod, cookie, req).Ok? ==>
              var t := CheckDelete(httpMethod, cookie, req).body;
              var key := CommentsKey(t.trackId, t.likedByUserId);
              var display := Reverse(old(store.LRange(key)));
              var check := CheckIndex(display, t.index, t.userId);
              (check.Err? ==> r == Err(check.status, check.error) && store.lists == old(store.lists))
              && (check.Ok? ==>
                    r == Ok(())
                    && var remaining := RemoveAt(display, check.body);
                       store.lists == if remaining == [] then old(store.lists) - {key}
                                      else old(store.lists)[key := Reverse(remaining)])
  {
    var guard := CheckDelete(httpMethod, cookie, req);
    if guard.Err? {
      return Err(guard.status, guard.error);
    }
    var t := guard.body;
    var key := CommentsKey(t.trackId, t.likedByUserId);
    var comments := Reverse(store.LRange(key));
    var check := CheckIndex(comments, t.index, t.userId);
    if check.Err? {
      return Err(check.status, check.error);
    }
    comments := RemoveAt(comments, check.body);
    ReplaceList(store, key, comments);
    PushAllFromEmpty(comments);
    return Ok(());
  }

  /** After the delete as written, the next read of the log shows the survivors
      newest-first: for a log of three comments a, b, c posted in that order
      (stored as [c, b, a]), deleting a stores [b, c], which reads as [c, b]
      where [b, c] is intended. */
  lemma DeleteAsWrittenReordersLog(a: Comment, b: Comment, c: Comment)
    requires b != c
    ensures RemoveAt(Reverse([c, b, a]), 0) == [b, c]
    ensures PushAll([], Reverse([b, c])) == [b, c]
    ensures Reverse([b, c]) == [c, b] != [b, c]
  {
    var display := Reverse([c, b, a]);
    assert display[0] == a && display[1] == b && display[2] == c;
    assert RemoveAt(display, 0) == [b, c];
    var back := Reverse([b, c]);
    assert back[0] == c && back[1] == b;
    assert back == [c, b];
    PushAllFromEmpty(back);
    ReverseReverse([b, c]);
  }

  /** In general, after the delete as written the read shows the survivors in
      reverse of their oldest-first order. */
  lemma DeleteAsWrittenReadIsReversed(stored: seq<Comment>, i: nat)
    requires i < |stored|
    ensures var remaining := RemoveAt(Reverse(stored), i);
            Reverse(PushAll([], Reverse(remaining))) == Reverse(remaining)
  {
    var remaining := RemoveAt(Reverse(stored), i);
    PushAllFromEmpty(Reverse(remaining));
    ReverseReverse(remaining);
  }

  /** After the intended delete, the read shows exactly the previous read without
      the deleted comment: one fewer, the rest in their original order. */
  lemma DeleteIntendedReadDropsTarget(stored: seq<Comment>, i: nat)
    requires i < |stored|
    ensures var before := Reverse(stored);
            var after := Reverse(PushAll([], RemoveAt(before, i)));
            after == RemoveAt(before, i) && |after| == |before| - 1
            && multiset(after) + multiset{before[i]} == multiset(before)
  {
    var remaining := RemoveAt(Reverse(stored), i);
    PushAllFromEmpty(remaining);
    ReverseReverse(remaining);
  }
}
