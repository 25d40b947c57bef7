/** Reading a comment log: the list is stored newest-first (each comment is
    pushed onto the head) and shown oldest-first, so the read reverses it. */
module CommentsHandler {
  import opened Common
  import opened Seqs
  import opened Redis
  import opened PostCommentHandler

  datatype CommentsQuery = CommentsQuery(trackId: Option<string>, likedBy: Option<string>)

  /** The handler: 400 on a missing field, otherwise the entry's whole list reversed. */
  function ReadComments(store: Store, q: CommentsQuery): (r: Reply<seq<Comment>>)
    reads store
    ensures r.Err? <==> !Truthy(q.trackId) || !Truthy(q.likedBy)
    ensures r.Err? ==> r == Err(400, "Missing trackId or likedBy")
    ensures r.Ok? ==>
              var stored := store.LRange(CommentsKey(q.trackId.value, q.likedBy.value));
              |r.body| == |stored| == store.LLen(CommentsKey(q.trackId.value, q.likedBy.value))
              && (forall i :: 0 <= i < |stored| ==> r.body[i] == stored[|stored| - 1 - i])
    ensures r.Ok? && CommentsKey(q.trackId.value, q.likedBy.value) !in store.lists ==> r.body == []
  {
    if !Truthy(q.trackId) || !Truthy(q.likedBy) then Err(400, "Missing trackId or likedBy")
    else Ok(Reverse(store.LRange(CommentsKey(q.trackId.value, q.likedBy.value))))
  }

  /** A post followed by a read of the same entry: whatever order the log held
      before, the read shows the new comment last and the previous read unchanged
      before it. A rejected post leaves the read as it was. */
  method PostThenRead(store: Store, httpMethod: string, cookie: Option<string>, req: CommentRequest, now: string)
    returns (posted: Reply<Comment>, read: Reply<seq<Comment>>)
    requires store.Valid()
    modifies store
    ensures store.Valid()
    ensures var q := CommentsQuery(req.trackId, req.likedByUserId);
            (posted.Err? ==> read == old(ReadComments(store, q)))
            && (posted.Ok? ==> old(ReadComments(store, q)).Ok?
                               && read == Ok(old(ReadComments(store, q)).body + [posted.body]))
  {
    var q := CommentsQuery(req.trackId, req.likedByUserId);
    ghost var lists := store.lists;
    posted := PostComment(store, httpMethod, cookie, req, now);
    read := ReadComments(store, q);
    if posted.Ok? {
      var key := CommentsKey(req.trackId.value, req.likedByUserId.value);
      ReversePrepend(posted.body, if key in lists then lists[key] else []);
    }
  }

  /** Comments pushed one after another onto an empty log are read back in the
      order they were pushed: the read is oldest-first. */
  lemma ReadShowsPushOrder(pushes: seq<Comment>)
    ensures Reverse(PushAll([], pushes)) == pushes
  {
    PushAllFromEmpty(pushes);
    ReverseReverse(pushes);
  }
}
