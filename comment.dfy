/** Posting a comment: guards on the session and the fields, then one `LPUSH` of
    the new comment onto the entry's list. */
module PostCommentHandler {
  import opened Common
  import opened Session
  import opened Redis

  /** The server-side cap on the untrimmed text's length. */
  const MaxCommentLength: nat := 280

  datatype CommentRequest = CommentRequest(trackId: Option<string>, likedByUserId: Option<string>, text: Option<string>)

  /** What the guards let through. */
  datatype Accepted = Accepted(userId: string, trackId: string, likedByUserId: string, text: string)

  /** The characters `String.prototype.trim` removes: WhiteSpace (tab, vertical tab,
      form feed, space, no-break space, byte order mark and the other Zs characters)
      and LineTerminator. */
  predicate IsTrimmable(c: char)
  {
    c == '\t' || c == '\n' || c == '\U{B}' || c == '\U{C}' || c == '\r' || c == ' '
    || c == '\U{A0}' || c == '\U{1680}' || ('\U{2000}' <= c <= '\U{200A}')
    || c == '\U{2028}' || c == '\U{2029}' || c == '\U{202F}' || c == '\U{205F}'
    || c == '\U{3000}' || c == '\U{FEFF}'
  }

  function TrimStart(s: string): (r: string)
    ensures |r| <= |s| && r == s[|s| - |r|..]
    ensures forall i :: 0 <= i < |s| - |r| ==> IsTrimmable(s[i])
    ensures r == [] || !IsTrimmable(r[0])
  {
    if s != [] && IsTrimmable(s[0]) then TrimStart(s[1..]) else s
  }

  function TrimEnd(s: string): (r: string)
    ensures |r| <= |s| && r == s[..|r|]
    ensures forall i :: |r| <= i < |s| ==> IsTrimmable(s[i])
    ensures r == [] || !IsTrimmable(r[|r| - 1])
  {
    if s != [] && IsTrimmable(s[|s| - 1]) then TrimEnd(s[..|s| - 1]) else s
  }

  /** `text.trim()`: the slice of s left once the trimmable characters at both
      ends are gone. */
  function Trim(s: string): (r: string)
    ensures exists a, b :: 0 <= a <= b <= |s| && r == s[a..b]
                           && (forall i :: 0 <= i < a ==> IsTrimmable(s[i]))
                           && (forall i :: b <= i < |s| ==> IsTrimmable(s[i]))
    ensures r == [] || (!IsTrimmable(r[0]) && !IsTrimmable(r[|r| - 1]))
  {
    var t := TrimStart(s);
    var r := TrimEnd(t);
    assert r == s[|s| - |t|..|s| - |t| + |r|];
    r
  }

  /** A text of trimmable characters only trims to "". */
  lemma {:induction false} BlankTextTrimsToEmpty(s: string)
    requires forall i :: 0 <= i < |s| ==> IsTrimmable(s[i])
    ensures Trim(s) == []
  {
    if s != [] {
      BlankTextTrimsToEmpty(s[1..]);
      assert TrimStart(s) == TrimStart(s[1..]);
    }
  }

  /** The handler's checks, in the order it makes them. */
  function CheckComment(httpMethod: string, cookie: Option<string>, req: CommentRequest): (r: Reply<Accepted>)
    ensures r == Err(405, "Method not allowed") <==> httpMethod != "POST"
    ensures r == Err(401, "Not logged in") <==> httpMethod == "POST" && CurrentUserId(cookie).None?
    ensures r == Err(400, "Missing required fields") <==>
              httpMethod == "POST" && CurrentUserId(cookie).Some?
              && (!Truthy(req.trackId) || !Truthy(req.likedByUserId) || !Truthy(req.text))
    ensures r == Err(400, "Comment too long") <==>
              httpMethod == "POST" && CurrentUserId(cookie).Some?
              && Truthy(req.trackId) && Truthy(req.likedByUserId) && Truthy(req.text)
              && |req.text.value| > MaxCommentLength
    ensures r.Ok? <==> httpMethod == "POST" && CurrentUserId(cookie).Some?
                       && Truthy(req.trackId) && Truthy(req.likedByUserId) && Truthy(req.text)
                       && |req.text.value| <= MaxCommentLength
    ensures r.Ok? ==> r.body == Accepted(CurrentUserId(cookie).value, req.trackId.value,
                                         req.likedByUserId.value, req.text.value)
                      && 0 < |r.body.text| <= MaxCommentLength
  {
    if httpMethod != "POST" then Err(405, "Method not allowed")
    else if CurrentUserId(cookie).None? then Err(401, "Not logged in")
    else if !Truthy(req.trackId) || !Truthy(req.likedByUserId) || !Truthy(req.text) then
      Err(400, "Missing required fields")
    else if |req.text.value| > MaxCommentLength then Err(400, "Comment too long")
    else Ok(Accepted(CurrentUserId(cookie).value, req.trackId.value, req.likedByUserId.value, req.text.value))
  }

  /** The stored record: the session user as author, the user's stored name or,
      with no record, the user id, and the trimmed text. */
  function NewComment(a: Accepted, record: Option<User>, timestamp: string): (c: Comment)
    ensures c.userId == a.userId
    ensures record.Some? ==> c.userName == record.value.name
    ensures record.None? ==> c.userName == a.userId
    ensures c.text == Trim(a.text) && |c.text| <= |a.text|
    ensures c.timestamp == timestamp
  {
    Comment(a.userId, if record.Some? then record.value.name else a.userId, Trim(a.text), timestamp)
  }

  /** A non-empty text of trimmable characters only, within the limit, passes
      the guards (the limit and the truthiness test look at the untrimmed text)
      and the comment is stored with text "". */
  lemma BlankTextIsStoredEmpty(cookie: Option<string>, t: string, l: string, s: string,
                               record: Option<User>, now: string)
    requires CurrentUserId(cookie).Some? && t != "" && l != "" && 0 < |s| <= MaxCommentLength
    requires forall i :: 0 <= i < |s| ==> IsTrimmable(s[i])
    ensures var check := CheckComment("POST", cookie, CommentRequest(Some(t), Some(l), Some(s)));
            check.Ok? && check.body.text == s && NewComment(check.body, record, now).text == ""
  {
    BlankTextTrimsToEmpty(s);
  }

  /** The handler. `now` stands for `new Date().toISOString()`. */
  method PostComment(store: Store, httpMethod: string, cookie: Option<string>, req: CommentRequest, now: string)
    returns (r: Reply<Comment>)
    requires store.Valid()
    modifies store
    ensures store.Valid()
    ensures store.users == old(store.users) && store.hidden == old(store.hidden)
    ensures CheckComment(httpMethod, cookie, req).Err? ==>
              r == Err(CheckComment(httpMethod, cookie, req).status, CheckComment(httpMethod, cookie, req).error)
              && store.lists == old(store.lists)
    ensures CheckComment(httpMethod, cookie, req).Ok? ==>
              var a := CheckComment(httpMethod, cookie, req).body;
              var key := CommentsKey(a.trackId, a.likedByUserId);
              r == Ok(NewComment(a, old(store.HGet(a.userId)), now))
              && store.lists == old(store.lists)[key := [r.body] + old(store.LRange(key))]
  {
    var check := CheckComment(httpMethod, cookie, req);
    if check.Err? {
      return Err(check.status, check.error);
    }
    var a := check.body;
    var record := store.HGet(a.userId);
    var comment := NewComment(a, record, now);
    var key := CommentsKey(a.trackId, a.likedByUserId);
    store.LPush(key, comment);
    return Ok(comment);
  }
}
