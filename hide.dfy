/** Hiding one of one's own liked tracks from the shared feed: guards on the
    session, the fields and ownership, then one `SADD` into the `hidden` set. */
module HideHandler {
  import opened Common
  import opened Session
  import opened Redis

  datatype HideRequest = HideRequest(trackId: Option<string>, likedByUserId: Option<string>)

  /** The handler's checks in its order (405, 401, 400, 403); on success, the
      member to add. */
  function CheckHide(httpMethod: string, cookie: Option<string>, req: HideRequest): (r: Reply<string>)
    ensures r == Err(405, "Method not allowed") <==> httpMethod != "POST"
    ensures r == Err(401, "Not logged in") <==> httpMethod == "POST" && CurrentUserId(cookie).None?
    ensures r == Err(400, "Missing trackId or likedByUserId") <==>
              httpMethod == "POST" && CurrentUserId(cookie).Some?
              && (!Truthy(req.trackId) || !Truthy(req.likedByUserId))
    ensures r == Err(403, "You can only hide your own tracks") <==>
              httpMethod == "POST" && CurrentUserId(cookie).Some?
              && Truthy(req.trackId) && Truthy(req.likedByUserId)
              && CurrentUserId(cookie).value != req.likedByUserId.value
    ensures r.Ok? <==> httpMethod == "POST" && Truthy(req.trackId) && Truthy(req.likedByUserId)
                       && CurrentUserId(cookie) == Some(req.likedByUserId.value)
    ensures r.Ok? ==> r.body == HiddenMember(req.trackId.value, req.likedByUserId.value)
  {
    if httpMethod != "POST" then Err(405, "Method not allowed")
    else if CurrentUserId(cookie).None? then Err(401, "Not logged in")
    else if !Truthy(req.trackId) || !Truthy(req.likedByUserId) then Err(400, "Missing trackId or likedByUserId")
    else if CurrentUserId(cookie).value != req.likedByUserId.value then Err(403, "You can only hide your own tracks")
    else Ok(HiddenMember(req.trackId.value, req.likedByUserId.value))
  }

  /** The handler: only `hidden` can change, and it gains the one member on success. */
  method Hide(store: Store, httpMethod: string, cookie: Option<string>, req: HideRequest)
    returns (r: Reply<()>)
    requires store.Valid()
    modifies store
    ensures store.Valid()
    ensures store.users == old(store.users) && store.lists == old(store.lists)
    ensures CheckHide(httpMethod, cookie, req).Err? ==>
              r == Err(CheckHide(httpMethod, cookie, req).status, CheckHide(httpMethod, cookie, req).error)
              && store.hidden == old(store.hidden)
    ensures CheckHide(httpMethod, cookie, req).Ok? ==>
              r == Ok(()) && store.hidden == old(store.hidden) + {CheckHide(httpMethod, cookie, req).body}
  {
    var check := CheckHide(httpMethod, cookie, req);
    if check.Err? {
      return Err(check.status, check.error);
    }
    store.SAdd(check.body);
    return Ok(());
  }

  /** The same request sent twice: the second call answers as the first did and
      leaves the store exactly as one call leaves it. */
  method HideTwice(store: Store, httpMethod: string, cookie: Option<string>, req: HideRequest)
    returns (r1: Reply<()>, r2: Reply<()>)
    requires store.Valid()
    modifies store
    ensures store.Valid()
    ensures r2 == r1
    ensures store.users == old(store.users) && store.lists == old(store.lists)
    ensures var c := CheckHide(httpMethod, cookie, req);
            store.hidden == if c.Ok? then old(store.hidden) + {c.body} else old(store.hidden)
  {
    r1 := Hide(store, httpMethod, cookie, req);
    ghost var afterFirst := store.hidden;
    r2 := Hide(store, httpMethod, cookie, req);
    assert store.hidden == afterFirst;
  }
}
