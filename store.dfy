/** The key-value store the handlers share, reduced to the three parts they use:
    the `users` hash, the `hidden` set and the `comments:*` lists. */
module Redis {
  import opened Common
  import opened Seqs

  /** No two records share an id: each hash field holds the record of that user id. */
  predicate DistinctIds(us: seq<User>)
  {
    forall i, j :: 0 <= i < j < |us| ==> us[i].id != us[j].id
  }

  /** `HSET users <u.id> <u>`: an existing field keeps its place and takes the new
      record; a new field goes at the end. */
  function SetUser(us: seq<User>, u: User): (r: seq<User>)
    ensures DistinctIds(us) ==> DistinctIds(r)
    ensures (exists i :: 0 <= i < |us| && us[i].id == u.id) ==> |r| == |us|
    ensures (forall i :: 0 <= i < |us| ==> us[i].id != u.id) ==> r == us + [u]
    ensures DistinctIds(us) ==> forall i :: 0 <= i < |us| ==> r[i] == (if us[i].id == u.id then u else us[i])
  {
    if us == [] then [u]
    else if us[0].id == u.id then [u] + us[1..]
    else [us[0]] + SetUser(us[1..], u)
  }

  class Store {
    /** The `users` hash, one record per field, in field order. */
    var users: seq<User>
    /** The `hidden` set. */
    var hidden: set<string>
    /** Every list key with its elements, head first. */
    var lists: map<string, seq<Comment>>

    /** A list whose last element is removed ceases to exist, so no key maps to
        an empty list; hash fields are distinct user ids. */
    ghost predicate Valid()
      reads this
    {
      (forall k :: k in lists ==> lists[k] != []) && DistinctIds(users)
    }

    constructor ()
      ensures Valid()
      ensures users == [] && hidden == {} && lists == map[]
    {
      users, hidden, lists := [], {}, map[];
    }

    /** `LRANGE key 0 -1`: the whole list, head first; a missing key reads as empty. */
    function LRange(key: string): (r: seq<Comment>)
      reads this
      ensures key in lists ==> r == lists[key]
      ensures Valid() ==> (r == [] <==> key !in lists)
    {
      if key in lists then lists[key] else []
    }

    /** `LLEN key`. */
    function LLen(key: string): (r: nat)
      reads this
      ensures r == |LRange(key)|
      ensures Valid() ==> (r == 0 <==> key !in lists)
    {
      |LRange(key)|
    }

    /** `HGET users id`. */
    function HGet(id: string): (r: Option<User>)
      reads this
      ensures r.None? <==> forall i :: 0 <= i < |users| ==> users[i].id != id
      ensures r.Some? ==> r.value in users && r.value.id == id
    {
      FindUser(users, id)
    }

    method LPush(key: string, c: Comment)
      requires Valid()
      modifies this
      ensures Valid()
      ensures lists == old(lists)[key := [c] + old(LRange(key))]
      ensures users == old(users) && hidden == old(hidden)
    {
      lists := lists[key := [c] + LRange(key)];
    }

    method Del(key: string)
      requires Valid()
      modifies this
      ensures Valid()
      ensures lists == old(lists) - {key}
      ensures users == old(users) && hidden == old(hidden)
    {
      lists := lists - {key};
    }

    method SAdd(member: string)
      requires Valid()
      modifies this
      ensures Valid()
      ensures hidden == old(hidden) + {member}
      ensures users == old(users) && lists == old(lists)
    {
      hidden := hidden + {member};
    }

    method HSet(u: User)
      requires Valid()
      modifies this
      ensures Valid()
      ensures users == SetUser(old(users), u)
      ensures hidden == old(hidden) && lists == old(lists)
    {
      users := SetUser(users, u);
    }
  }

  function FindUser(us: seq<User>, id: string): (r: Option<User>)
    ensures r.None? <==> forall i :: 0 <= i < |us| ==> us[i].id != id
    ensures r.Some? ==> r.value in us && r.value.id == id
  {
    if us == [] then None
    else if us[0].id == id then Some(us[0])
    else FindUser(us[1..], id)
  }

  /** The list a run of `LPUSH`es onto one key leaves on top of `list`, first push first. */
  function PushAll(list: seq<Comment>, pushes: seq<Comment>): (r: seq<Comment>)
    decreases pushes
    ensures |r| == |list| + |pushes|
    ensures r[|pushes|..] == list
    ensures pushes != [] ==> r[0] == pushes[|pushes| - 1]
  {
    if pushes == [] then list else PushAll([pushes[0]] + list, pushes[1..])
  }

  lemma {:induction false} PushAllSnoc(list: seq<Comment>, pushes: seq<Comment>, c: Comment)
    ensures PushAll(list, pushes + [c]) == [c] + PushAll(list, pushes)
    decreases pushes
  {
    if pushes != [] {
      assert (pushes + [c])[1..] == pushes[1..] + [c];
      PushAllSnoc([pushes[0]] + list, pushes[1..], c);
    }
  }

  /** Pushing onto an empty key leaves the pushes in reverse: the last one pushed
      is at the head. */
  lemma {:induction false} PushAllFromEmpty(pushes: seq<Comment>)
    ensures PushAll([], pushes) == Reverse(pushes)
  {
    if pushes != [] {
      var last := pushes[|pushes| - 1];
      var init := pushes[..|pushes| - 1];
      assert pushes == init + [last];
      PushAllSnoc([], init, last);
      PushAllFromEmpty(init);
      ReverseAppend(init, last);
    }
  }
}
