/** The merged timeline the feed builds: entries ordered newest-first by a stable
    sort, then stripped of the entries their likers have hidden. */
module Timeline {
  import opened Common
  import opened Seqs

  /** The liker as the feed shows them, taken from the local user record. */
  datatype Liker = Liker(id: string, name: string, image: Option<string>)

  /** One liked track; `addedAt` is the like's time in milliseconds. */
  datatype Song = Song(addedAt: int, trackId: string, likedBy: Liker)

  /** The `hidden` member and, with the prefix, the comment key of an entry. */
  function EntryKey(s: Song): string
  {
    HiddenMember(s.trackId, s.likedBy.id)
  }

  predicate NewestFirst(s: seq<Song>)
  {
    forall i, j :: 0 <= i < j < |s| ==> s[i].addedAt >= s[j].addedAt
  }

  /** The entries liked at time t, in their order in s. A sort is stable exactly
      when it keeps this sequence unchanged for every t. */
  function LikedAt(s: seq<Song>, t: int): seq<Song>
  {
    if s == [] then [] else (if s[0].addedAt == t then [s[0]] else []) + LikedAt(s[1..], t)
  }

  /** Insert x, which came before every element of s, into s: it goes ahead of the
      first entry that is not newer. */
  function Insert(x: Song, s: seq<Song>): (r: seq<Song>)
    ensures |r| == |s| + 1
    ensures multiset(r) == multiset(s) + multiset{x}
  {
    if s == [] || s[0].addedAt <= x.addedAt then [x] + s
    else
      assert s == [s[0]] + s[1..];
      [s[0]] + Insert(x, s[1..])
  }

  lemma {:induction false} InsertNewestFirst(x: Song, s: seq<Song>)
    requires NewestFirst(s)
    ensures NewestFirst(Insert(x, s))
  {
    if s != [] && s[0].addedAt > x.addedAt {
      var rest := Insert(x, s[1..]);
      InsertNewestFirst(x, s[1..]);
      HeadNotOlder(x, s, rest);
      var r := [s[0]] + rest;
      assert Insert(x, s) == r;
      forall i, j | 0 <= i < j < |r|
        ensures r[i].addedAt >= r[j].addedAt
      {
        assert r[j] == rest[j - 1];
        if i > 0 {
          assert r[i] == rest[i - 1];
        }
      }
    }
  }

  /** The head of a newest-first s is no older than anything in s[1..] with x
      inserted, when x is older than it. */
  lemma HeadNotOlder(x: Song, s: seq<Song>, rest: seq<Song>)
    requires NewestFirst(s) && s != [] && s[0].addedAt > x.addedAt
    requires multiset(rest) == multiset(s[1..]) + multiset{x}
    ensures forall e :: e in rest ==> s[0].addedAt >= e.addedAt
  {
    forall e | e in rest
      ensures s[0].addedAt >= e.addedAt
    {
      assert e in multiset(rest);
      if e != x {
        assert e in multiset(s[1..]);
        var j :| 0 <= j < |s[1..]| && s[1..][j] == e;
        assert s[j + 1] == e;
      }
    }
  }

  /** x lands ahead of every entry of s liked at the same time. */
  lemma {:induction false} InsertLikedAt(x: Song, s: seq<Song>, t: int)
    ensures LikedAt(Insert(x, s), t) == (if x.addedAt == t then [x] else []) + LikedAt(s, t)
  {
    if s == [] || s[0].addedAt <= x.addedAt {
      assert ([x] + s)[1..] == s;
    } else {
      var rest := Insert(x, s[1..]);
      InsertLikedAt(x, s[1..], t);
      assert ([s[0]] + rest)[1..] == rest;
    }
  }

  /** `sort((a, b) => b.added_at - a.added_at)`: JavaScript's sort is stable, so the
      result is newest-first, a permutation of the input, and entries liked at the
      same time keep their input order. */
  function SortNewestFirst(s: seq<Song>): (r: seq<Song>)
    ensures |r| == |s|
    ensures NewestFirst(r)
    ensures multiset(r) == multiset(s)
    ensures forall t :: LikedAt(r, t) == LikedAt(s, t)
  {
    if s == [] then []
    else
      var rest := SortNewestFirst(s[1..]);
      assert s == [s[0]] + s[1..];
      InsertNewestFirst(s[0], rest);
      assert forall t :: LikedAt(Insert(s[0], rest), t) == LikedAt(s, t) by {
        forall t ensures LikedAt(Insert(s[0], rest), t) == LikedAt(s, t) {
          InsertLikedAt(s[0], rest, t);
        }
      }
      Insert(s[0], rest)
  }

  /** The `filter` against the hidden set: the entries whose member is not hidden,
      in their order. */
  function Visible(s: seq<Song>, hidden: set<string>): (r: seq<Song>)
    ensures |r| <= |s|
  {
    if s == [] then []
    else (if EntryKey(s[0]) in hidden then [] else [s[0]]) + Visible(s[1..], hidden)
  }

  /** Each entry is kept exactly as many times as it occurs, unless its member is
      hidden, in which case never. */
  lemma {:induction false} VisibleMultiset(s: seq<Song>, hidden: set<string>)
    ensures forall e :: multiset(Visible(s, hidden))[e] == if EntryKey(e) in hidden then 0 else multiset(s)[e]
  {
    if s != [] {
      VisibleMultiset(s[1..], hidden);
      assert s == [s[0]] + s[1..];
      assert multiset(s) == multiset{s[0]} + multiset(s[1..]);
    }
  }

  /** Every kept entry is visible, and every visible entry is kept. */
  lemma {:induction false} VisibleMembers(s: seq<Song>, hidden: set<string>)
    ensures forall e :: e in Visible(s, hidden) ==> e in s && EntryKey(e) !in hidden
    ensures forall e :: e in s && EntryKey(e) !in hidden ==> e in Visible(s, hidden)
  {
    if s != [] {
      VisibleMembers(s[1..], hidden);
      assert s == [s[0]] + s[1..];
    }
  }

  /** Filtering a newest-first list leaves it newest-first. */
  lemma {:induction false} VisibleNewestFirst(s: seq<Song>, hidden: set<string>)
    requires NewestFirst(s)
    ensures NewestFirst(Visible(s, hidden))
  {
    if s != [] {
      var rest := Visible(s[1..], hidden);
      VisibleNewestFirst(s[1..], hidden);
      VisibleMembers(s[1..], hidden);
      if EntryKey(s[0]) !in hidden {
        HeadIsNewest(s, rest);
      } else {
        assert Visible(s, hidden) == rest;
      }
    }
  }

  lemma HeadIsNewest(s: seq<Song>, rest: seq<Song>)
    requires s != [] && NewestFirst(s) && NewestFirst(rest)
    requires forall e :: e in rest ==> e in s[1..]
    ensures NewestFirst([s[0]] + rest)
  {
    var r := [s[0]] + rest;
    forall i, j | 0 <= i < j < |r|
      ensures r[i].addedAt >= r[j].addedAt
    {
      if i == 0 {
        assert r[j] in rest;
        var k :| 0 <= k < |s[1..]| && s[1..][k] == r[j];
        assert s[k + 1] == r[j];
      } else {
        assert r[i] == rest[i - 1] && r[j] == rest[j - 1];
      }
    }
  }

  /** The visible entries keep their relative order from the list they came from. */
  lemma {:induction false} VisibleIsSubsequence(s: seq<Song>, hidden: set<string>)
    ensures IsSubsequence(Visible(s, hidden), s)
  {
    if s != [] {
      VisibleIsSubsequence(s[1..], hidden);
      var rest := Visible(s[1..], hidden);
      if EntryKey(s[0]) !in hidden {
        assert Visible(s, hidden) == [s[0]] + rest;
        assert ([s[0]] + rest)[1..] == rest;
      } else {
        assert Visible(s, hidden) == rest;
        if rest != [] {
          VisibleMembers(s[1..], hidden);
          assert rest[0] in rest;
        }
      }
    }
  }

  /** With none of its entries hidden, the list is shown whole. */
  lemma {:induction false} NothingHidden(s: seq<Song>, hidden: set<string>)
    requires forall j :: 0 <= j < |s| ==> EntryKey(s[j]) !in hidden
    ensures Visible(s, hidden) == s
  {
    if s != [] {
      NothingHidden(s[1..], hidden);
      assert s == [s[0]] + s[1..];
    }
  }

  /** With exactly one of its entries hidden, the list is shown without that entry
      and otherwise unchanged. */
  lemma {:induction false} OneHidden(s: seq<Song>, i: nat, hidden: set<string>)
    requires i < |s| && EntryKey(s[i]) in hidden
    requires forall j :: 0 <= j < |s| && j != i ==> EntryKey(s[j]) !in hidden
    ensures Visible(s, hidden) == RemoveAt(s, i)
  {
    if i == 0 {
      NothingHidden(s[1..], hidden);
      assert RemoveAt(s, 0) == s[1..];
    } else {
      var tail := s[1..];
      assert tail[i - 1] == s[i];
      assert forall j :: 0 <= j < |tail| ==> tail[j] == s[j + 1];
      OneHidden(tail, i - 1, hidden);
      assert Visible(s, hidden) == [s[0]] + Visible(tail, hidden);
      assert RemoveAt(s, i) == [s[0]] + RemoveAt(tail, i - 1);
    }
  }

  /** Hiding one more entry removes exactly the entries with that member from what
      was visible before, leaving the rest in the same order. */
  lemma {:induction false} HideOneMore(s: seq<Song>, hidden: set<string>, m: string)
    ensures Visible(s, hidden + {m}) == Visible(Visible(s, hidden), {m})
  {
    if s != [] {
      HideOneMore(s[1..], hidden, m);
      var rest := Visible(s[1..], hidden);
      if EntryKey(s[0]) !in hidden {
        assert Visible(s, hidden) == [s[0]] + rest;
        assert ([s[0]] + rest)[1..] == rest;
      } else {
        assert Visible(s, hidden) == rest;
      }
    }
  }

  /** The feed's order: all per-user lists concatenated in user order, sorted
      newest-first, hidden entries removed. */
  function FeedOrder(perUser: seq<seq<Song>>, hidden: set<string>): (r: seq<Song>)
    ensures |r| <= |Flatten(perUser)|
  {
    Visible(SortNewestFirst(Flatten(perUser)), hidden)
  }

  /** What the feed shows: newest-first, no hidden entry, every visible entry of
      every user's list, in the stable order. */
  lemma FeedOrderShape(perUser: seq<seq<Song>>, hidden: set<string>)
    ensures NewestFirst(FeedOrder(perUser, hidden))
    ensures forall e :: e in FeedOrder(perUser, hidden) ==> EntryKey(e) !in hidden
    ensures forall e :: e in Flatten(perUser) && EntryKey(e) !in hidden ==> e in FeedOrder(perUser, hidden)
    ensures IsSubsequence(FeedOrder(perUser, hidden), SortNewestFirst(Flatten(perUser)))
  {
    var all := Flatten(perUser);
    var sorted := SortNewestFirst(all);
    VisibleIsSubsequence(sorted, hidden);
    VisibleMembers(sorted, hidden);
    VisibleNewestFirst(sorted, hidden);
    forall e | e in all && EntryKey(e) !in hidden
      ensures e in FeedOrder(perUser, hidden)
    {
      assert e in multiset(all);
      assert e in multiset(sorted);
    }
  }

  /** A user whose fetch failed contributes an empty list, and the feed is then the
      one built without that user at all. */
  lemma FailedUserIsOmitted(perUser: seq<seq<Song>>, i: nat, hidden: set<string>)
    requires i < |perUser| && perUser[i] == []
    ensures FeedOrder(perUser, hidden) == FeedOrder(perUser[..i] + perUser[i + 1..], hidden)
  {
    assert perUser == perUser[..i] + ([perUser[i]] + perUser[i + 1..]);
    FlattenAppend(perUser[..i], [perUser[i]] + perUser[i + 1..]);
    FlattenAppend([perUser[i]], perUser[i + 1..]);
    FlattenAppend(perUser[..i], perUser[i + 1..]);
    assert ([perUser[i]] + perUser[i + 1..])[1..] == perUser[i + 1..];
    assert Flatten([perUser[i]] + perUser[i + 1..]) == Flatten(perUser[i + 1..]);
  }
}
