/** A worked two-user feed: the merge, sort and hide steps of the feed applied to
    four concrete entries. */
module FeedScenario {
  import opened Seqs
  import opened Timeline

  /** Two users: A liked three tracks (s3 newest, listed newest-first), B one
      track s4 more recently than all of them. The feed shows s4, then A's from
      newest to oldest. */
  lemma TwoUserScenario(s3: Song, s2: Song, s1: Song, s4: Song)
    requires s4.addedAt > s3.addedAt > s2.addedAt > s1.addedAt
    ensures FeedOrder([[s3, s2, s1], [s4]], {}) == [s4, s3, s2, s1]
  {
    var sorted := [s4, s3, s2, s1];
    ScenarioFlatten(s3, s2, s1, s4);
    ScenarioSort(s3, s2, s1, s4);
    FeedOrderOf([[s3, s2, s1], [s4]], [s3, s2, s1, s4], sorted, {});
    NothingHidden(sorted, {});
  }

  /** The same two users once A has hidden s3: the other three keep their order. */
  lemma TwoUserScenarioHidden(s3: Song, s2: Song, s1: Song, s4: Song, hidden: set<string>)
    requires s4.addedAt > s3.addedAt > s2.addedAt > s1.addedAt
    requires EntryKey(s3) in hidden
    requires EntryKey(s4) !in hidden && EntryKey(s2) !in hidden && EntryKey(s1) !in hidden
    ensures FeedOrder([[s3, s2, s1], [s4]], hidden) == [s4, s2, s1]
  {
    var sorted := [s4, s3, s2, s1];
    ScenarioFlatten(s3, s2, s1, s4);
    ScenarioSort(s3, s2, s1, s4);
    FeedOrderOf([[s3, s2, s1], [s4]], [s3, s2, s1, s4], sorted, hidden);
    HideSecond(s4, s3, s2, s1, hidden);
  }

  lemma HideSecond(a: Song, b: Song, c: Song, d: Song, hidden: set<string>)
    requires EntryKey(b) in hidden
    requires EntryKey(a) !in hidden && EntryKey(c) !in hidden && EntryKey(d) !in hidden
    ensures Visible([a, b, c, d], hidden) == [a, c, d]
  {
    var t3 := [d];
    var t2 := [c] + t3;
    var t1 := [b] + t2;
    VisibleCons(d, [], hidden);
    assert [d] + [] == t3;
    VisibleCons(c, t3, hidden);
    VisibleCons(b, t2, hidden);
    VisibleCons(a, t1, hidden);
    assert [a] + t1 == [a, b, c, d];
    assert [a] + ([c] + [d]) == [a, c, d];
  }

  lemma VisibleCons(x: Song, s: seq<Song>, hidden: set<string>)
    ensures Visible([x] + s, hidden) == (if EntryKey(x) in hidden then [] else [x]) + Visible(s, hidden)
  {
    assert ([x] + s)[1..] == s;
  }

  lemma FeedOrderOf(perUser: seq<seq<Song>>, merged: seq<Song>, sorted: seq<Song>, hidden: set<string>)
    requires Flatten(perUser) == merged && SortNewestFirst(merged) == sorted
    ensures FeedOrder(perUser, hidden) == Visible(sorted, hidden)
  {
  }

  lemma ScenarioFlatten(s3: Song, s2: Song, s1: Song, s4: Song)
    ensures Flatten([[s3, s2, s1], [s4]]) == [s3, s2, s1, s4]
  {
    var perUser := [[s3, s2, s1], [s4]];
    assert perUser[1..] == [[s4]];
    assert [[s4]][1..] == [];
    assert Flatten([[s4]]) == [s4] + Flatten([]);
  }

  lemma SortCons(x: Song, s: seq<Song>, sorted: seq<Song>)
    requires SortNewestFirst(s) == sorted
    ensures SortNewestFirst([x] + s) == Insert(x, sorted)
  {
    assert ([x] + s)[1..] == s;
  }

  lemma InsertFront(x: Song, s: seq<Song>)
    requires s == [] || s[0].addedAt <= x.addedAt
    ensures Insert(x, s) == [x] + s
  {
  }

  lemma InsertBehind(x: Song, s: seq<Song>)
    requires s != [] && s[0].addedAt > x.addedAt
    ensures Insert(x, s) == [s[0]] + Insert(x, s[1..])
  {
  }

  lemma ScenarioSort(s3: Song, s2: Song, s1: Song, s4: Song)
    requires s4.addedAt > s3.addedAt > s2.addedAt > s1.addedAt
    ensures SortNewestFirst([s3, s2, s1, s4]) == [s4, s3, s2, s1]
  {
    var tail, whole := [s2, s1, s4], [s3, s2, s1, s4];
    assert whole == [s3] + tail;
    ScenarioSort3(s2, s1, s4);
    SortCons(s3, tail, [s4, s2, s1]);
    InsertFour(s3, s2, s1, s4);
  }

  lemma InsertFour(s3: Song, s2: Song, s1: Song, s4: Song)
    requires s4.addedAt > s3.addedAt > s2.addedAt > s1.addedAt
    ensures Insert(s3, [s4, s2, s1]) == [s4, s3, s2, s1]
  {
    InsertBehind(s3, [s4, s2, s1]);
    assert [s4, s2, s1][1..] == [s2, s1];
    InsertFront(s3, [s2, s1]);
    assert [s4] + ([s3] + [s2, s1]) == [s4, s3, s2, s1];
  }

  lemma ScenarioSort3(s2: Song, s1: Song, s4: Song)
    requires s4.addedAt > s2.addedAt > s1.addedAt
    ensures SortNewestFirst([s2, s1, s4]) == [s4, s2, s1]
  {
    ScenarioSort2(s1, s4);
    SortCons(s2, [s1, s4], [s4, s1]);
    InsertBehind(s2, [s4, s1]);
    assert [s4, s1][1..] == [s1];
    InsertFront(s2, [s1]);
    assert [s4] + ([s2] + [s1]) == [s4, s2, s1];
    assert [s2] + [s1, s4] == [s2, s1, s4];
  }

  lemma ScenarioSort2(s1: Song, s4: Song)
    requires s4.addedAt > s1.addedAt
    ensures SortNewestFirst([s1, s4]) == [s4, s1]
  {
    SortCons(s4, [], []);
    InsertFront(s4, []);
    assert [s4] + [] == [s4];
    SortCons(s1, [s4], [s4]);
    InsertBehind(s1, [s4]);
    InsertFront(s1, []);
    assert [s4] + ([s1] + []) == [s4, s1];
    assert [s1] + [s4] == [s1, s4];
  }
}
