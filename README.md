# FriendTunes handlers in Dafny

FriendTunes is a small social feed of liked tracks. Every linked user's recent
likes are merged into one newest-first timeline, and others can leave short
comments on an entry. A user can delete their own comments and hide their own
entries. The server keeps everything in a key-value store with three parts:

- the `users` hash of linked accounts;
- the `hidden` set of `trackId:likerId` members;
- one list per `comments:trackId:likerId` key. Comments are pushed onto its
  head, so the list is stored newest-first.

This project models the request handlers that read and write that store, the
session lookup they share, and the two value computations of the browser
client. It proves what each handler answers and what it leaves in the store.

Modules, one per handler or shared concern:

- `Common`: request fields (JavaScript truthiness as `Truthy`), replies,
  records and the key formats.
- `Seqs`: the array operations the handlers use (`reverse`, `splice`, `flat`).
- `Session`: the `rf_user` cookie lookup, with the regular expression
  `(?:^|; )rf_user=([^;]*)` modelled exactly. It takes the leftmost match, the
  `^` alternative matches only at index 0, and the capture is greedy.
- `Redis`: the store as a class `Store` with fields `users`, `hidden` and
  `lists`, and the commands `LPUSH`, `DEL`, `SADD` and `HSET` as methods.
  `LRANGE 0 -1`, `LLEN` and `HGET` are functions that read it.
- `PostCommentHandler`, `CommentsHandler`, `DeleteCommentHandler`,
  `HideHandler` and `UsersHandler`: one handler each.
- `Timeline` and `FeedHandler`: the feed's merge, stable sort, hide filter,
  comment counts and token rotation.
- `FeedScenario`: a worked two-user feed.
- `ClientView`: `timeAgo` and the track link.

Each handler that writes is a `method` with `modifies store`. Its `ensures`
states the reply and the whole new store in terms of the old one. Its checks
are pure functions whose contracts give every error status and message as an
if-and-only-if.

The identity provider is reached through two function parameters:

- `refresh` exchanges a refresh token for tokens, or returns None when the
  provider answers with a non-OK status;
- `likedTracks` lists the likes an access token can see, or returns None when
  the provider answers with a non-OK status.

The clock is a parameter as well: `now` for the comment timestamp, and
`nowMs`/`thenMs` for `timeAgo`.

## Model

| member | source | states |
|---|---|---|
| Session.CaptureStart | api/hide.js:9 | a match at i is either the `^` alternative (i is 0, "rf_user=" starts the header, the capture starts at 8) or the "; rf_user=" alternative at i (capture at i + 10); None exactly when neither occurs |
| Session.UpToSemicolon | api/hide.js:9 | the greedy `[^;]*` capture is the longest prefix without ';' |
| Session.FirstMatch | api/hide.js:9 | the leftmost match position at or after i; no match begins before it |
| Session.SessionCookie | api/hide.js:8-10 | None exactly when the pattern matches nowhere in the header; otherwise the capture of the leftmost match, which holds no ';' |
| Session.CurrentUserId | api/hide.js:8-12 | a missing header reads as ""; an absent or empty cookie value means not logged in; otherwise the captured value |
| Session.LeadingCookie | api/hide.js:8-10 | a header starting `rf_user=v` yields v, up to the next ';' |
| Session.CookieAfterFirst | api/hide.js:8-10 | a cookie after a first cookie and "; " is found, up to the next ';' |
| Session.NoSeparatorOnlyLeading | api/hide.js:8-10 | a header without spaces that does not start with `rf_user=` is not logged in |
| Seqs.Reverse | api/comments.js:22 | the result has the same length, and its element i is the input's i-th element counted from the end |
| Seqs.Flatten | api/feed.js:82 | `.flat()`: the first list is the result's prefix, and an element is in the result iff it is in one of the lists |
| Seqs.RemoveAt | api/delete-comment.js:53 | `splice(i, 1)`: one element fewer; elements before i stay put, later ones shift down by one; the multiset loses exactly s[i] |
| Redis.FindUser | api/comment.js:35-38 | `HGET users id`: None iff no record has that id, otherwise a stored record with that id |
| Redis.SetUser | api/feed.js:31 | `HSET`: the record with that id is replaced in place, or the new record goes at the end; ids stay distinct |
| Redis.Store.LRange | api/comments.js:17 | `LRANGE key 0 -1`: the key's whole list, head first; in a valid store it is empty iff the key is absent |
| Redis.Store.LLen | api/feed.js:96 | `LLEN key`: the length of that same list; in a valid store 0 iff the key is absent |
| Redis.Store.HGet | api/comment.js:35 | `HGET users id`: None iff no record has the id, otherwise a stored record with that id |
| Redis.Store.LPush | api/comment.js:48 | the key's list gains the comment at its head; no other key and no other part changes |
| Redis.Store.Del | api/delete-comment.js:55 | the key is gone; nothing else changes |
| Redis.Store.SAdd | api/hide.js:34 | `hidden` gains the member; nothing else changes |
| Redis.Store.HSet | api/feed.js:31 | `users` becomes `SetUser(users, u)`; nothing else changes |
| Redis.PushAll | api/delete-comment.js:60-62 | a run of `LPUSH`es onto one key: the list grows by the number of pushes, the old list stays below them, and the last pushed is at the head |
| Redis.PushAllFromEmpty | api/delete-comment.js:59-62 | pushing a run of comments one by one onto an absent key leaves them in reverse, the last pushed at the head |
| PostCommentHandler.Trim | api/comment.js:43 | `trim()`: the slice left after removing the WhiteSpace and LineTerminator characters at both ends |
| PostCommentHandler.BlankTextTrimsToEmpty | api/comment.js:43 | a text made only of white space trims to "" |
| PostCommentHandler.BlankTextIsStoredEmpty | api/comment.js:18-45 | a non-empty text made only of white space, within the limit, passes the guards and the new comment's text is "" |
| PostCommentHandler.CheckComment | api/comment.js:4-26 | 405, 401, 400 "Missing required fields" and 400 "Comment too long", each iff its condition holds in handler order; Ok iff logged in, POST, all three fields truthy and the untrimmed text at most 280 long (so exactly 280 is posted) |
| PostCommentHandler.NewComment | api/comment.js:35-45 | author is the session user; name is the stored user's name, or the user id when there is no record; text is the trimmed text |
| PostCommentHandler.PostComment | api/comment.js:3-50 | on a failed check the same error and an unchanged store; otherwise exactly the new comment pushed onto its entry's list, and nothing else changes |
| CommentsHandler.ReadComments | api/comments.js:4-23 | 400 iff a field is missing; otherwise exactly the reverse of the stored list, as long as its `LLEN`, and empty for a missing key |
| CommentsHandler.PostThenRead | api/comment.js:47-48 | a post then a read of the same entry: on success the read is the previous read followed by the new comment, whatever the stored order; a rejected post leaves the read as it was |
| CommentsHandler.ReadShowsPushOrder | api/comments.js:17-22 | comments pushed onto an empty log are read back in the order they were pushed |
| DeleteCommentHandler.CheckDelete | api/delete-comment.js:4-22 | 405, 401 and 400 "Missing required fields" (a missing field or an index that is not a number), each iff its condition holds; Ok iff a logged-in POST with both fields truthy and a numeric index |
| DeleteCommentHandler.CheckIndex | api/delete-comment.js:41-50 | 400 "Invalid comment index" iff the index is outside the oldest-first view; 403 iff the comment there is someone else's; Ok iff the index is in range and the comment there is the user's own |
| DeleteCommentHandler.ReplaceList | api/delete-comment.js:55-62 | `DEL` then one `LPUSH` per element leaves `PushAll([], pushes)` under the key, or no key when there are no pushes |
| DeleteCommentHandler.DeleteComment | api/delete-comment.js:3-65 | every error leaves the store unchanged; on success the key holds the remaining comments oldest-first at the head (no key when none remain) |
| DeleteCommentHandler.DeleteAsWrittenReordersLog | api/delete-comment.js:58-62 | for a log a, b, c, deleting a stores [b, c], which reads back as [c, b] |
| DeleteCommentHandler.DeleteAsWrittenReadIsReversed | api/delete-comment.js:53-62 | after the delete as written, the next read is the reverse of the intended view |
| DeleteCommentHandler.DeleteCommentIntended | api/delete-comment.js:53-62 | as DeleteComment, but the key holds the remaining comments newest-first, as every other writer keeps it |
| DeleteCommentHandler.DeleteIntendedReadDropsTarget | api/delete-comment.js:53-62 | after the intended delete, the read is the previous read without the target: one fewer element, the rest in order |
| HideHandler.CheckHide | api/hide.js:4-26 | 405, 401, 400, 403, each iff its condition holds in handler order; Ok iff logged in as the liker with both fields present; the member is `trackId:likedByUserId` |
| HideHandler.Hide | api/hide.js:3-35 | on error `hidden` is unchanged; on success it gains exactly the member; `users` and the comment lists never change |
| HideHandler.HideTwice | api/hide.js:33-35 | the same request handled twice: both calls answer alike, and the store ends as after one call (`hidden` gains the member once on success, nothing else changes) |
| UsersHandler.ListUsers | api/users.js:12-24 | one entry per stored record in hash order, carrying id, name, image and connection time, and no refresh token; empty for an empty hash |
| Timeline.Insert | api/feed.js:81-83 | inserting adds exactly one element to the multiset |
| Timeline.InsertNewestFirst | api/feed.js:81-83 | inserting into a newest-first list keeps it newest-first |
| Timeline.InsertLikedAt | api/feed.js:81-83 | the inserted entry goes ahead of every entry with the same timestamp |
| Timeline.SortNewestFirst | api/feed.js:81-83 | the result is newest-first and a permutation of the input; entries with the same timestamp keep their input order (stable) |
| Timeline.Visible | api/feed.js:89-91 | the `filter` against the hidden set never lengthens the list; its lemmas below give what it keeps |
| Timeline.VisibleMultiset | api/feed.js:89-91 | each entry is kept as many times as it occurs when its member is not hidden, and never when it is |
| Timeline.VisibleMembers | api/feed.js:86-91 | an entry is kept iff it is in the list and its `trackId:likerId` is not hidden |
| Timeline.VisibleNewestFirst | api/feed.js:86-91 | filtering keeps a newest-first list newest-first |
| Timeline.VisibleIsSubsequence | api/feed.js:86-91 | the kept entries are an order-preserving subsequence of the input |
| Timeline.NothingHidden | api/feed.js:86-91 | with no entry hidden, the list is shown whole |
| Timeline.OneHidden | api/feed.js:86-91 | with exactly entry i hidden, the list is shown without element i |
| Timeline.HideOneMore | api/feed.js:86-91 | hiding one more member equals filtering the previous feed by that member alone |
| Timeline.FeedOrder | api/feed.js:81-91 | the merged, sorted and filtered entries, never more than the merged lists hold; FeedOrderShape gives its order and contents |
| Timeline.FeedOrderShape | api/feed.js:80-91 | the feed is newest-first, has no hidden entry, holds every visible entry of every user, and is a subsequence of the sorted merge |
| Timeline.FailedUserIsOmitted | api/feed.js:76-83 | a user whose fetch returned [] leaves the feed as if that user were not there |
| FeedScenario.TwoUserScenario | api/feed.js:76-91 | concrete: A's likes s3 > s2 > s1 and B's later s4 show as s4, s3, s2, s1 |
| FeedScenario.TwoUserScenarioHidden | api/feed.js:76-91 | the same feed with only s3 hidden shows s4, s2, s1 |
| FeedHandler.Rotated | api/feed.js:29-32 | a record is written back iff the new refresh token is non-empty and differs; only the token changes |
| FeedHandler.Refreshed | api/feed.js:29-31 | a record after its refresh keeps id, name, image and connection time; its refresh token changes iff the provider returned a non-empty, different one |
| FeedHandler.AfterFetches | api/feed.js:29-31 | the `users` hash after the fetches one after another: never shorter, ids stay distinct and every record keeps its place and id |
| FeedHandler.LikedSongs | api/feed.js:25-56 | [] when the refresh or the listing fails; otherwise one entry per listed item, in order, with that item's time and track and the local record's id, name and image as liker |
| FeedHandler.PerUser | api/feed.js:76-78 | one list per user, in user order |
| FeedHandler.Likers | api/feed.js:104-106 | one `{id, name, image}` per record, in hash order |
| FeedHandler.GetUserLikedSongs | api/feed.js:25-56 | returns `LikedSongs`; writes only the rotated record, through `HSET` |
| FeedHandler.CountComments | api/feed.js:94-102 | same length and order as the entries; entry i's count is the `LLEN` of its own key |
| FeedHandler.Feed | api/feed.js:58-108 | empty hash: empty songs and users, no write; otherwise the songs are the feed order with each entry's count, the users are the projections, and only rotated tokens are written |
| FeedHandler.OnlyRotatedTokensChange | api/feed.js:29-32 | after the feed, every record is in its place and differs from before at most in a rotated refresh token |
| ClientView.TimeAgo | public/app.js:139-153 | under 60 s (also negative) is "just now"; then floor minutes 1..59, hours 1..23, days 1..6, weeks 1..3; from 28 days on, the date |
| ClientView.Decimal | public/app.js:146 | the digits of the count, with no leading zero unless the count is 0 |
| ClientView.AgeLabel | public/app.js:144-152 | the label is the decimal count followed by m, h, d or w, and reads back as the count |
| ClientView.SpotifyLink | public/app.js:82 | the external URL when it is truthy, otherwise the track page prefix followed by the id |

## Left out

- HTTP transport, JSON parsing and the Basic-auth header. The token refresh and the liked-tracks request are the `refresh` and `likedTracks` parameters, and None stands for a non-OK response only: that user then contributes [] and the rest of the feed is built.
- The `catch` paths that answer 500: store failures, a non-integer `index` such as 1.5, malformed stored JSON, and errors thrown by the provider calls (a rejected `fetch`, a failing `res.json()`, a listing without `items` or an item without `track`). Such an error rejects `getUserLikedSongs` and `Promise.all`, so the whole feed answers 500 with no songs for anyone; Timeline.FailedUserIsOmitted covers only the non-OK case. Every store command here succeeds.
- The race between a delete and a concurrent post to the same log, and the concurrency of `Promise.all`. Handlers run one at a time. The fetches run in user order, which is also the order `Promise.all` returns them in.
- Request body fields are assumed to be strings, modelled as `Option<string>`. A JSON body can carry other values, and those are not modelled. A numeric `likedByUserId` is answered 403 even for the owner, because the owner test is a strict `!==` against the cookie string. A truthy non-string `text`, such as an array, passes the guards and then throws at `text.trim()`, which answers 500.
- FeedHandler.Feed and Timeline.FailedUserIsOmitted: the case where no song is visible is modelled as a reply with songs [] and the users list. The comment counts go through a store pipeline that then holds no `LLEN`. The behaviour of `exec()` on an empty pipeline belongs to the store client library, which is not part of this model. Where that library throws "Pipeline is empty", the program answers 500 "Failed to load feed" instead: whenever every user's fetch is non-OK, every entry is hidden, or no user has likes. In that case FailedUserIsOmitted does not describe a sole failing user either.
- `decodeURIComponent` on the cookie value is the identity, and text length is sequence length, not UTF-16 code units.
- `added_at` is integer milliseconds. Date parsing and NaN comparisons are not modelled.
- The `users` hash is a sequence of records keyed by their own id, in the order `Object.values` lists them. That order is not modelled: `Object.values` puts integer-like field names (a numeric id such as "1234567890") first, in ascending order, before the other fields in insertion order, and this order decides both the `users` list and which of two likes with the same time comes first in the feed. Records whose field name differs from their id are not modelled.
- FeedHandler.CountComments: `commentCount || 0` is not modelled, because `LLEN` always returns a number and 0 is already its falsy value.
- ClientView.AgeLabel: the `toLocaleDateString` text for likes four weeks and older is not modelled (None), because locale formatting is not modelled.
- The rest of the browser client (rendering, escaping, toasts, timers), the OAuth callback, login and debug handlers are not part of this model.

## Findings

| source | as written | input that shows it | evidently intended | confidence | as-written member | corrected member |
|---|---|---|---|---|---|---|
| api/delete-comment.js:58-62 | the survivors are pushed newest-first, so the list is left oldest-first at its head, and the next read shows the comments newest-first | comments a, b, c posted in that order (stored [c, b, a]); deleting a (index 0) stores [b, c], which reads back as [c, b] | push the survivors oldest-first so the list stays newest-first and reads back as [b, c] | not executed | DeleteCommentHandler.DeleteAsWrittenReordersLog | DeleteCommentHandler.DeleteIntendedReadDropsTarget |
