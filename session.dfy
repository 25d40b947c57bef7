/** The session lookup the mutating handlers share: the `rf_user` cookie is found in
    the Cookie header with the pattern /(?:^|; )rf_user=([^;]*)/ and its value,
    decoded, is the current user's id. */
module Session {
  import opened Common

  /** p occurs in s starting at index i. */
  predicate OccursAt(s: string, p: string, i: nat)
  {
    i + |p| <= |s| && s[i..i + |p|] == p
  }

  /** Where the capture group `([^;]*)` begins when a match of the whole pattern
      starts at index i. The `^` alternative is tried first and only matches at 0;
      the `; ` alternative consumes the separator, so its match starts at the ';'. */
  function CaptureStart(h: string, i: nat): (r: Option<nat>)
    ensures r.Some? ==> 8 <= r.value <= |h| && h[r.value - 8..r.value] == "rf_user="
    ensures r.Some? ==> (i == 0 && r.value == 8 && OccursAt(h, "rf_user=", 0))
                        || (r.value == i + 10 && OccursAt(h, "; rf_user=", i))
    ensures r.None? ==> !OccursAt(h, "; rf_user=", i) && !(i == 0 && OccursAt(h, "rf_user=", 0))
  {
    if i == 0 && OccursAt(h, "rf_user=", 0) then Some(8)
    else if OccursAt(h, "; rf_user=", i) then
      assert h[i..i + 2] == h[i..i + 10][..2];
      Some(i + 10)
    else None
  }

  /** What the greedy `[^;]*` captures: the longest prefix of s without ';'. */
  function UpToSemicolon(s: string): (r: string)
    ensures r <= s
    ensures ';' !in r
    ensures |r| == |s| || s[|r|] == ';'
  {
    if s == [] || s[0] == ';' then [] else [s[0]] + UpToSemicolon(s[1..])
  }

  /** The leftmost index at or after i where the pattern matches, as the regular
      expression engine scans the header from left to right. */
  function FirstMatch(h: string, i: nat): (r: Option<nat>)
    decreases |h| + 1 - i
    ensures r.Some? ==> i <= r.value <= |h| && CaptureStart(h, r.value).Some?
    ensures forall j :: i <= j <= |h| && (r.None? || j < r.value) ==> CaptureStart(h, j).None?
  {
    if i > |h| then None
    else if CaptureStart(h, i).Some? then Some(i)
    else FirstMatch(h, i + 1)
  }

  /** `match[1]` of `cookies.match(...)`, or None when the pattern does not occur. */
  function SessionCookie(h: string): (r: Option<string>)
    ensures r.None? <==> forall i :: 0 <= i <= |h| ==> CaptureStart(h, i).None?
    ensures r.Some? ==> ';' !in r.value
    ensures r.Some? ==> exists i :: 0 <= i <= |h| && CaptureStart(h, i).Some?
                          && (forall j :: 0 <= j < i ==> CaptureStart(h, j).None?)
                          && r.value == UpToSemicolon(h[CaptureStart(h, i).value..])
  {
    match FirstMatch(h, 0)
    case None => None
    case Some(i) => Some(UpToSemicolon(h[CaptureStart(h, i).value..]))
  }

  /** `currentUserId` as the handlers use it: a missing header reads as "",
      `decodeURIComponent` is the identity here, and an empty value counts as
      not logged in (`!currentUserId`). */
  function CurrentUserId(cookie: Option<string>): (r: Option<string>)
    ensures r.Some? ==> r.value != "" && ';' !in r.value
    ensures r.Some? <==> SessionCookie(if cookie.Some? then cookie.value else "") != None
                          && SessionCookie(if cookie.Some? then cookie.value else "") != Some("")
    ensures r.Some? ==> Some(r.value) == SessionCookie(cookie.value)
  {
    var header := if cookie.Some? then cookie.value else "";
    match SessionCookie(header)
    case None => None
    case Some(v) => if v == "" then None else Some(v)
  }

  /** A header that starts with the cookie is read up to the first ';'. */
  lemma {:induction false} LeadingCookie(v: string, rest: string)
    requires ';' !in v && v != ""
    requires rest == [] || rest[0] == ';'
    ensures CurrentUserId(Some("rf_user=" + v + rest)) == Some(v)
  {
    var h := "rf_user=" + v + rest;
    assert OccursAt(h, "rf_user=", 0) by { assert h[0..8] == "rf_user="; }
    assert FirstMatch(h, 0) == Some(0);
    assert h[8..] == v + rest;
    UpToSemicolonStops(v, rest);
  }

  lemma {:induction false} UpToSemicolonStops(v: string, rest: string)
    requires ';' !in v
    requires rest == [] || rest[0] == ';'
    ensures UpToSemicolon(v + rest) == v
  {
    if v != [] {
      assert (v + rest)[1..] == v[1..] + rest;
      UpToSemicolonStops(v[1..], rest);
    }
  }

  /** A header without any ' ' has no "; " separator, so the cookie is found
      only at its very start. */
  lemma NoSeparatorOnlyLeading(h: string)
    requires ' ' !in h
    requires !OccursAt(h, "rf_user=", 0)
    ensures CurrentUserId(Some(h)) == None
  {
    forall i | 0 <= i <= |h|
      ensures CaptureStart(h, i).None?
    {
      assert i + 10 <= |h| ==> h[i..i + 10][1] == h[i + 1];
    }
    NoMatchFrom(h, 0);
  }

  lemma {:induction false} NoMatchFrom(h: string, i: nat)
    requires forall j :: i <= j <= |h| ==> CaptureStart(h, j).None?
    ensures FirstMatch(h, i) == None
    decreases |h| + 1 - i
  {
    if i <= |h| {
      NoMatchFrom(h, i + 1);
    }
  }

  /** A cookie after the first one is found after the "; " separator. */
  lemma {:induction false} CookieAfterFirst(first: string, v: string, rest: string)
    requires ';' !in first
    requires !(|first| >= 8 && first[..8] == "rf_user=")
    requires ';' !in v && v != ""
    requires rest == [] || rest[0] == ';'
    ensures CurrentUserId(Some(first + "; rf_user=" + v + rest)) == Some(v)
  {
    var tail := "; rf_user=" + v + rest;
    var h := first + tail;
    var n := |first|;
    assert h == first + "; rf_user=" + v + rest;
    NoMatchBeforeSeparator(first, tail);
    assert tail[..10] == "; rf_user=";
    assert h[n..n + 10] == tail[..10];
    assert !OccursAt(h, "rf_user=", 0) by {
      if n == 0 { assert h[0] == ';'; } else { NoMatchBeforeSeparator(first, tail); }
    }
    assert CaptureStart(h, n) == Some(n + 10);
    assert FirstMatch(h, n) == Some(n);
    FirstMatchSkips(h, 0, n);
    assert h[n + 10..] == v + rest;
    UpToSemicolonStops(v, rest);
    assert SessionCookie(h) == Some(v);
  }

  /** No match starts inside a first cookie that holds no ';'. */
  lemma NoMatchBeforeSeparator(first: string, tail: string)
    requires ';' !in first
    requires !(|first| >= 8 && first[..8] == "rf_user=")
    requires tail != [] && tail[0] == ';'
    ensures forall i :: 0 <= i < |first| ==> CaptureStart(first + tail, i).None?
    ensures !OccursAt(first + tail, "rf_user=", 0)
  {
    var h := first + tail;
    NoLeadingCookie(first, tail);
    forall i | 0 <= i < |first|
      ensures CaptureStart(h, i).None?
    {
      NoSeparatorAt(first, tail, i);
    }
  }

  lemma NoLeadingCookie(first: string, tail: string)
    requires !(|first| >= 8 && first[..8] == "rf_user=")
    requires tail != [] && tail[0] == ';'
    ensures !OccursAt(first + tail, "rf_user=", 0)
  {
    var h := first + tail;
    var n := |first|;
    if 8 <= |h| {
      if n < 8 {
        assert h[0..8][n] == h[n] == ';';
      } else {
        assert first[..8] == h[0..8];
      }
    }
  }

  lemma NoSeparatorAt(first: string, tail: string, i: nat)
    requires ';' !in first
    requires i < |first|
    ensures !OccursAt(first + tail, "; rf_user=", i)
  {
    var h := first + tail;
    assert h[i] == first[i];
    assert i + 10 <= |h| ==> h[i..i + 10][0] == h[i];
  }

  lemma {:induction false} FirstMatchSkips(h: string, i: nat, n: nat)
    requires i <= n <= |h|
    requires forall j :: i <= j < n ==> CaptureStart(h, j).None?
    ensures FirstMatch(h, i) == FirstMatch(h, n)
    decreases n - i
  {
    if i < n {
      assert CaptureStart(h, i).None?;
      assert FirstMatch(h, i) == FirstMatch(h, i + 1);
      FirstMatchSkips(h, i + 1, n);
    }
  }
}
