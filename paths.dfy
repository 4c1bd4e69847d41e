/** Request paths: how the client turns the configured server URL and a
    relative path into a request URL (pathToUrl), and the paths each API
    call asks for. */
module Paths {
  import opened Wrappers
  import opened Errors
  import opened Text
  import opened Tags
  import opened Query

  /** Number of '/' characters immediately before position `e` of `s`. */
  function SlashesBefore(s: string, e: nat): (n: nat)
    requires e <= |s|
    ensures n <= e
    ensures forall i :: e - n <= i < e ==> s[i] == '/'
    ensures n < e ==> s[e - n - 1] != '/'
    decreases e
  {
    if e > 0 && s[e - 1] == '/' then 1 + SlashesBefore(s, e - 1) else 0
  }

  /** The server URL's `replaceAll` of slashes before `$` with "": the run of '/' that ends
      where `$` matches (the end of the text, or just before a final line
      terminator) is deleted. Every other match of the pattern is empty. */
  function StripTrailingSlashes(u: string): (r: string)
    ensures var t := FinalTerminatorLength(u);
      && t <= |r| <= |u|
      && r[|r| - t..] == u[|u| - t..]
      && u[..|u| - t] == r[..|r| - t] + RepeatChar('/', |u| - |r|)
      && (|r| == t || r[|r| - t - 1] != '/')
  {
    var t := FinalTerminatorLength(u);
    var e := |u| - t;
    var p := e - SlashesBefore(u, e);
    var r := u[..p] + u[e..];
    assert |r| == p + t;
    assert r[..p] == u[..p];
    assert r[p..] == u[e..];
    assert u[..e] == u[..p] + RepeatChar('/', e - p);
    assert p > 0 ==> r[p - 1] == u[p - 1];
    r
  }

  /** Number of leading '/' characters of `s`. */
  function LeadingSlashes(s: string): (n: nat)
    ensures n <= |s|
    ensures forall i :: 0 <= i < n ==> s[i] == '/'
    ensures n < |s| ==> s[n] != '/'
  {
    if |s| > 0 && s[0] == '/' then 1 + LeadingSlashes(s[1..]) else 0
  }

  /** The URL text pathToUrl hands to `new URL`. */
  function JoinUrl(serverUrl: string, path: string): string {
    StripTrailingSlashes(serverUrl) + "/" + path[LeadingSlashes(path)..]
  }

  /** `pathToUrl(path)`: the server URL without its trailing slashes, one
      '/', and the path without its leading slashes, which a loop strips
      one at a time. */
  method PathToUrl(serverUrl: string, path: string) returns (url: string)
    ensures url == JoinUrl(serverUrl, path)
    ensures var prefix := StripTrailingSlashes(serverUrl);
      && |prefix| < |url|
      && url[..|prefix| + 1] == prefix + "/"
      && path == RepeatChar('/', |path| - (|url| - |prefix| - 1)) + url[|prefix| + 1..]
      && (|url| == |prefix| + 1 || url[|prefix| + 1] != '/')
  {
    var rest := path;
    ghost var k := 0;
    while |rest| > 0 && rest[0] == '/'
      invariant 0 <= k <= |path| && path[k..] == rest
      invariant LeadingSlashes(path) == k + LeadingSlashes(rest)
      decreases |rest|
    {
      rest := rest[1..];
      k := k + 1;
    }
    url := StripTrailingSlashes(serverUrl) + "/" + rest;
    JoinUrlShape(serverUrl, path);
  }

  lemma JoinUrlShape(serverUrl: string, path: string)
    ensures var url := JoinUrl(serverUrl, path);
      var prefix := StripTrailingSlashes(serverUrl);
      && |prefix| < |url|
      && url[..|prefix| + 1] == prefix + "/"
      && path == RepeatChar('/', |path| - (|url| - |prefix| - 1)) + url[|prefix| + 1..]
      && (|url| == |prefix| + 1 || url[|prefix| + 1] != '/')
  {
    var prefix := StripTrailingSlashes(serverUrl);
    var n := LeadingSlashes(path);
    var rest := path[n..];
    var url := prefix + "/" + rest;
    assert url[..|prefix| + 1] == prefix + "/";
    assert url[|prefix| + 1..] == rest;
    assert path[..n] == RepeatChar('/', n);
    assert path == path[..n] + rest;
  }

  /** The join never doubles a slash: the character before the inserted
      '/' and the one after it are not '/'. Before it stands either the last
      character the slashes were stripped from or the server URL's final
      line terminator. */
  lemma NoDoubledSlashAtJoin(serverUrl: string, path: string)
    ensures var url := JoinUrl(serverUrl, path);
      var j := |StripTrailingSlashes(serverUrl)|;
      && j < |url| && url[j] == '/'
      && (j == 0 || url[j - 1] != '/')
      && (j + 1 == |url| || url[j + 1] != '/')
  {
    var prefix := StripTrailingSlashes(serverUrl);
    var rest := path[LeadingSlashes(path)..];
    var url := prefix + "/" + rest;
    assert url[|prefix| + 1..] == rest;
    assert |prefix| > 0 ==> url[|prefix| - 1] == prefix[|prefix| - 1];
    var t := FinalTerminatorLength(serverUrl);
    if t > 0 {
      assert prefix[|prefix| - 1] == prefix[|prefix| - t..][t - 1] == serverUrl[|serverUrl| - t..][t - 1];
      assert IsLineTerminator(serverUrl[|serverUrl| - 1]);
    }
  }

  /** Leading slashes of the path do not matter. */
  lemma JoinUrlIgnoresLeadingSlash(serverUrl: string, path: string)
    ensures JoinUrl(serverUrl, "/" + path) == JoinUrl(serverUrl, path)
  {
    assert ("/" + path)[1..] == path;
  }

  /** `TimeEntry.getApiPath()`. */
  function ApiPath(tag: string, typeId: int32): string {
    "/api/" + tag + "/" + Decimal(typeId as int) + "/"
  }

  /** The path updateTimelineEntry builds for an entry. */
  function UpdatePath(tag: string, typeId: int32): string {
    "api/" + tag + "/" + Decimal(typeId as int) + "/"
  }

  /** Removing and updating an entry address the same URL. */
  lemma RemoveAndUpdateShareUrl(serverUrl: string, tag: string, typeId: int32)
    ensures JoinUrl(serverUrl, ApiPath(tag, typeId)) == JoinUrl(serverUrl, UpdatePath(tag, typeId))
  {
    var u := UpdatePath(tag, typeId);
    assert ApiPath(tag, typeId) == "/" + u;
    JoinUrlIgnoresLeadingSlash(serverUrl, u);
  }

  /** Two texts cut at their first '/' agree piece by piece. */
  lemma {:induction false} SlashDelimited(a: string, x: string, b: string, y: string)
    requires '/' !in a && '/' !in b
    requires a + "/" + x == b + "/" + y
    ensures a == b && x == y
  {
    FirstIndexAfter(a, '/', x);
    FirstIndexAfter(b, '/', y);
    var s := a + "/" + x;
    assert s[..|a|] == a && s[|a| + 1..] == x;
    assert (b + "/" + y)[..|b|] == b && (b + "/" + y)[|b| + 1..] == y;
  }

  lemma DecimalInjective(m: int, n: int)
    requires Decimal(m) == Decimal(n)
    ensures m == n
  {
    DecimalRoundTrip(m);
    DecimalRoundTrip(n);
  }

  /** Distinct entries have distinct API paths: the path determines the tag
      and the id, for tags without '/' (all four are). */
  lemma {:induction false} ApiPathInjective(t1: string, i1: int32, t2: string, i2: int32)
    requires '/' !in t1 && '/' !in t2
    requires ApiPath(t1, i1) == ApiPath(t2, i2)
    ensures t1 == t2 && i1 == i2
  {
    var d1, d2 := Decimal(i1 as int), Decimal(i2 as int);
    var s1, s2 := d1 + "/", d2 + "/";
    ApiPathAfterPrefix(t1, d1);
    ApiPathAfterPrefix(t2, d2);
    SlashDelimited(t1, s1, t2, s2);
    assert d1 == s1[..|s1| - 1] && d2 == s2[..|s2| - 1];
    DecimalInjective(i1 as int, i2 as int);
  }

  /** What an API path holds after its "/api/" prefix. */
  lemma ApiPathAfterPrefix(tag: string, d: string)
    ensures ("/api/" + tag + "/" + d + "/")[5..] == tag + "/" + (d + "/")
  {
    var rest := tag + "/" + (d + "/");
    assert "/api/" + tag + "/" + d + "/" == "/api/" + rest;
  }

  /** The web-interface segment of each known record kind. */
  function UserSegment(tag: string): (r: Option<string>)
    ensures r.Some? <==> (tag == Feeding || tag == Sleep || tag == TummyTime || tag == Change)
    ensures tag == TummyTime ==> r == Some("tummy-time")
    ensures tag != TummyTime && r.Some? ==> r.value == tag
  {
    if tag == Feeding then Some("feedings")
    else if tag == Change then Some("changes")
    else if tag == TummyTime then Some("tummy-time")
    else if tag == Sleep then Some("sleep")
    else None
  }

  /** A path of the form `/<segment>/<id>/` ends with `/<id>/`. */
  lemma SegmentPathEnds(seg: string, id: string)
    ensures var p := "/" + seg + "/" + id + "/";
      |id| + 2 <= |p| && p[|p| - |id| - 2..] == "/" + id + "/"
  {
    var p := "/" + seg + "/" + id + "/";
    assert p == ("/" + seg) + ("/" + id + "/");
  }

  /** `TimeEntry.getUserPath()`: the web-interface path of the four known
      record kinds (tummy time singular there), None for any other tag. */
  function UserPath(tag: string, typeId: int32): (r: Option<string>)
    ensures r.Some? <==> tag in Activities || tag in Events
    ensures r.Some? ==> var id := Decimal(typeId as int);
      |id| + 2 <= |r.value| && r.value[|r.value| - |id| - 2..] == "/" + id + "/"
    ensures tag == TummyTime ==> r == Some("/tummy-time/" + Decimal(typeId as int) + "/")
  {
    KnownTags(tag);
    match UserSegment(tag)
    case Some(seg) =>
      var id := Decimal(typeId as int);
      var p := "/" + seg + "/" + id + "/";
      SegmentPathEnds(seg, id);
      assert |id| + 2 <= |p| && p[|p| - |id| - 2..] == "/" + id + "/";
      assert tag == TummyTime ==> p == "/tummy-time/" + id + "/";
      Some(p)
    case None => None
  }

  /** The user path of feedings, changes and sleep is the API path without
      its `/api` prefix; only tummy time differs. */
  lemma UserPathMirrorsApiPath(tag: string, typeId: int32)
    requires tag == Feeding || tag == Change || tag == Sleep
    ensures UserPath(tag, typeId) == Some(ApiPath(tag, typeId)[4..])
  {
    var rest := "/" + tag + "/" + Decimal(typeId as int) + "/";
    assert ApiPath(tag, typeId) == "/api" + rest;
    assert UserSegment(tag) == Some(tag);
  }

  /** `"api/timers/" + timer_id + "/"` (getTimer), and the same path written
      with `%d` (deleteTimer). */
  function TimerPath(timerId: int32): string {
    "api/timers/" + Decimal(timerId as int) + "/"
  }

  /** setTimerActive's path: `/restart/` to start the timer, `/stop/` to stop it. */
  function SetTimerActivePath(timerId: int32, active: bool): string {
    "api/timers/" + Decimal(timerId as int) + (if active then "/restart/" else "/stop/")
  }

  /** The restart and stop actions are sub-paths of the timer's own path. */
  lemma SetTimerActiveIsTimerAction(timerId: int32, active: bool)
    ensures SetTimerActivePath(timerId, active) == TimerPath(timerId) + (if active then "restart/" else "stop/")
  {
  }

  /** Distinct timers have distinct paths. */
  lemma TimerPathInjective(a: int32, b: int32)
    requires TimerPath(a) == TimerPath(b)
    ensures a == b
  {
    var n := |"api/timers/"|;
    assert TimerPath(a)[n..|TimerPath(a)| - 1] == Decimal(a as int);
    assert TimerPath(b)[n..|TimerPath(b)| - 1] == Decimal(b as int);
    DecimalInjective(a as int, b as int);
  }

  /** listTimers' path: `?` then `child=<id>` when a child is given. */
  function ListTimersPath(childId: Option<int32>): string {
    "api/timers/?" + (match childId
      case Some(c) => "child=" + Decimal(c as int)
      case None => "")
  }

  /** The query part of listTimers' path reads back as the child filter. */
  lemma ListTimersQuery(childId: Option<int32>)
    ensures var p := ListTimersPath(childId);
      var n := |"api/timers/?"|;
      && p[..n] == "api/timers/?"
      && ParseQuery(p[n..]) == (match childId
        case Some(c) => map["child" := Decimal(c as int)]
        case None => map[])
  {
    var n := |"api/timers/?"|;
    var p := ListTimersPath(childId);
    if childId.Some? {
      var d := Decimal(childId.value as int);
      var q := "child=" + d;
      assert p[n..] == q;
      DecimalHasNoChar(childId.value as int, '&');
      assert '&' !in "child=";
      assert '&' !in q;
      assert Split(q, '&') == [q];
      assert q == "child" + ['='] + d;
      SplitPairOfPair("child", d);
      assert PairsToMap([q]) == map["child" := d];
    } else {
      assert p[n..] == "";
    }
  }

  /** listGeneric's path: `api/<activity>/`, followed by `?` and the query
      string when query values are given. Rendering the query string fails
      on a null value, before any request is made. `order` is the iteration
      order the rendering used. */
  method ListGenericPath(activity: string, queryValues: QueryValues?, urlencode: string -> Option<string>)
    returns (r: Result<string, Error>, ghost order: seq<string>)
    ensures queryValues == null ==> r == Ok("api/" + activity + "/")
    ensures queryValues != null ==>
      (r.Err? <==> exists k :: k in queryValues.values && queryValues.values[k].None?)
    ensures r.Err? ==> r.error == NullPointer
    ensures queryValues != null && r.Ok? ==>
      && IsEnumeration(order, queryValues.values.Keys)
      && AllPresent(order, queryValues.values)
      && r.value == "api/" + activity + "/?" + Join(Pairs(order, queryValues.values, urlencode), '&')
  {
    var path := "api/" + activity + "/";
    order := [];
    if queryValues != null {
      var qs;
      qs, order := queryValues.ToQueryString(urlencode);
      if qs.Err? {
        return Err(qs.error), order;
      }
      path := path + "?" + qs.value;
    }
    r := Ok(path);
  }
}
