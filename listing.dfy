/** Reading list replies: the `results` array of a paginated reply, the
    loop that decodes every element (all of them or an error, never part of
    the list), the id order listTimers puts timers in, and the query a
    timeline page asks with. */
module Listing {
  import opened Wrappers
  import opened Errors
  import opened Text
  import opened Json
  import opened WireDate
  import opened Query
  import opened Paths
  import opened Tags
  import opened Entities

  // ------------------------------------------------------ the results array

  /** listGeneric's reading of `results`, as written: getJSONArray throws
      for a missing key and for JSON null alike, so the `result == null`
      branch after it is never taken. */
  function ResultsAsWritten(reply: Object): (r: Result<seq<Json>, Error>)
    ensures r.Ok? <==> "results" in reply && reply["results"].JArr?
    ensures r.Ok? ==> r.value == reply["results"].items
  {
    GetArray(reply, "results")
  }

  /** The same, as its null check means it: a missing or null `results` is
      an empty list. */
  function Results(reply: Object): (r: Result<seq<Json>, Error>)
    ensures IsNull(reply, "results") ==> r == Ok([])
    ensures !IsNull(reply, "results") ==> r == ResultsAsWritten(reply)
  {
    if IsNull(reply, "results") then Ok([]) else GetArray(reply, "results")
  }

  /** The discrepancy: a reply whose `results` is null reaches the caller as
      an error instead of an empty list. */
  lemma NullResultsFailAsWritten(reply: Object)
    requires "results" in reply && reply["results"] == JNull
    ensures ResultsAsWritten(reply).Err?
    ensures Results(reply) == Ok([])
  {
  }

  // ----------------------------------------------------- decoding elements

  /** Element `i` is an object that `wrap` decodes. */
  predicate DecodesAt<T>(items: seq<Json>, i: nat, wrap: Object -> Result<T, Error>)
    requires i < |items|
  {
    items[i].JObj? && wrap(items[i].fields).Ok?
  }

  /** The error element `i` raises when it does not decode. */
  function FailureAt<T>(items: seq<Json>, i: nat, wrap: Object -> Result<T, Error>): Error
    requires i < |items| && !DecodesAt(items, i, wrap)
  {
    match ObjectAt(items, i)
    case Err(e) => e
    case Ok(o) => wrap(o).error
  }

  /** Every element decoded in order, or the error of the first element
      that does not decode (DecodeAllMeaning states this). */
  function DecodeAll<T>(items: seq<Json>, wrap: Object -> Result<T, Error>): (r: Result<seq<T>, Error>)
    ensures r.Ok? ==> |r.value| == |items|
  {
    if |items| == 0 then Ok([])
    else
      match DecodeAll(items[..|items| - 1], wrap)
      case Err(e) => Err(e)
      case Ok(decoded) =>
        match ObjectAt(items, |items| - 1)
        case Err(e) => Err(e)
        case Ok(o) =>
          match wrap(o)
          case Err(e) => Err(e)
          case Ok(x) => Ok(decoded + [x])
  }

  /** The elements before `n` decode in the prefix as in the whole. */
  lemma SameDecodesOnPrefix<T>(items: seq<Json>, n: nat, wrap: Object -> Result<T, Error>)
    requires n <= |items|
    ensures forall j :: 0 <= j < n ==> (DecodesAt(items[..n], j, wrap) <==> DecodesAt(items, j, wrap))
    ensures forall j :: 0 <= j < n ==> items[..n][j] == items[j]
  {
  }

  /** DecodeAll succeeds exactly when every element decodes, and then holds
      each element's value at its index. */
  lemma {:induction false} DecodeAllMeaning<T>(items: seq<Json>, wrap: Object -> Result<T, Error>)
    ensures DecodeAll(items, wrap).Ok? <==> forall i :: 0 <= i < |items| ==> DecodesAt(items, i, wrap)
    ensures DecodeAll(items, wrap).Ok? ==> forall i :: 0 <= i < |items| ==>
      items[i].JObj? && wrap(items[i].fields) == Ok(DecodeAll(items, wrap).value[i])
    decreases |items|
  {
    if |items| > 0 {
      var n := |items| - 1;
      var init := items[..n];
      DecodeAllMeaning(init, wrap);
      SameDecodesOnPrefix(items, n, wrap);
      if DecodeAll(init, wrap).Ok? && DecodesAt(items, n, wrap) {
        assert DecodeAll(items, wrap).value == DecodeAll(init, wrap).value + [wrap(items[n].fields).value];
      }
    }
  }

  /** Element `i` is the first that does not decode, and `e` its error. */
  predicate FirstFailure<T>(items: seq<Json>, i: nat, wrap: Object -> Result<T, Error>, e: Error)
    requires i < |items|
  {
    && !DecodesAt(items, i, wrap)
    && (forall j :: 0 <= j < i ==> DecodesAt(items, j, wrap))
    && e == FailureAt(items, i, wrap)
  }

  /** When DecodeAll fails, its error is that of the first element that does
      not decode. */
  lemma {:induction false} DecodeAllFirstFailure<T>(items: seq<Json>, wrap: Object -> Result<T, Error>)
    requires DecodeAll(items, wrap).Err?
    ensures exists i :: 0 <= i < |items| && FirstFailure(items, i, wrap, DecodeAll(items, wrap).error)
    decreases |items|
  {
    var n := |items| - 1;
    var init := items[..n];
    SameDecodesOnPrefix(items, n, wrap);
    if DecodeAll(init, wrap).Err? {
      DecodeAllFirstFailure(init, wrap);
      var i :| 0 <= i < n && FirstFailure(init, i, wrap, DecodeAll(init, wrap).error);
      assert init[i] == items[i];
      assert FirstFailure(items, i, wrap, DecodeAll(items, wrap).error);
    } else {
      DecodeAllMeaning(init, wrap);
      var e := DecodeAll(items, wrap).error;
      match ObjectAt(items, n)
      case Err(e') =>
        assert e == e' && !DecodesAt(items, n, wrap);
        assert FirstFailure(items, n, wrap, e);
      case Ok(o) =>
        assert o == items[n].fields && e == wrap(o).error;
        assert FirstFailure(items, n, wrap, e);
    }
  }

  /** A failure before the last element is the failure of the whole list. */
  lemma DecodeAllFailureExtends<T>(items: seq<Json>, wrap: Object -> Result<T, Error>)
    requires |items| > 0
    requires DecodeAll(items[..|items| - 1], wrap).Err?
    ensures DecodeAll(items, wrap) == DecodeAll(items[..|items| - 1], wrap)
  {
  }

  /** A failure in a prefix is the failure of the whole list. */
  lemma {:induction false} DecodeAllPrefixFailure<T>(items: seq<Json>, k: nat, wrap: Object -> Result<T, Error>)
    requires k <= |items|
    requires DecodeAll(items[..k], wrap).Err?
    ensures DecodeAll(items, wrap) == DecodeAll(items[..k], wrap)
    decreases |items| - k
  {
    if k < |items| {
      var p := items[..k + 1];
      assert p[..|p| - 1] == items[..k];
      DecodeAllFailureExtends(p, wrap);
      DecodeAllPrefixFailure(items, k + 1, wrap);
    } else {
      assert items[..k] == items;
    }
  }

  /** The decode loop of genericTimelineRequest, listChildren and listTimers:
      one element after another appended to the result list; the first
      failure abandons the list. */
  method DecodeEach<T>(items: seq<Json>, wrap: Object -> Result<T, Error>) returns (r: Result<seq<T>, Error>)
    ensures r == DecodeAll(items, wrap)
  {
    var result: seq<T> := [];
    var i := 0;
    while i < |items|
      invariant 0 <= i <= |items|
      invariant DecodeAll(items[..i], wrap) == Ok(result)
    {
      assert items[..i + 1][..i] == items[..i];
      var element := ObjectAt(items, i);
      if element.Err? {
        DecodeAllPrefixFailure(items, i + 1, wrap);
        return Err(element.error);
      }
      var decoded := wrap(element.value);
      if decoded.Err? {
        DecodeAllPrefixFailure(items, i + 1, wrap);
        return Err(decoded.error);
      }
      result := result + [decoded.value];
      i := i + 1;
    }
    assert items[..i] == items;
    r := Ok(result);
  }

  /** The response handler of a list request: the `results` array (read as
      intended), decoded element by element. */
  method DecodeList<T>(reply: Object, wrap: Object -> Result<T, Error>) returns (r: Result<seq<T>, Error>)
    ensures Results(reply).Err? ==> r == Err(Results(reply).error)
    ensures Results(reply).Ok? ==> r == DecodeAll(Results(reply).value, wrap)
  {
    var items := Results(reply);
    if items.Err? {
      return Err(items.error);
    }
    r := DecodeEach(items.value, wrap);
  }

  /** listChildren's handler: it reads `results` with getJSONArray alone. */
  method ListChildren(reply: Object) returns (r: Result<seq<Child>, Error>)
    ensures ResultsAsWritten(reply).Err? ==> r == Err(ResultsAsWritten(reply).error)
    ensures ResultsAsWritten(reply).Ok? ==> r == DecodeAll(ResultsAsWritten(reply).value, ChildFromJson)
  {
    var items := ResultsAsWritten(reply);
    if items.Err? {
      return Err(items.error);
    }
    r := DecodeEach(items.value, ChildFromJson);
  }

  // ------------------------------------------------------ timers by id

  predicate SortedById(s: seq<Timer>) {
    forall i, j :: 0 <= i < j < |s| ==> s[i].id <= s[j].id
  }

  /** The timers of `s` with id `k`, in their order in `s`. */
  function WithId(s: seq<Timer>, k: int32): (r: seq<Timer>)
    ensures |r| <= |s|
  {
    if |s| == 0 then []
    else WithId(s[..|s| - 1], k) + (if s[|s| - 1].id == k then [s[|s| - 1]] else [])
  }

  /** Inserts `x` into the id-sorted `s` after every timer whose id is not
      larger, which keeps equal ids in arrival order. */
  function InsertById(s: seq<Timer>, x: Timer): (r: seq<Timer>)
    ensures |r| == |s| + 1
  {
    if |s| == 0 || s[|s| - 1].id <= x.id then s + [x]
    else InsertById(s[..|s| - 1], x) + [s[|s| - 1]]
  }

  /** Inserting adds `x` and loses nothing. */
  lemma {:induction false} InsertByIdPermutes(s: seq<Timer>, x: Timer)
    ensures multiset(InsertById(s, x)) == multiset(s) + multiset{x}
    decreases |s|
  {
    if |s| > 0 && s[|s| - 1].id > x.id {
      var n := |s| - 1;
      assert s == s[..n] + [s[n]];
      InsertByIdPermutes(s[..n], x);
    }
  }

  /** Inserting keeps every id under a bound that `s` and `x` are under. */
  lemma {:induction false} InsertByIdBounded(s: seq<Timer>, x: Timer, b: int32)
    requires forall i :: 0 <= i < |s| ==> s[i].id <= b
    requires x.id <= b
    ensures forall i :: 0 <= i < |InsertById(s, x)| ==> InsertById(s, x)[i].id <= b
    decreases |s|
  {
    if |s| == 0 || s[|s| - 1].id <= x.id {
    } else {
      var n := |s| - 1;
      InsertByIdBounded(s[..n], x, b);
    }
  }

  /** Inserting into an id-sorted sequence keeps it sorted. */
  lemma {:induction false} InsertByIdSorted(s: seq<Timer>, x: Timer)
    requires SortedById(s)
    ensures SortedById(InsertById(s, x))
    decreases |s|
  {
    if |s| == 0 || s[|s| - 1].id <= x.id {
    } else {
      var n := |s| - 1;
      var init := s[..n];
      assert SortedById(init);
      InsertByIdSorted(init, x);
      InsertByIdBounded(init, x, s[n].id);
      var r := InsertById(init, x);
      assert InsertById(s, x) == r + [s[n]];
    }
  }

  /** `result.sort(Comparator.comparingInt(t -> t.id))`: a stable sort by id. */
  function SortById(s: seq<Timer>): (r: seq<Timer>)
    ensures SortedById(r)
    ensures multiset(r) == multiset(s)
  {
    if |s| == 0 then []
    else
      var n := |s| - 1;
      assert s == s[..n] + [s[n]];
      InsertByIdSorted(SortById(s[..n]), s[n]);
      InsertByIdPermutes(SortById(s[..n]), s[n]);
      InsertById(SortById(s[..n]), s[n])
  }

  /** WithId of a sequence with one more timer at its end. */
  lemma WithIdSnoc(a: seq<Timer>, y: Timer, k: int32)
    ensures WithId(a + [y], k) == WithId(a, k) + (if y.id == k then [y] else [])
  {
    assert (a + [y])[..|a|] == a;
  }

  /** One step of InsertById past a larger last element. */
  lemma InsertByIdPasses(s: seq<Timer>, x: Timer)
    requires |s| > 0 && s[|s| - 1].id > x.id
    ensures InsertById(s, x) == InsertById(s[..|s| - 1], x) + [s[|s| - 1]]
  {
  }

  /** Inserting passes `x` over larger ids only, so among the timers with
      one id it lands last. */
  lemma {:induction false} InsertByIdStable(s: seq<Timer>, x: Timer, k: int32)
    ensures WithId(InsertById(s, x), k) == WithId(s, k) + (if x.id == k then [x] else [])
    decreases |s|
  {
    if |s| == 0 || s[|s| - 1].id <= x.id {
      WithIdSnoc(s, x, k);
    } else {
      var init, y := s[..|s| - 1], s[|s| - 1];
      var r := InsertById(init, x);
      InsertByIdPasses(s, x);
      InsertByIdStable(init, x, k);
      WithIdSnoc(r, y, k);
      assert s == init + [y];
      WithIdSnoc(init, y, k);
      if x.id == k {
        // y's id is larger than k, so y is not among them
        assert WithId(InsertById(s, x), k) == WithId(r, k);
        assert WithId(s, k) == WithId(init, k);
      } else {
        assert WithId(r, k) == WithId(init, k);
      }
    }
  }

  /** Timers with equal ids keep their relative order. */
  lemma {:induction false} SortByIdStable(s: seq<Timer>, k: int32)
    ensures WithId(SortById(s), k) == WithId(s, k)
    decreases |s|
  {
    if |s| > 0 {
      var n := |s| - 1;
      var init, y := s[..n], s[n];
      assert s == init + [y];
      assert SortById(s) == InsertById(SortById(init), y);
      SortByIdStable(init, k);
      InsertByIdStable(SortById(init), y, k);
      WithIdSnoc(init, y, k);
    }
  }

  /** listTimers' handler: decode every timer, then order by id. */
  method ListTimers(reply: Object, parse: string -> Option<Instant>) returns (r: Result<seq<Timer>, Error>)
    ensures ResultsAsWritten(reply).Err? ==> r == Err(ResultsAsWritten(reply).error)
    ensures ResultsAsWritten(reply).Ok? ==>
      var decoded := DecodeAll(ResultsAsWritten(reply).value, o => TimerFromJson(o, parse));
      && (decoded.Err? ==> r == Err(decoded.error))
      && (decoded.Ok? ==> (r.Ok? && SortedById(r.value) && multiset(r.value) == multiset(decoded.value)
          && forall k :: WithId(r.value, k) == WithId(decoded.value, k)))
  {
    var items := ResultsAsWritten(reply);
    if items.Err? {
      return Err(items.error);
    }
    var decoded := DecodeEach(items.value, o => TimerFromJson(o, parse));
    if decoded.Err? {
      return Err(decoded.error);
    }
    forall k {
      SortByIdStable(decoded.value, k);
    }
    r := Ok(SortById(decoded.value));
  }

  // ------------------------------------------------------ timeline pages

  /** The query of genericTimelineRequest: the child, the page offset and
      the page size. */
  method TimelineQuery(childId: int32, offset: int32, count: int32) returns (q: QueryValues)
    ensures fresh(q)
    ensures q.values == map["child" := Some(Decimal(childId as int)), "offset" := Some(Decimal(offset as int)),
      "limit" := Some(Decimal(count as int))]
  {
    q := new QueryValues();
    q := q.AddInt("child", childId);
    q := q.AddInt("offset", offset);
    q := q.AddInt("limit", count);
  }

  /** The three numbers of a timeline query, encoded, as a table. */
  lemma TimelineQueryReadsBack(childId: int32, offset: int32, count: int32, urlencode: string -> Option<string>)
    ensures var t := map["child" := Some(Decimal(childId as int)), "offset" := Some(Decimal(offset as int)),
      "limit" := Some(Decimal(count as int))];
      && (forall k :: k in t ==> '&' !in k && '=' !in k)
      && EncodedValues(t, urlencode) == map[
        "child" := EncodedText(urlencode(Decimal(childId as int))),
        "offset" := EncodedText(urlencode(Decimal(offset as int))),
        "limit" := EncodedText(urlencode(Decimal(count as int)))]
  {
    assert '&' !in "child" && '=' !in "child";
    assert '&' !in "offset" && '=' !in "offset";
    assert '&' !in "limit" && '=' !in "limit";
    var t := map["child" := Some(Decimal(childId as int)), "offset" := Some(Decimal(offset as int)),
      "limit" := Some(Decimal(count as int))];
    var e := map[
        "child" := EncodedText(urlencode(Decimal(childId as int))),
        "offset" := EncodedText(urlencode(Decimal(offset as int))),
        "limit" := EncodedText(urlencode(Decimal(count as int)))];
    var m := EncodedValues(t, urlencode);
    assert m.Keys == e.Keys;
    forall k | k in m ensures m[k] == e[k] {
      assert t[k].GetOr("") == if k == "child" then Decimal(childId as int)
        else if k == "offset" then Decimal(offset as int) else Decimal(count as int);
    }
    assert m == e;
  }

  /** The path of one timeline page. Its query string always renders (no
      value is null), and what follows `api/<target>/?` reads back as the
      three numbers whenever the encoder's output never holds '&'. */
  method TimelinePath(target: string, childId: int32, offset: int32, count: int32, urlencode: string -> Option<string>)
    returns (r: Result<string, Error>)
    ensures r.Ok?
    ensures var prefix := "api/" + target + "/?";
      && |prefix| <= |r.value| && r.value[..|prefix|] == prefix
      && ((forall v :: '&' !in EncodedText(urlencode(v))) ==>
        ParseQuery(r.value[|prefix|..]) == map[
          "child" := EncodedText(urlencode(Decimal(childId as int))),
          "offset" := EncodedText(urlencode(Decimal(offset as int))),
          "limit" := EncodedText(urlencode(Decimal(count as int)))])
  {
    var q := TimelineQuery(childId, offset, count);
    ghost var order;
    r, order := ListGenericPath(target, q, urlencode);
    ghost var prefix := "api/" + target + "/?";
    ghost var query := Join(Pairs(order, q.values, urlencode), '&');
    assert r.value == prefix + query;
    assert r.value[..|prefix|] == prefix;
    assert r.value[|prefix|..] == query;
    TimelineQueryReadsBack(childId, offset, count, urlencode);
    if forall v :: '&' !in EncodedText(urlencode(v)) {
      QueryStringRoundTrip(order, q.values, urlencode);
    }
  }

  /** The four timeline readers: decode the page with the record kind's own
      decoder. They read `results` as listGeneric evidently intends, a null
      `results` giving an empty page (see `Results`). */
  method ListSleepEntries(reply: Object, parse: string -> Option<Instant>) returns (r: Result<seq<TimeEntry>, Error>)
    ensures Results(reply).Err? ==> r == Err(Results(reply).error)
    ensures Results(reply).Ok? ==> r == DecodeAll(Results(reply).value, o => DecodeSleep(o, parse))
    ensures r.Ok? ==> forall i :: 0 <= i < |r.value| ==> r.value[i].tag == Sleep
  {
    var wrap := o => DecodeSleep(o, parse);
    r := DecodeList(reply, wrap);
    if r.Ok? {
      var items := Results(reply).value;
      DecodeAllMeaning(items, wrap);
      forall i | 0 <= i < |r.value| ensures r.value[i].tag == Sleep {
        assert DecodeSleep(items[i].fields, parse) == Ok(r.value[i]);
      }
    }
  }

  method ListTummyTimeEntries(reply: Object, parse: string -> Option<Instant>) returns (r: Result<seq<TimeEntry>, Error>)
    ensures Results(reply).Err? ==> r == Err(Results(reply).error)
    ensures Results(reply).Ok? ==> r == DecodeAll(Results(reply).value, o => DecodeTummyTime(o, parse))
    ensures r.Ok? ==> forall i :: 0 <= i < |r.value| ==> r.value[i].tag == TummyTime
  {
    var wrap := o => DecodeTummyTime(o, parse);
    r := DecodeList(reply, wrap);
    if r.Ok? {
      var items := Results(reply).value;
      DecodeAllMeaning(items, wrap);
      forall i | 0 <= i < |r.value| ensures r.value[i].tag == TummyTime {
        assert DecodeTummyTime(items[i].fields, parse) == Ok(r.value[i]);
      }
    }
  }

  method ListChangeEntries(reply: Object, parse: string -> Option<Instant>) returns (r: Result<seq<TimeEntry>, Error>)
    ensures Results(reply).Err? ==> r == Err(Results(reply).error)
    ensures Results(reply).Ok? ==> r == DecodeAll(Results(reply).value, o => DecodeChange(o, parse))
    ensures r.Ok? ==> forall i :: 0 <= i < |r.value| ==> r.value[i].tag == Change && r.value[i].start == r.value[i].end
  {
    var wrap := o => DecodeChange(o, parse);
    r := DecodeList(reply, wrap);
    if r.Ok? {
      var items := Results(reply).value;
      DecodeAllMeaning(items, wrap);
      forall i | 0 <= i < |r.value| ensures r.value[i].tag == Change && r.value[i].start == r.value[i].end {
        assert DecodeChange(items[i].fields, parse) == Ok(r.value[i]);
      }
    }
  }

  method ListFeedingEntries(reply: Object, parse: string -> Option<Instant>, methods: seq<string>, types: seq<string>)
    returns (r: Result<seq<TimeEntry>, Error>)
    ensures Results(reply).Err? ==> r == Err(Results(reply).error)
    ensures Results(reply).Ok? ==> r == DecodeAll(Results(reply).value, o => DecodeFeeding(o, parse, methods, types))
    ensures r.Ok? ==> forall i :: 0 <= i < |r.value| ==> r.value[i].tag == Feeding && r.value[i].kind.FeedingKind?
  {
    var wrap := o => DecodeFeeding(o, parse, methods, types);
    r := DecodeList(reply, wrap);
    if r.Ok? {
      var items := Results(reply).value;
      DecodeAllMeaning(items, wrap);
      forall i | 0 <= i < |r.value| ensures r.value[i].tag == Feeding && r.value[i].kind.FeedingKind? {
        assert DecodeFeeding(items[i].fields, parse, methods, types) == Ok(r.value[i]);
      }
    }
  }
}
