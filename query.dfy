/** QueryValues: a mutable name-to-value table with typed `add` overloads
    (last write wins), rendered either as a URL query string or as a JSON
    object. Values may be null, as in the HashMap the client uses. The URL
    encoder is a parameter: it returns None where URLEncoder would throw
    UnsupportedEncodingException, and the client's `urlencode` then yields
    null, which StringBuilder.append writes as "null". */
module Query {
  import opened Wrappers
  import opened Errors
  import opened Text
  import opened Json
  import opened WireDate

  type Table = map<string, Option<string>>

  /** What StringBuilder.append writes for the result of `urlencode`. */
  function EncodedText(e: Option<string>): string {
    match e
    case Some(t) => t
    case None => "null"
  }

  /** One `key=encoded` pair. */
  function Pair(k: string, v: string, urlencode: string -> Option<string>): (p: string)
    ensures p == k + "=" + EncodedText(urlencode(v))
  {
    k + "=" + EncodedText(urlencode(v))
  }

  predicate Distinct(order: seq<string>) {
    forall i, j :: 0 <= i < j < |order| ==> order[i] != order[j]
  }

  /** `order` lists every key of `keys` exactly once: one possible HashMap
      iteration order. */
  ghost predicate IsEnumeration(order: seq<string>, keys: set<string>) {
    Distinct(order) && (forall k :: k in keys <==> k in order)
  }

  predicate AllPresent(order: seq<string>, t: Table) {
    forall i :: 0 <= i < |order| ==> order[i] in t && t[order[i]].Some?
  }

  /** The pairs emitted for the keys of `order`, in that order. */
  function Pairs(order: seq<string>, t: Table, urlencode: string -> Option<string>): (ps: seq<string>)
    requires AllPresent(order, t)
    ensures |ps| == |order|
    ensures forall i :: 0 <= i < |order| ==> ps[i] == Pair(order[i], t[order[i]].value, urlencode)
  {
    seq(|order|, i requires 0 <= i < |order| && AllPresent(order, t) => Pair(order[i], t[order[i]].value, urlencode))
  }

  /** Rendering one more pair appends it after a '&', or alone when it is
      the first. */
  lemma JoinPairsStep(order: seq<string>, k: string, t: Table, urlencode: string -> Option<string>)
    requires AllPresent(order, t) && k in t && t[k].Some?
    ensures AllPresent(order + [k], t)
    ensures var p := Pair(k, t[k].value, urlencode);
      Join(Pairs(order + [k], t, urlencode), '&')
        == if |order| == 0 then p else Join(Pairs(order, t, urlencode), '&') + "&" + p
  {
    var p := Pair(k, t[k].value, urlencode);
    assert AllPresent(order + [k], t);
    assert Pairs(order + [k], t, urlencode) == Pairs(order, t, urlencode) + [p];
    if |order| > 0 {
      JoinAppend(Pairs(order, t, urlencode), p, '&');
    }
  }

  /** The JSON object `new JSONObject(queryValues)` builds: the same keys, a
      string for each value and JSON null for a null value. */
  function JsonOf(t: Table): (o: Object)
    ensures o.Keys == t.Keys
  {
    map k | k in t :: match t[k] case Some(v) => JStr(v) case None => JNull
  }

  class QueryValues {
    var values: Table

    constructor ()
      ensures values == map[]
    {
      values := map[];
    }

    /** `add(name, String)`: stores the value, replacing any earlier one; the
        object itself is returned for chaining. */
    method Add(name: string, value: Option<string>) returns (self: QueryValues)
      modifies this
      ensures values == old(values)[name := value]
      ensures self == this
    {
      values := values[name := value];
      self := this;
    }

    /** `add(name, int)`: stores the decimal rendering. */
    method AddInt(name: string, value: int32) returns (self: QueryValues)
      modifies this
      ensures values == old(values)[name := Some(Decimal(value as int))]
      ensures self == this
    {
      self := Add(name, Some(Decimal(value as int)));
    }

    /** `add(name, Date)`: stores the zone-less UTC rendering (`dateToQueryString`),
        null for a null date; the UTC formatter is a parameter. */
    method AddDate(name: string, value: Option<Instant>, formatUtc: Instant -> string) returns (self: QueryValues)
      modifies this
      ensures values == old(values)[name := DateToString(value, formatUtc)]
      ensures self == this
    {
      self := Add(name, DateToString(value, formatUtc));
    }

    /** `toQueryString()`: walks the entries in the map's own order, writing
        `&` before every pair but the first. A null value makes
        URLEncoder.encode throw NullPointerException. `order` is the
        iteration order the walk used. */
    method ToQueryString(urlencode: string -> Option<string>) returns (r: Result<string, Error>, ghost order: seq<string>)
      ensures r.Err? <==> exists k :: k in values && values[k].None?
      ensures r.Err? ==> r.error == NullPointer
      ensures r.Ok? ==> IsEnumeration(order, values.Keys) && AllPresent(order, values)
      ensures r.Ok? ==> r.value == Join(Pairs(order, values, urlencode), '&')
    {
      var t := values;
      var rest := t.Keys;
      var acc := "";
      order := [];
      ghost var seen: set<string> := {};
      while rest != {}
        invariant rest !! seen && rest + seen == t.Keys
        invariant forall k :: k in seen <==> k in order
        invariant Distinct(order)
        invariant AllPresent(order, t)
        invariant |order| == 0 ==> acc == ""
        invariant |order| > 0 ==> |acc| > 0
        invariant acc == Join(Pairs(order, t, urlencode), '&')
        invariant forall k :: k in seen ==> t[k].Some?
        decreases rest
      {
        var k :| k in rest;
        match t[k] {
          case None =>
            assert k in t && t[k].None?;
            return Err(NullPointer), order;
          case Some(v) =>
            var p := Pair(k, v, urlencode);
            if |acc| > 0 {
              acc := acc + "&";
            }
            acc := acc + p;
            JoinPairsStep(order, k, t, urlencode);
            order := order + [k];
            seen := seen + {k};
            rest := rest - {k};
        }
      }
      assert forall k :: k in t ==> t[k].Some?;
      r := Ok(acc);
    }

    /** `toJsonObject()`. */
    function ToJsonObject(): (o: Object)
      reads this
      ensures o.Keys == values.Keys
      ensures forall k :: k in values && values[k].Some? ==> o[k] == JStr(values[k].value)
    {
      JsonOf(values)
    }
  }

  /** Every value of a table without nulls, encoded. */
  function EncodedValues(t: Table, urlencode: string -> Option<string>): (m: map<string, string>)
    ensures m.Keys == t.Keys
    ensures forall k :: k in t ==> m[k] == EncodedText(urlencode(t[k].GetOr("")))
  {
    map k | k in t :: EncodedText(urlencode(t[k].GetOr("")))
  }

  /** Cuts a pair at its first '='. */
  function SplitPair(p: string): (string, string) {
    if '=' in p then
      var i := FirstIndex(p, '=');
      (p[..i], p[i + 1..])
    else (p, "")
  }

  /** Reads pairs into a table; a later pair for a key wins. */
  function PairsToMap(ps: seq<string>): map<string, string> {
    if |ps| == 0 then map[]
    else
      var kv := SplitPair(ps[|ps| - 1]);
      PairsToMap(ps[..|ps| - 1])[kv.0 := kv.1]
  }

  /** A reader for the query strings toQueryString writes. */
  function ParseQuery(s: string): map<string, string> {
    if s == "" then map[] else PairsToMap(Split(s, '&'))
  }

  /** The table a sequence of distinct-or-not keys describes, later keys winning. */
  function EncodedTable(order: seq<string>, t: Table, urlencode: string -> Option<string>): (m: map<string, string>)
    requires AllPresent(order, t)
  {
    if |order| == 0 then map[]
    else
      var n := |order| - 1;
      EncodedTable(order[..n], t, urlencode)[order[n] := EncodedText(urlencode(t[order[n]].value))]
  }

  lemma SplitPairOfPair(k: string, e: string)
    requires '=' !in k
    ensures SplitPair(k + ['='] + e) == (k, e)
  {
    var p := k + ['='] + e;
    FirstIndexAfter(k, '=', e);
    assert p[..|k|] == k && p[|k| + 1..] == e;
  }

  lemma {:induction false} PairsToMapOfPairs(order: seq<string>, t: Table, urlencode: string -> Option<string>)
    requires AllPresent(order, t)
    requires forall i :: 0 <= i < |order| ==> '=' !in order[i]
    ensures PairsToMap(Pairs(order, t, urlencode)) == EncodedTable(order, t, urlencode)
  {
    var ps := Pairs(order, t, urlencode);
    if |order| > 0 {
      var n := |order| - 1;
      var k := order[n];
      var e := EncodedText(urlencode(t[k].value));
      assert ps[..n] == Pairs(order[..n], t, urlencode);
      PairsToMapOfPairs(order[..n], t, urlencode);
      SplitPairOfPair(k, e);
      assert ps[n] == k + ['='] + e;
    }
  }

  lemma {:induction false} EncodedTableContents(order: seq<string>, t: Table, urlencode: string -> Option<string>)
    requires AllPresent(order, t)
    ensures forall j :: j in EncodedTable(order, t, urlencode) <==> j in order
    ensures forall j :: j in EncodedTable(order, t, urlencode) ==>
      j in t && t[j].Some? && EncodedTable(order, t, urlencode)[j] == EncodedText(urlencode(t[j].value))
  {
    if |order| > 0 {
      var n := |order| - 1;
      EncodedTableContents(order[..n], t, urlencode);
      assert order == order[..n] + [order[n]];
      assert forall j :: j in order <==> j in order[..n] || j == order[n];
    }
  }

  /** toQueryString's output reads back as the table it came from, with
      every value encoded: one pair per entry, none lost, none doubled. This
      needs keys without '&' or '=' and an encoder whose output has no '&',
      which URL encoding guarantees. */
  lemma QueryStringRoundTrip(order: seq<string>, t: Table, urlencode: string -> Option<string>)
    requires IsEnumeration(order, t.Keys) && AllPresent(order, t)
    requires forall k :: k in t ==> '&' !in k && '=' !in k
    requires forall v :: '&' !in EncodedText(urlencode(v))
    ensures ParseQuery(Join(Pairs(order, t, urlencode), '&')) == EncodedValues(t, urlencode)
  {
    if |order| == 0 {
      EmptyOrderReadsEmpty(order, t, urlencode);
    } else {
      var ps := Pairs(order, t, urlencode);
      PairsHaveNoSeparator(order, t, urlencode);
      SplitJoin(ps, '&');
      JoinNonEmpty(ps, '&');
      PairsToMapOfPairs(order, t, urlencode);
      EncodedTableIsTable(order, t, urlencode);
    }
  }

  lemma EmptyOrderReadsEmpty(order: seq<string>, t: Table, urlencode: string -> Option<string>)
    requires IsEnumeration(order, t.Keys) && AllPresent(order, t) && |order| == 0
    ensures ParseQuery(Join(Pairs(order, t, urlencode), '&')) == EncodedValues(t, urlencode)
  {
    assert Pairs(order, t, urlencode) == [];
    assert t.Keys == {};
    assert EncodedValues(t, urlencode) == map[];
  }

  lemma PairsHaveNoSeparator(order: seq<string>, t: Table, urlencode: string -> Option<string>)
    requires AllPresent(order, t)
    requires forall i :: 0 <= i < |order| ==> '&' !in order[i]
    requires forall v :: '&' !in EncodedText(urlencode(v))
    ensures forall i :: 0 <= i < |order| ==> '&' !in Pairs(order, t, urlencode)[i]
  {
    forall i | 0 <= i < |order| ensures '&' !in Pairs(order, t, urlencode)[i] {
      var e := EncodedText(urlencode(t[order[i]].value));
      assert Pairs(order, t, urlencode)[i] == order[i] + ['='] + e;
    }
  }

  lemma EncodedTableIsTable(order: seq<string>, t: Table, urlencode: string -> Option<string>)
    requires IsEnumeration(order, t.Keys) && AllPresent(order, t)
    ensures EncodedTable(order, t, urlencode) == EncodedValues(t, urlencode)
  {
    EncodedTableContents(order, t, urlencode);
    var m := EncodedTable(order, t, urlencode);
    var want := EncodedValues(t, urlencode);
    assert m.Keys == want.Keys;
    assert forall k :: k in m ==> m[k] == want[k];
  }

  lemma JoinNonEmpty(ps: seq<string>, sep: char)
    requires 1 <= |ps| && |ps[0]| > 0
    ensures |Join(ps, sep)| > 0
  {
  }

  /** The empty table renders as the empty string. */
  lemma EmptyTableRendersEmpty(order: seq<string>, urlencode: string -> Option<string>)
    requires IsEnumeration(order, {})
    ensures AllPresent(order, map[]) && Join(Pairs(order, map[], urlencode), '&') == ""
  {
    assert forall i :: 0 <= i < |order| ==> order[i] in order;
  }

  /** The JSON body reads back, through getString and isNull, as the table. */
  lemma JsonOfReadsBack(t: Table, k: string)
    requires k in t
    ensures t[k].Some? ==> GetString(JsonOf(t), k) == Ok(t[k].value)
    ensures t[k].None? <==> IsNull(JsonOf(t), k)
  {
  }

  /** The int overload is exact: the stored text reads back as the number. */
  lemma AddIntStoresDecimal(t: Table, name: string, value: int32)
    ensures ParseDecimal(t[name := Some(Decimal(value as int))][name].value) == Some(value as int)
  {
    DecimalRoundTrip(value as int);
  }
}
