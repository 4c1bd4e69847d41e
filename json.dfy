/** The JSON values the client reads and writes, and the accessors of the
    org.json library that ships with Android (JSONObject.getString, getInt,
    getBoolean, optString, isNull, has, put, getJSONArray and
    JSONArray.getJSONObject), with the library's coercions of strings to
    numbers and booleans, over an abstract JSON tree. Numbers in the tree
    are whole numbers. Parsing JSON text and printing it back are not part
    of this model. */
module Json {
  import opened Wrappers
  import opened Errors
  import opened Text

  datatype Json =
    | JNull
    | JBool(b: bool)
    | JNum(n: int)
    | JStr(s: string)
    | JArr(items: seq<Json>)
    | JObj(fields: map<string, Json>)

  /** A JSONObject: its name/value pairs. */
  type Object = map<string, Json>

  /** `has(k)`: the key is present, even when its value is JSON null. */
  predicate Has(o: Object, k: string) {
    k in o
  }

  /** `isNull(k)`: the key is missing or holds JSON null. */
  predicate IsNull(o: Object, k: string) {
    k !in o || o[k] == JNull
  }

  /** How org.json turns a scalar into text (String.valueOf); None for an
      array or an object, whose printed form is not modelled. A number is
      written in decimal digits, which is how Java prints an Integer or a
      Long; a number beyond 64 bits, a Double in org.json, would print in
      Java's floating-point notation instead, which is not modelled. */
  function ScalarText(v: Json): (r: Option<string>)
    ensures r.Some? <==> !v.JArr? && !v.JObj?
    ensures v.JStr? ==> r == Some(v.s)
    ensures v == JNull ==> r == Some("null")
    ensures v.JBool? ==> r == Some(if v.b then "true" else "false")
    ensures v.JNum? ==> r == Some(Decimal(v.n))
  {
    match v
    case JNull => Some("null")
    case JBool(b) => Some(if b then "true" else "false")
    case JNum(n) => Some(Decimal(n))
    case JStr(s) => Some(s)
    case _ => None
  }

  /** `getString(k)`: throws for a missing key; otherwise the value as text. */
  function GetString(o: Object, k: string): (r: Result<string, Error>)
    ensures r.Ok? <==> k in o && !o[k].JArr? && !o[k].JObj?
    ensures k in o && o[k].JStr? ==> r == Ok(o[k].s)
    ensures k in o && ScalarText(o[k]).Some? ==> r == Ok(ScalarText(o[k]).value)
    ensures r.Err? ==> r.error == JsonError(k)
  {
    if k !in o then Err(JsonError(k))
    else match ScalarText(o[k])
      case Some(t) => Ok(t)
      case None => Err(JsonError(k))
  }

  /** `optString(k)`: like getString, but "" where getString would throw. */
  function OptString(o: Object, k: string): (r: string)
    ensures GetString(o, k).Ok? ==> r == GetString(o, k).value
    ensures k !in o ==> r == ""
  {
    match GetString(o, k)
    case Ok(t) => t
    case Err(_) => ""
  }

  /** `getInt(k)`, through org.json's number coercion. A number the parser
      holds as an Integer or a Long (within 64 bits) is narrowed by
      `intValue`, keeping the low 32 bits; a larger one is a Double, whose
      `intValue` saturates. A string is read by `(int) Double.parseDouble`,
      which for a decimal integer text is its value, saturated. */
  function GetInt(o: Object, k: string): (r: Result<int32, Error>)
    ensures r.Ok? <==> k in o && (o[k].JNum? || (o[k].JStr? && ParseDecimal(o[k].s).Some?))
    ensures r.Ok? && o[k].JNum? && -0x8000_0000 <= o[k].n < 0x8000_0000 ==> r.value as int == o[k].n
    ensures r.Ok? && o[k].JNum? && -0x8000_0000_0000_0000 <= o[k].n < 0x8000_0000_0000_0000 ==>
      (r.value as int - o[k].n) % 0x1_0000_0000 == 0
    ensures r.Ok? && o[k].JNum? && !(-0x8000_0000_0000_0000 <= o[k].n < 0x8000_0000_0000_0000) ==>
      r.value == SaturateInt32(o[k].n)
    ensures r.Ok? && o[k].JStr? ==> r.value == SaturateInt32(ParseDecimal(o[k].s).value)
    ensures r.Err? ==> r.error == JsonError(k)
  {
    if k !in o then Err(JsonError(k))
    else match o[k]
      case JNum(n) =>
        if -0x8000_0000_0000_0000 <= n < 0x8000_0000_0000_0000 then Ok(ToInt32(n)) else Ok(SaturateInt32(n))
      case JStr(s) =>
        (match ParseDecimal(s)
         case Some(n) => Ok(SaturateInt32(n))
         case None => Err(JsonError(k)))
      case _ => Err(JsonError(k))
  }

  /** A decimal integer text is read by getInt as the number it writes. */
  lemma DecimalTextReadsAsInt(o: Object, k: string, n: int32)
    requires k in o && o[k] == JStr(Decimal(n as int))
    ensures GetInt(o, k) == Ok(n)
  {
    DecimalRoundTrip(n as int);
  }

  /** Whether `c` equals the lower-case letter `w` under Java's
      `equalsIgnoreCase`: the letter itself, its ASCII upper case, or, for
      's', U+017F (long s), whose upper case is 'S'. */
  predicate SameLetterIgnoringCase(c: char, w: char) {
    c == w || ('a' <= w <= 'z' && c as int == w as int - 32) || (w == 's' && c as int == 0x17F)
  }

  /** `s.equalsIgnoreCase(word)` for a lower-case word. */
  predicate EqualsIgnoringCase(s: string, word: string) {
    |s| == |word| && forall i :: 0 <= i < |s| ==> SameLetterIgnoringCase(s[i], word[i])
  }

  /** A text `getBoolean` accepts. */
  predicate BooleanWord(s: string) {
    EqualsIgnoringCase(s, "true") || EqualsIgnoringCase(s, "false")
  }

  /** `getBoolean(k)`, through org.json's boolean coercion: a boolean, or a
      string equal to "true" or "false" ignoring case. */
  function GetBool(o: Object, k: string): (r: Result<bool, Error>)
    ensures r.Ok? <==> k in o && (o[k].JBool? || (o[k].JStr? && BooleanWord(o[k].s)))
    ensures r.Ok? && o[k].JBool? ==> r.value == o[k].b
    ensures r.Ok? && o[k].JStr? ==> (r.value <==> EqualsIgnoringCase(o[k].s, "true"))
    ensures r.Err? ==> r.error == JsonError(k)
  {
    if k !in o then Err(JsonError(k))
    else match o[k]
      case JBool(b) => Ok(b)
      case JStr(s) =>
        if EqualsIgnoringCase(s, "true") then Ok(true)
        else if EqualsIgnoringCase(s, "false") then Ok(false)
        else Err(JsonError(k))
      case _ => Err(JsonError(k))
  }

  /** The texts "TRUE" and "False" read as booleans; "yes" does not. */
  lemma BooleanWordsIgnoreCase(k: string)
    ensures GetBool(map[k := JStr("TRUE")], k) == Ok(true)
    ensures GetBool(map[k := JStr("False")], k) == Ok(false)
    ensures GetBool(map[k := JStr("yes")], k).Err?
  {
    assert EqualsIgnoringCase("TRUE", "true");
    assert !EqualsIgnoringCase("False", "true");
    assert EqualsIgnoringCase("False", "false");
  }

  /** `getJSONArray(k)`: throws unless the value is an array (JSON null included). */
  function GetArray(o: Object, k: string): (r: Result<seq<Json>, Error>)
    ensures r.Ok? <==> k in o && o[k].JArr?
    ensures r.Ok? ==> r.value == o[k].items
  {
    if k in o && o[k].JArr? then Ok(o[k].items) else Err(JsonError(k))
  }

  /** `JSONArray.getJSONObject(i)`: throws unless element `i` is an object. */
  function ObjectAt(items: seq<Json>, i: nat): (r: Result<Object, Error>)
    requires i < |items|
    ensures r.Ok? <==> items[i].JObj?
    ensures r.Ok? ==> r.value == items[i].fields
  {
    if items[i].JObj? then Ok(items[i].fields) else Err(JsonError(Decimal(i)))
  }

  /** `put(k, v)`: stores `v`; a Java null removes the key instead. */
  function Put(o: Object, k: string, v: Option<Json>): (r: Object)
    ensures v.Some? ==> k in r && r[k] == v.value
    ensures v.None? ==> k !in r
    ensures forall j :: j != k ==> (j in r <==> j in o)
    ensures forall j :: j != k && j in o ==> r[j] == o[j]
  {
    match v
    case Some(x) => o[k := x]
    case None => o - {k}
  }

  function OptStr(s: Option<string>): Option<Json> {
    match s
    case Some(t) => Some(JStr(t))
    case None => None
  }

  function OptNum(n: Option<int32>): Option<Json> {
    match n
    case Some(i) => Some(JNum(i as int))
    case None => None
  }
}
