/** The wire-date rewrite that runs before a date field is parsed
    (parseNullOrDate), and the formatting helper dateToString.

    The rewrite is two regular-expression replacements, modelled exactly:
      1. every match of `\.[0-9]+([+-Z])` becomes its group, which deletes a
         fractional-seconds part; `[+-Z]` is the character RANGE '+'..'Z',
         and that range contains the ten digits;
      2. a `Z` matched by `Z$` becomes `+00:00`.
    The SimpleDateFormat parser and formatter themselves are parameters. */
module WireDate {
  import opened Wrappers
  import opened Errors
  import opened Text
  import opened Json

  /** An instant, in milliseconds since the epoch (java.util.Date.getTime). */
  type Instant = int

  /** Java's `[+-Z]`: every character from '+' (0x2B) to 'Z' (0x5A). */
  predicate InZoneClass(c: char) {
    '+' <= c <= 'Z'
  }

  /** Number of leading decimal digits of `s`. */
  function DigitRun(s: string): (n: nat)
    ensures n <= |s|
    ensures forall i :: 0 <= i < n ==> IsDigit(s[i])
    ensures n < |s| ==> !IsDigit(s[n])
  {
    if |s| > 0 && IsDigit(s[0]) then 1 + DigitRun(s[1..]) else 0
  }

  /** `t` as a whole is a match of `\.[0-9]+([+-Z])`. */
  predicate IsFractionMatch(t: string) {
    && 3 <= |t|
    && t[0] == '.'
    && (forall i :: 1 <= i < |t| - 1 ==> IsDigit(t[i]))
    && InZoneClass(t[|t| - 1])
  }

  /** The length of the match of `\.[0-9]+([+-Z])` that starts at `s[0]`, as
      the backtracking matcher finds it: the greedy digit run is given back
      one digit at a time until the next character is in the range. */
  function FractionMatch(s: string): (m: Option<nat>)
    ensures m.Some? ==> m.value <= |s| && IsFractionMatch(s[..m.value])
  {
    if |s| == 0 || s[0] != '.' then None
    else
      var k := DigitRun(s[1..]);
      if k == 0 then None
      else if 1 + k < |s| && InZoneClass(s[1 + k]) then Some(k + 2)
      else if k >= 2 then Some(k + 1)
      else None
  }

  /** The backtracking matcher finds the LONGEST prefix of `s` that is a match,
      and finds one whenever some prefix is a match. */
  lemma FractionMatchIsLongest(s: string, m': nat)
    requires m' <= |s| && IsFractionMatch(s[..m'])
    ensures FractionMatch(s).Some?
    ensures m' <= FractionMatch(s).value
  {
    forall i | 0 <= i < m' - 2 ensures IsDigit(s[1..][i]) {
      assert s[1..][i] == s[..m'][i + 1];
    }
    DigitRunAtLeast(s[1..], m' - 2);
  }

  lemma {:induction false} DigitRunAtLeast(t: string, j: nat)
    requires j <= |t| && forall i :: 0 <= i < j ==> IsDigit(t[i])
    ensures j <= DigitRun(t)
  {
    if j > 0 {
      DigitRunAtLeast(t[1..], j - 1);
    }
  }

  /** `replaceAll("\\.[0-9]+([+-Z])", "$1")`: scanning left to right, each
      match is replaced by its last character (the group), and scanning goes
      on after it. */
  function StripFractions(s: string): (r: string)
    ensures |r| <= |s|
    decreases |s|
  {
    if |s| == 0 then ""
    else match FractionMatch(s)
      case Some(m) => [s[m - 1]] + StripFractions(s[m..])
      case None => [s[0]] + StripFractions(s[1..])
  }

  /** `replaceAll("Z$", "+00:00")`: a `Z` at the end of the text, or just before
      a final line terminator, becomes `+00:00`. There is at most one such `Z`. */
  function ReplaceFinalZulu(s: string): (r: string) {
    var e := |s| - FinalTerminatorLength(s);
    if 1 <= e && s[e - 1] == 'Z' then s[..e - 1] + "+00:00" + s[e..] else s
  }

  /** ReplaceFinalZulu agrees with the regex reading: it rewrites exactly the
      `Z` characters after which `$` matches, and nothing else. */
  lemma ReplaceFinalZuluMatchesAnchor(s: string)
    ensures (exists p :: 0 <= p < |s| && s[p] == 'Z' && AtInputEnd(s, p + 1)) <==> ReplaceFinalZulu(s) != s
    ensures forall p :: 0 <= p < |s| && s[p] == 'Z' && AtInputEnd(s, p + 1) ==>
      ReplaceFinalZulu(s) == s[..p] + "+00:00" + s[p + 1..]
  {
    var e := |s| - FinalTerminatorLength(s);
    if 1 <= e && s[e - 1] == 'Z' {
      assert AtInputEnd(s, e);
      assert |ReplaceFinalZulu(s)| != |s|;
    }
  }

  /** The full rewrite applied to a date field before it is parsed. */
  function NormalizeWireDate(s: string): string {
    ReplaceFinalZulu(StripFractions(s))
  }

  /** Text without a '.' passes through the fraction rewrite unchanged, and
      the rewrite of what follows is independent of it. */
  lemma {:induction false} StripFractionsAfterPlainText(a: string, b: string)
    requires '.' !in a
    ensures StripFractions(a + b) == a + StripFractions(b)
  {
    if |a| == 0 {
      assert a + b == b;
    } else {
      var ab := a + b;
      assert ab[0] == a[0] && ab[1..] == a[1..] + b;
      StripFractionsPlainStep(ab);
      assert a[0] in a;
      assert forall c :: c in a[1..] ==> c in a;
      StripFractionsAfterPlainText(a[1..], b);
      assert a == [a[0]] + a[1..];
    }
  }

  /** A first character other than '.' starts no match and is kept. */
  lemma StripFractionsPlainStep(s: string)
    requires |s| > 0 && s[0] != '.'
    ensures StripFractions(s) == [s[0]] + StripFractions(s[1..])
  {
  }

  lemma StripFractionsNoDot(s: string)
    requires '.' !in s
    ensures StripFractions(s) == s
  {
    StripFractionsAfterPlainText(s, "");
    assert s + "" == s;
  }

  /** A fraction followed by a zone designator is deleted and the zone kept. */
  lemma {:induction false} StripFractionBeforeZone(a: string, digits: string, zone: string)
    requires '.' !in a && '.' !in zone
    requires 1 <= |digits| && AllDigits(digits)
    requires 1 <= |zone| && InZoneClass(zone[0]) && !IsDigit(zone[0])
    ensures StripFractions(a + "." + digits + zone) == a + zone
  {
    var rest := "." + digits + zone;
    assert a + "." + digits + zone == a + rest;
    StripFractionsAfterPlainText(a, rest);
    assert StripFractions(a + rest) == a + StripFractions(rest);
    FractionThenZone(digits, zone);
    assert StripFractions(rest) == zone;
  }

  lemma {:induction false} FractionThenZone(digits: string, zone: string)
    requires '.' !in zone
    requires 1 <= |digits| && AllDigits(digits)
    requires 1 <= |zone| && InZoneClass(zone[0]) && !IsDigit(zone[0])
    ensures StripFractions("." + digits + zone) == zone
  {
    var rest := "." + digits + zone;
    var m := |digits| + 2;
    assert rest[0] == '.';
    assert rest[1..] == digits + zone;
    DigitRunOfDigits(digits, zone);
    assert DigitRun(rest[1..]) == |digits|;
    assert rest[1 + |digits|] == zone[0];
    assert FractionMatch(rest) == Some(m);
    assert StripFractions(rest) == [rest[m - 1]] + StripFractions(rest[m..]);
    assert rest[m..] == zone[1..];
    StripFractionsNoDot(zone[1..]);
    assert [zone[0]] + zone[1..] == zone;
  }

  lemma {:induction false} DigitRunOfDigits(digits: string, tail: string)
    requires AllDigits(digits)
    requires |tail| == 0 || !IsDigit(tail[0])
    ensures DigitRun(digits + tail) == |digits|
  {
    if |digits| > 0 {
      assert (digits + tail)[1..] == digits[1..] + tail;
      DigitRunOfDigits(digits[1..], tail);
    }
  }

  /** Fractional seconds never change the instant: with and without a
      fraction, the parser is handed the same text. */
  lemma {:induction false} FractionIrrelevant(a: string, digits: string, zone: string)
    requires '.' !in a && '.' !in zone
    requires 1 <= |digits| && AllDigits(digits)
    requires 1 <= |zone| && InZoneClass(zone[0]) && !IsDigit(zone[0])
    ensures NormalizeWireDate(a + "." + digits + zone) == NormalizeWireDate(a + zone)
  {
    StripFractionBeforeZone(a, digits, zone);
    StripFractionsNoDot(a + zone);
  }

  /** A UTC designator becomes an explicit offset, with or without a fraction. */
  lemma {:induction false} ZuluBecomesOffset(a: string, digits: string)
    requires '.' !in a
    requires AllDigits(digits)
    ensures NormalizeWireDate(a + "." + digits + "Z") == a + "+00:00" || |digits| == 0
    ensures NormalizeWireDate(a + "Z") == a + "+00:00"
  {
    StripFractionsNoDot(a + "Z");
    assert StripFractions(a + "Z") == a + "Z";
    FinalZuluBecomesOffset(a);
    if |digits| > 0 {
      StripFractionBeforeZone(a, digits, "Z");
      assert StripFractions(a + "." + digits + "Z") == a + "Z";
    }
  }

  lemma FinalZuluBecomesOffset(a: string)
    ensures ReplaceFinalZulu(a + "Z") == a + "+00:00"
  {
    var s := a + "Z";
    assert FinalTerminatorLength(s) == 0;
    assert s[..|a|] == a && s[|a| + 1..] == "";
  }

  /** Because the range `[+-Z]` contains the digits, a fraction with no zone
      after it still matches: all of it but its last digit is deleted. */
  lemma {:induction false} FractionWithoutZoneKeepsLastDigit(a: string, digits: string)
    requires '.' !in a
    requires 2 <= |digits| && AllDigits(digits)
    ensures StripFractions(a + "." + digits) == a + [digits[|digits| - 1]]
  {
    var rest := "." + digits;
    var k := |digits|;
    assert a + "." + digits == a + rest;
    StripFractionsAfterPlainText(a, rest);
    assert rest[0] == '.';
    assert rest[1..] == digits + "";
    DigitRunOfDigits(digits, "");
    assert DigitRun(rest[1..]) == k && 1 + k == |rest|;
    assert FractionMatch(rest) == Some(k + 1);
    assert StripFractions(rest) == [rest[k]] + StripFractions(rest[k + 1..]);
    assert rest[k + 1..] == "" && rest[k] == digits[k - 1];
  }

  /** `parseNullOrDate(o, field)`: JSON null or a missing field gives null;
      otherwise the text is rewritten and handed to the date parser, whose
      failure is a ParseException. */
  function ParseNullOrDate(o: Object, field: string, parse: string -> Option<Instant>): (r: Result<Option<Instant>, Error>)
    ensures IsNull(o, field) ==> r == Ok(None)
    ensures !IsNull(o, field) && GetString(o, field).Err? ==> r == Err(GetString(o, field).error)
    ensures !IsNull(o, field) && GetString(o, field).Ok? ==>
      r == (match parse(NormalizeWireDate(GetString(o, field).value))
            case Some(d) => Ok(Some(d))
            case None => Err(DateParseError(NormalizeWireDate(GetString(o, field).value))))
    ensures r.Ok? && r.value.Some? ==> !IsNull(o, field) && GetString(o, field).Ok?
  {
    if IsNull(o, field) then Ok(None)
    else
      var text :- GetString(o, field);
      var normalized := NormalizeWireDate(text);
      match parse(normalized)
      case Some(d) => Ok(Some(d))
      case None => Err(DateParseError(normalized))
  }

  /** `dateToString`: null stays null, otherwise the formatter's text. */
  function DateToString(d: Option<Instant>, format: Instant -> string): (r: Option<string>)
    ensures r.Some? <==> d.Some?
    ensures d.Some? ==> r == Some(format(d.value))
  {
    match d
    case Some(i) => Some(format(i))
    case None => None
  }

  /** The date codec reads back what it writes for instant `d`: the
      formatter's text, after the wire rewrite, parses to `d`. This holds
      for instants without sub-second precision, since the format has none. */
  predicate RoundTrips(format: Instant -> string, parse: string -> Option<Instant>, d: Instant) {
    parse(NormalizeWireDate(format(d))) == Some(d)
  }
}
