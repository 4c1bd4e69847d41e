/** The records the client exchanges with the server: children, timers and
    timeline entries (plain, diaper change and feeding), their JSON decoders
    and encoders, and the small derived values the app shows. */
module Entities {
  import opened Wrappers
  import opened Errors
  import opened Text
  import opened Json
  import opened WireDate
  import opened Tags
  import opened Client

  // ---------------------------------------------------------------- Child

  /** A child; the text fields are nullable. */
  datatype Child = Child(
    id: int32,
    slug: Option<string>,
    firstName: Option<string>,
    lastName: Option<string>,
    birthDate: Option<string>)

  /** `Child.equals`: field by field, with null equal only to null. */
  function ChildEquals(a: Child, b: Child): (r: bool)
    ensures r <==> a == b
  {
    a.id == b.id && a.slug == b.slug && a.firstName == b.firstName
    && a.lastName == b.lastName && a.birthDate == b.birthDate
  }

  /** `Child.fromJSON`: every field is required; getString renders a
      scalar of any kind as text. */
  function ChildFromJson(o: Object): (r: Result<Child, Error>)
    ensures r.Ok? <==> (GetInt(o, "id").Ok? && GetString(o, "slug").Ok? && GetString(o, "first_name").Ok?
      && GetString(o, "last_name").Ok? && GetString(o, "birth_date").Ok?)
    ensures r.Ok? ==> (r.value == Child(GetInt(o, "id").value, Some(GetString(o, "slug").value),
      Some(GetString(o, "first_name").value), Some(GetString(o, "last_name").value),
      Some(GetString(o, "birth_date").value)))
  {
    var id :- GetInt(o, "id");
    var slug :- GetString(o, "slug");
    var firstName :- GetString(o, "first_name");
    var lastName :- GetString(o, "last_name");
    var birthDate :- GetString(o, "birth_date");
    Ok(Child(id, Some(slug), Some(firstName), Some(lastName), Some(birthDate)))
  }

  /** `Child.toJSON`: a null field is left out of the object. */
  function ChildToJson(c: Child): (o: Object)
    ensures o.Keys <= {"id", "slug", "first_name", "last_name", "birth_date"}
    ensures "id" in o && o["id"] == JNum(c.id as int)
    ensures "slug" in o <==> c.slug.Some?
    ensures "first_name" in o <==> c.firstName.Some?
    ensures "last_name" in o <==> c.lastName.Some?
    ensures "birth_date" in o <==> c.birthDate.Some?
    ensures c.slug.Some? ==> o["slug"] == JStr(c.slug.value)
    ensures c.firstName.Some? ==> o["first_name"] == JStr(c.firstName.value)
    ensures c.lastName.Some? ==> o["last_name"] == JStr(c.lastName.value)
    ensures c.birthDate.Some? ==> o["birth_date"] == JStr(c.birthDate.value)
  {
    var o := Put(map[], "id", Some(JNum(c.id as int)));
    var o := Put(o, "slug", OptStr(c.slug));
    var o := Put(o, "first_name", OptStr(c.firstName));
    var o := Put(o, "last_name", OptStr(c.lastName));
    Put(o, "birth_date", OptStr(c.birthDate))
  }

  /** A child reads back from its JSON exactly when none of its text fields
      is null. */
  lemma ChildRoundTrip(c: Child)
    ensures (ChildFromJson(ChildToJson(c)) == Ok(c))
        <==> (c.slug.Some? && c.firstName.Some? && c.lastName.Some? && c.birthDate.Some?)
  {
    var o := ChildToJson(c);
    if c.slug.Some? && c.firstName.Some? && c.lastName.Some? && c.birthDate.Some? {
      assert o["slug"] == JStr(c.slug.value);
      assert o["first_name"] == JStr(c.firstName.value);
      assert o["last_name"] == JStr(c.lastName.value);
      assert o["birth_date"] == JStr(c.birthDate.value);
    }
  }

  // ---------------------------------------------------------------- Timer

  datatype Timer = Timer(
    id: int32,
    childId: Option<int32>,
    name: Option<string>,
    start: Option<Instant>,
    end: Option<Instant>,
    active: bool,
    userId: int32)

  /** `Timer.equals`: field by field; dates compare by instant. */
  function TimerEquals(a: Timer, b: Timer): (r: bool)
    ensures r <==> a == b
  {
    a.id == b.id && a.active == b.active && a.userId == b.userId && a.childId == b.childId
    && a.name == b.name && a.start == b.start && a.end == b.end
  }

  /** `Timer.clone()`: a copy of every field. */
  function CloneTimer(t: Timer): (r: Timer)
    ensures TimerEquals(r, t)
  {
    Timer(t.id, t.childId, t.name, t.start, t.end, t.active, t.userId)
  }

  /** `Timer.readableName()`: the name, or a numbered default. */
  function ReadableName(t: Timer): (r: string)
    ensures t.name.Some? ==> r == t.name.value
    ensures t.name.None? ==> r == "Quick timer #" + Decimal(t.id as int)
  {
    match t.name
    case Some(n) => n
    case None => "Quick timer #" + Decimal(t.id as int)
  }

  /** Unnamed timers with different ids get different default names. */
  lemma DefaultNamesDistinct(a: Timer, b: Timer)
    requires a.name.None? && b.name.None? && a.id != b.id
    ensures ReadableName(a) != ReadableName(b)
  {
    var p := "Quick timer #";
    if ReadableName(a) == ReadableName(b) {
      assert ReadableName(a)[|p|..] == Decimal(a.id as int);
      assert ReadableName(b)[|p|..] == Decimal(b.id as int);
      DecimalRoundTrip(a.id as int);
      DecimalRoundTrip(b.id as int);
    }
  }

  /** `Timer.computeCurrentServerEndTime(client)`: the end of a stopped
      timer; for a running one, the current server time as the client
      estimates it. */
  function ComputeCurrentServerEndTime(t: Timer, client: BabyBuddyClient, deviceNow: Instant): (r: Instant)
    reads client
    ensures t.end.Some? ==> r == t.end.value
    ensures t.end.None? ==> r == client.ServerNow(deviceNow)
  {
    match t.end
    case Some(e) => e
    case None => deviceNow + client.ServerDateOffsetMillis()
  }

  /** A running timer's end time moves forward with the device clock, by
      the same amount. */
  lemma RunningTimerEndAdvances(t: Timer, client: BabyBuddyClient, deviceNow: Instant, elapsed: nat)
    requires t.end.None?
    ensures ComputeCurrentServerEndTime(t, client, deviceNow + elapsed)
      == ComputeCurrentServerEndTime(t, client, deviceNow) + elapsed
  {
  }

  /** `Timer.fromJSON`: child and name may be null or missing; start and
      end go through the wire-date rewrite. */
  function TimerFromJson(o: Object, parse: string -> Option<Instant>): (r: Result<Timer, Error>)
    ensures r.Ok? ==> (GetInt(o, "id") == Ok(r.value.id) && GetBool(o, "active") == Ok(r.value.active)
      && GetInt(o, "user") == Ok(r.value.userId))
    ensures r.Ok? ==> (r.value.childId.None? <==> IsNull(o, "child"))
    ensures r.Ok? && r.value.childId.Some? ==> GetInt(o, "child") == Ok(r.value.childId.value)
    ensures r.Ok? ==> (r.value.name.None? <==> IsNull(o, "name"))
    ensures r.Ok? && r.value.name.Some? ==> GetString(o, "name") == Ok(r.value.name.value)
    ensures r.Ok? ==> (ParseNullOrDate(o, "start", parse) == Ok(r.value.start)
      && ParseNullOrDate(o, "end", parse) == Ok(r.value.end))
    ensures r.Err? ==> (GetInt(o, "id").Err? || GetBool(o, "active").Err? || GetInt(o, "user").Err?
      || ParseNullOrDate(o, "start", parse).Err? || ParseNullOrDate(o, "end", parse).Err?
      || (!IsNull(o, "child") && GetInt(o, "child").Err?)
      || (!IsNull(o, "name") && GetString(o, "name").Err?))
  {
    var id :- GetInt(o, "id");
    var childId :- if IsNull(o, "child") then Ok(None) else
      var c :- GetInt(o, "child"); Ok(Some(c));
    var name :- if IsNull(o, "name") then Ok(None) else
      var n :- GetString(o, "name"); Ok(Some(n));
    var start :- ParseNullOrDate(o, "start", parse);
    var end :- ParseNullOrDate(o, "end", parse);
    var active :- GetBool(o, "active");
    var userId :- GetInt(o, "user");
    Ok(Timer(id, childId, name, start, end, active, userId))
  }

  /** `Timer.toJSON`: null fields are left out; dates are formatted. */
  function TimerToJson(t: Timer, format: Instant -> string): (o: Object)
    ensures o.Keys <= {"id", "child", "name", "start", "end", "active", "user"}
    ensures ("child" in o <==> t.childId.Some?) && ("name" in o <==> t.name.Some?)
    ensures ("start" in o <==> t.start.Some?) && ("end" in o <==> t.end.Some?)
    ensures "id" in o && o["id"] == JNum(t.id as int)
    ensures "active" in o && o["active"] == JBool(t.active)
    ensures "user" in o && o["user"] == JNum(t.userId as int)
    ensures t.childId.Some? ==> o["child"] == JNum(t.childId.value as int)
    ensures t.name.Some? ==> o["name"] == JStr(t.name.value)
    ensures t.start.Some? ==> o["start"] == JStr(format(t.start.value))
    ensures t.end.Some? ==> o["end"] == JStr(format(t.end.value))
  {
    var o := Put(map[], "id", Some(JNum(t.id as int)));
    var o := TimerNullableFields(t, format, o);
    var o := Put(o, "active", Some(JBool(t.active)));
    Put(o, "user", Some(JNum(t.userId as int)))
  }

  /** The nullable fields of `Timer.toJSON`, put in order into `o`. */
  function TimerNullableFields(t: Timer, format: Instant -> string, o: Object): (r: Object)
    ensures r.Keys <= o.Keys + {"child", "name", "start", "end"}
    ensures "id" in o ==> "id" in r && r["id"] == o["id"]
    ensures ("child" in r <==> t.childId.Some?) && ("name" in r <==> t.name.Some?)
    ensures ("start" in r <==> t.start.Some?) && ("end" in r <==> t.end.Some?)
    ensures t.childId.Some? ==> r["child"] == JNum(t.childId.value as int)
    ensures t.name.Some? ==> r["name"] == JStr(t.name.value)
    ensures t.start.Some? ==> r["start"] == JStr(format(t.start.value))
    ensures t.end.Some? ==> r["end"] == JStr(format(t.end.value))
  {
    var o := Put(o, "child", OptNum(t.childId));
    var o := Put(o, "name", OptStr(t.name));
    var o := Put(o, "start", OptStr(DateToString(t.start, format)));
    Put(o, "end", OptStr(DateToString(t.end, format)))
  }

  /** A date field written by toJSON reads back as the same date exactly
      when the date survives formatting and parsing. */
  lemma DateFieldReadsBack(o: Object, field: string, d: Option<Instant>, format: Instant -> string, parse: string -> Option<Instant>)
    requires d.None? ==> field !in o
    requires d.Some? ==> field in o && o[field] == JStr(format(d.value))
    ensures (ParseNullOrDate(o, field, parse) == Ok(d)) <==> (d.Some? ==> RoundTrips(format, parse, d.value))
  {
  }

  /** The fields of a timer's JSON other than its dates read back as the
      timer's own. */
  lemma TimerScalarsReadBack(t: Timer, format: Instant -> string)
    ensures var o := TimerToJson(t, format);
      && GetInt(o, "id") == Ok(t.id) && GetBool(o, "active") == Ok(t.active) && GetInt(o, "user") == Ok(t.userId)
      && (IsNull(o, "child") <==> t.childId.None?)
      && (t.childId.Some? ==> GetInt(o, "child") == Ok(t.childId.value))
      && (IsNull(o, "name") <==> t.name.None?)
      && (t.name.Some? ==> GetString(o, "name") == Ok(t.name.value))
  {
    var o := TimerToJson(t, format);
    assert o["id"] == JNum(t.id as int) && o["user"] == JNum(t.userId as int);
    assert o["active"] == JBool(t.active);
  }

  /** A timer reads back from its JSON exactly when each of its dates
      survives formatting and parsing. */
  lemma TimerRoundTrip(t: Timer, format: Instant -> string, parse: string -> Option<Instant>)
    ensures (TimerFromJson(TimerToJson(t, format), parse) == Ok(t))
        <==> ((t.start.Some? ==> RoundTrips(format, parse, t.start.value))
          && (t.end.Some? ==> RoundTrips(format, parse, t.end.value)))
  {
    var o := TimerToJson(t, format);
    TimerScalarsReadBack(t, format);
    DateFieldReadsBack(o, "start", t.start, format, parse);
    DateFieldReadsBack(o, "end", t.end, format, parse);
  }

  // ----------------------------------------------------------- TimeEntry

  /** What a timeline entry carries beyond the common fields: nothing for a
      plain TimeEntry, the two flags of a ChangeEntry, and the two enum
      values of a FeedingEntry (as positions in the enums' value lists,
      None for null). */
  datatype Kind =
    | Plain
    | ChangeKind(wet: bool, solid: bool)
    | FeedingKind(feedingMethod: Option<nat>, feedingType: Option<nat>)

  datatype TimeEntry = TimeEntry(
    tag: string,
    typeId: int32,
    start: Option<Instant>,
    end: Option<Instant>,
    notes: string,
    kind: Kind)

  /** `TimeEntry.equals` and its overrides: the runtime classes must agree
      (a ChangeEntry never equals a plain TimeEntry), then every field. */
  function TimeEntryEquals(a: TimeEntry, b: TimeEntry): (r: bool)
    ensures r <==> a == b
  {
    a.typeId == b.typeId && a.tag == b.tag && a.start == b.start && a.end == b.end
    && a.notes == b.notes
    && match (a.kind, b.kind)
      case (Plain, Plain) => true
      case (ChangeKind(w1, s1), ChangeKind(w2, s2)) => w1 == w2 && s1 == s2
      case (FeedingKind(m1, t1), FeedingKind(m2, t2)) => m1 == m2 && t1 == t2
      case _ => false
  }

  /** The notes rule of `TimeEntry.fromJsonObject`: `notes` overrides
      `milestone`, and neither gives "". A present key must read as text. */
  function NotesOf(json: Object): (r: Result<string, Error>)
    ensures Has(json, "notes") ==> r == (if Has(json, "milestone") && GetString(json, "milestone").Err?
      then GetString(json, "milestone") else GetString(json, "notes"))
    ensures !Has(json, "notes") && Has(json, "milestone") ==> r == GetString(json, "milestone")
    ensures !Has(json, "notes") && !Has(json, "milestone") ==> r == Ok("")
  {
    var milestone :- if Has(json, "milestone") then
      var m :- GetString(json, "milestone"); Ok(Some(m)) else Ok(None);
    var notes :- if Has(json, "notes") then
      var n :- GetString(json, "notes"); Ok(Some(n)) else Ok(milestone);
    Ok(notes.GetOr(""))
  }

  /** When both keys read, the result is `notes`, whatever `milestone` says. */
  lemma NotesOverrideMilestone(json: Object)
    requires GetString(json, "notes").Ok? && GetString(json, "milestone").Ok?
    ensures NotesOf(json) == GetString(json, "notes")
  {
  }

  /** `TimeEntry.fromJsonObject(json, type)`: always a plain entry. */
  function FromJsonObject(json: Object, tag: string, parse: string -> Option<Instant>): (r: Result<TimeEntry, Error>)
    ensures r.Ok? ==> r.value.kind == Plain && r.value.tag == tag
    ensures r.Ok? ==> NotesOf(json) == Ok(r.value.notes) && GetInt(json, "id") == Ok(r.value.typeId)
    ensures r.Ok? ==> (ParseNullOrDate(json, "start", parse) == Ok(r.value.start)
      && ParseNullOrDate(json, "end", parse) == Ok(r.value.end))
    ensures r.Err? <==> (NotesOf(json).Err? || GetInt(json, "id").Err?
      || ParseNullOrDate(json, "start", parse).Err? || ParseNullOrDate(json, "end", parse).Err?)
  {
    var notes :- NotesOf(json);
    var id :- GetInt(json, "id");
    var start :- ParseNullOrDate(json, "start", parse);
    var end :- ParseNullOrDate(json, "end", parse);
    Ok(TimeEntry(tag, id, start, end, notes, Plain))
  }

  /** The reply to updateTimelineEntry is read back as a plain entry of the
      same tag, so an updated change or feeding loses its own fields and is
      not equal to any ChangeEntry or FeedingEntry. */
  lemma UpdatedEntryIsPlain(entry: TimeEntry, reply: Object, parse: string -> Option<Instant>)
    requires !entry.kind.Plain?
    requires FromJsonObject(reply, entry.tag, parse).Ok?
    ensures !TimeEntryEquals(FromJsonObject(reply, entry.tag, parse).value, entry)
  {
  }

  /** The sleep decoder: notes by optString. */
  function DecodeSleep(o: Object, parse: string -> Option<Instant>): (r: Result<TimeEntry, Error>)
    ensures r.Ok? ==> r.value.tag == Sleep && r.value.kind == Plain && r.value.notes == OptString(o, "notes")
    ensures r.Ok? ==> GetInt(o, "id") == Ok(r.value.typeId)
    ensures r.Ok? ==> (ParseNullOrDate(o, "start", parse) == Ok(r.value.start)
      && ParseNullOrDate(o, "end", parse) == Ok(r.value.end))
    ensures r.Ok? <==> (GetInt(o, "id").Ok? && ParseNullOrDate(o, "start", parse).Ok?
      && ParseNullOrDate(o, "end", parse).Ok?)
  {
    var notes := OptString(o, "notes");
    var id :- GetInt(o, "id");
    var start :- ParseNullOrDate(o, "start", parse);
    var end :- ParseNullOrDate(o, "end", parse);
    Ok(TimeEntry(Sleep, id, start, end, notes, Plain))
  }

  /** The tummy-time decoder: the milestone becomes the notes. */
  function DecodeTummyTime(o: Object, parse: string -> Option<Instant>): (r: Result<TimeEntry, Error>)
    ensures r.Ok? ==> r.value.tag == TummyTime && r.value.kind == Plain && r.value.notes == OptString(o, "milestone")
    ensures r.Ok? ==> GetInt(o, "id") == Ok(r.value.typeId)
    ensures r.Ok? ==> (ParseNullOrDate(o, "start", parse) == Ok(r.value.start)
      && ParseNullOrDate(o, "end", parse) == Ok(r.value.end))
    ensures r.Ok? <==> (GetInt(o, "id").Ok? && ParseNullOrDate(o, "start", parse).Ok?
      && ParseNullOrDate(o, "end", parse).Ok?)
  {
    var notes := OptString(o, "milestone");
    var id :- GetInt(o, "id");
    var start :- ParseNullOrDate(o, "start", parse);
    var end :- ParseNullOrDate(o, "end", parse);
    Ok(TimeEntry(TummyTime, id, start, end, notes, Plain))
  }

  /** The diaper-change decoder: a change is an instant, so `time` gives
      both the start and the end. */
  function DecodeChange(o: Object, parse: string -> Option<Instant>): (r: Result<TimeEntry, Error>)
    ensures r.Ok? ==> r.value.tag == Change && r.value.start == r.value.end
    ensures r.Ok? ==> GetInt(o, "id") == Ok(r.value.typeId) && r.value.notes == OptString(o, "notes")
    ensures r.Ok? ==> ParseNullOrDate(o, "time", parse) == Ok(r.value.start)
    ensures r.Ok? ==> (r.value.kind.ChangeKind? && GetBool(o, "wet") == Ok(r.value.kind.wet)
      && GetBool(o, "solid") == Ok(r.value.kind.solid))
    ensures r.Ok? <==> (GetInt(o, "id").Ok? && ParseNullOrDate(o, "time", parse).Ok?
      && GetBool(o, "wet").Ok? && GetBool(o, "solid").Ok?)
  {
    var notes := OptString(o, "notes");
    var id :- GetInt(o, "id");
    // `time` is parsed twice, with the same result both times.
    var time :- ParseNullOrDate(o, "time", parse);
    var wet :- GetBool(o, "wet");
    var solid :- GetBool(o, "solid");
    Ok(TimeEntry(Change, id, time, time, notes, ChangeKind(wet, solid)))
  }

  /** The position of the last of `postNames` equal to `v`: the enum value
      the feeding decoder's loop keeps. */
  function LastMatch(postNames: seq<string>, v: string): (r: Option<nat>)
    ensures r.None? <==> v !in postNames
    ensures r.Some? ==> (r.value < |postNames| && postNames[r.value] == v
      && forall j :: r.value < j < |postNames| ==> postNames[j] != v)
  {
    if |postNames| == 0 then None
    else if postNames[|postNames| - 1] == v then Some(|postNames| - 1)
    else
      var r := LastMatch(postNames[..|postNames| - 1], v);
      assert postNames == postNames[..|postNames| - 1] + [postNames[|postNames| - 1]];
      r
  }

  /** The scan over an enum's values: every value is compared with the
      field, and a later match replaces an earlier one. */
  method FindLastMatch(postNames: seq<string>, v: string) returns (r: Option<nat>)
    ensures r == LastMatch(postNames, v)
  {
    r := None;
    for i := 0 to |postNames|
      invariant r == LastMatch(postNames[..i], v)
    {
      assert postNames[..i + 1][..i] == postNames[..i];
      if postNames[i] == v {
        r := Some(i);
      }
    }
    assert postNames[..|postNames|] == postNames;
  }

  /** The feeding decoder's enum lookup: the field is read as text (once per
      value, so not at all for an empty enum) and matched against the
      values' `post_name`s. */
  function LookupPostName(o: Object, key: string, postNames: seq<string>): (r: Result<Option<nat>, Error>)
    ensures |postNames| == 0 ==> r == Ok(None)
    ensures |postNames| > 0 ==> r.Ok? == GetString(o, key).Ok?
    ensures |postNames| > 0 && r.Ok? ==> r.value == LastMatch(postNames, GetString(o, key).value)
    ensures r.Ok? && r.value.Some? ==> r.value.value < |postNames| && GetString(o, key) == Ok(postNames[r.value.value])
  {
    if |postNames| == 0 then Ok(None)
    else
      var v :- GetString(o, key);
      Ok(LastMatch(postNames, v))
  }

  /** The feeding decoder. `methods` and `types` are the `post_name`s of
      FeedingMethodEnum and FeedingTypeEnum, in declaration order. */
  function DecodeFeeding(o: Object, parse: string -> Option<Instant>, methods: seq<string>, types: seq<string>): (r: Result<TimeEntry, Error>)
    ensures r.Ok? ==> r.value.tag == Feeding && r.value.notes == OptString(o, "notes")
    ensures r.Ok? ==> GetInt(o, "id") == Ok(r.value.typeId)
    ensures r.Ok? ==> (ParseNullOrDate(o, "start", parse) == Ok(r.value.start)
      && ParseNullOrDate(o, "end", parse) == Ok(r.value.end))
    ensures r.Ok? <==> (LookupPostName(o, "method", methods).Ok? && LookupPostName(o, "type", types).Ok?
      && GetInt(o, "id").Ok? && ParseNullOrDate(o, "start", parse).Ok? && ParseNullOrDate(o, "end", parse).Ok?)
    ensures r.Ok? ==> r.value.kind == FeedingKind(LookupPostName(o, "method", methods).value, LookupPostName(o, "type", types).value)
  {
    var notes := OptString(o, "notes");
    var feedingMethod :- LookupPostName(o, "method", methods);
    var feedingType :- LookupPostName(o, "type", types);
    var id :- GetInt(o, "id");
    var start :- ParseNullOrDate(o, "start", parse);
    var end :- ParseNullOrDate(o, "end", parse);
    Ok(TimeEntry(Feeding, id, start, end, notes, FeedingKind(feedingMethod, feedingType)))
  }

  /** A method or type text that names no enum value decodes to null rather
      than failing. */
  lemma UnknownFeedingValuesAreNull(o: Object, parse: string -> Option<Instant>, methods: seq<string>, types: seq<string>)
    requires GetString(o, "method").Ok? && GetString(o, "method").value !in methods
    requires GetString(o, "type").Ok? && GetString(o, "type").value !in types
    requires DecodeFeeding(o, parse, methods, types).Ok?
    ensures DecodeFeeding(o, parse, methods, types).value.kind == FeedingKind(None, None)
  {
  }
}
