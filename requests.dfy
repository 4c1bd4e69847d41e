/** The JSON bodies the client sends when it records something, and the
    update request for a timeline entry. A Java null passed to `put`
    removes the key, so a null argument leaves its field out of the body. */
module Requests {
  import opened Wrappers
  import opened Errors
  import opened Text
  import opened Json
  import opened WireDate
  import opened Query
  import opened Paths
  import opened Entities

  /** createSleepRecordFromTimer's body. */
  function SleepBody(timer: Timer, notes: Option<string>): (o: Object)
    ensures o.Keys == if notes.Some? then {"timer", "notes"} else {"timer"}
    ensures o["timer"] == JNum(timer.id as int)
    ensures notes.Some? ==> o["notes"] == JStr(notes.value)
    ensures GetInt(o, "timer") == Ok(timer.id)
    ensures notes.Some? ==> GetString(o, "notes") == Ok(notes.value)
  {
    Put(Put(map[], "timer", Some(JNum(timer.id as int))), "notes", OptStr(notes))
  }

  /** createTummyTimeRecordFromTimer's body. */
  function TummyTimeBody(timer: Timer, milestone: Option<string>): (o: Object)
    ensures o.Keys == if milestone.Some? then {"timer", "milestone"} else {"timer"}
    ensures o["timer"] == JNum(timer.id as int)
    ensures milestone.Some? ==> o["milestone"] == JStr(milestone.value)
    ensures GetInt(o, "timer") == Ok(timer.id)
    ensures milestone.Some? ==> GetString(o, "milestone") == Ok(milestone.value)
  {
    Put(Put(map[], "timer", Some(JNum(timer.id as int))), "milestone", OptStr(milestone))
  }

  /** createChangeRecord's body; `now` is the formatted server time. The
      `put("amount", null)` removes a key that is not there, so the body
      never carries an amount. */
  function ChangeBody(child: Child, now: string, wet: bool, solid: bool, notes: Option<string>): (o: Object)
    ensures o.Keys <= {"child", "time", "wet", "solid", "color", "notes"}
    ensures "child" in o && o["child"] == JNum(child.id as int)
    ensures "time" in o && o["time"] == JStr(now)
    ensures "wet" in o && o["wet"] == JBool(wet)
    ensures "solid" in o && o["solid"] == JBool(solid)
    ensures "color" in o && o["color"] == JStr("")
    ensures "notes" in o <==> notes.Some?
    ensures notes.Some? ==> o["notes"] == JStr(notes.value)
    ensures "amount" !in o
    ensures GetInt(o, "child") == Ok(child.id)
    ensures GetString(o, "time") == Ok(now)
    ensures GetBool(o, "wet") == Ok(wet) && GetBool(o, "solid") == Ok(solid)
    ensures GetString(o, "color") == Ok("")
    ensures notes.Some? ==> GetString(o, "notes") == Ok(notes.value)
  {
    Put(Put(ChangeFields(child, now, wet, solid), "amount", None), "notes", OptStr(notes))
  }

  /** The fields of createChangeRecord's body that are never null. */
  function ChangeFields(child: Child, now: string, wet: bool, solid: bool): (o: Object)
    ensures o.Keys == {"child", "time", "wet", "solid", "color"}
    ensures o["child"] == JNum(child.id as int) && o["time"] == JStr(now)
    ensures o["wet"] == JBool(wet) && o["solid"] == JBool(solid) && o["color"] == JStr("")
    ensures GetInt(o, "child") == Ok(child.id)
    ensures GetString(o, "time") == Ok(now)
    ensures GetBool(o, "wet") == Ok(wet) && GetBool(o, "solid") == Ok(solid)
    ensures GetString(o, "color") == Ok("")
  {
    map["child" := JNum(child.id as int), "time" := JStr(now), "wet" := JBool(wet),
      "solid" := JBool(solid), "color" := JStr("")]
  }

  /** createTimer's body; `now` is the formatted server time. */
  function TimerBody(child: Child, name: Option<string>, now: string): (o: Object)
    ensures o.Keys == if name.Some? then {"child", "name", "start"} else {"child", "start"}
    ensures o["child"] == JNum(child.id as int) && o["start"] == JStr(now)
    ensures name.Some? ==> o["name"] == JStr(name.value)
    ensures GetInt(o, "child") == Ok(child.id)
    ensures GetString(o, "start") == Ok(now)
    ensures name.Some? ==> GetString(o, "name") == Ok(name.value)
  {
    Put(Put(map["child" := JNum(child.id as int)], "name", OptStr(name)), "start", Some(JStr(now)))
  }

  /** updateTimelineEntry: the entry's path, the query values as the JSON
      body, and the reply read by `TimeEntry.fromJsonObject` under the
      entry's tag. */
  method UpdateTimelineEntry(entry: TimeEntry, values: QueryValues, reply: Object, parse: string -> Option<Instant>)
    returns (path: string, body: Object, r: Result<TimeEntry, Error>)
    ensures path == UpdatePath(entry.tag, entry.typeId)
    ensures body.Keys == values.values.Keys
    ensures forall k :: k in values.values ==> (values.values[k].None? <==> IsNull(body, k))
    ensures forall k :: k in values.values && values.values[k].Some? ==> body[k] == JStr(values.values[k].value)
    ensures r == FromJsonObject(reply, entry.tag, parse)
    ensures r.Ok? ==> r.value.tag == entry.tag && r.value.kind == Plain
  {
    path := "api/" + entry.tag + "/" + Decimal(entry.typeId as int) + "/";
    body := values.ToJsonObject();
    forall k | k in values.values ensures values.values[k].None? <==> IsNull(body, k) {
      JsonOfReadsBack(values.values, k);
    }
    r := FromJsonObject(reply, entry.tag, parse);
  }
}
