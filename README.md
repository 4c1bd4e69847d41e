# BabyBuddyClient, modelled in Dafny

BabyBuddyClient is the networking class of the Baby Buddy Android app. It
talks to a Baby Buddy server's REST API. It builds request URLs from the
configured server URL and an API path. It renders query values as a query
string or a JSON body, and sends requests on a worker thread. From the
`Date` header of every reply it keeps an estimate of the server clock. It
checks the status code and decodes the JSON replies into children, timers
and timeline entries (sleep, tummy time, feeding, diaper change).

This project models that core as Dafny modules, one concept per file:

- `wrappers.dfy`: `Option`, `Result` and the client's error kinds.
- `text.dfy`: Java's `int` and its 32-bit narrowing, `Integer.toString`, joining and splitting on a separator, and where `java.util.regex`'s `$` matches.
- `json.dfy`: a JSON tree and the `org.json` accessors the client uses (`getString`, `optString`, `getInt`, `getBoolean`, `isNull`, `has`, `put`, `getJSONArray`, `getJSONObject`), with the coercions of Android's org.json (any scalar to text, except that a number beyond 64 bits is not printed the way Java prints a Double; decimal-integer text to int; "true"/"false" in any case to boolean).
- `tags.dfy`: the `ACTIVITIES` / `EVENTS` tag arrays and their `index` scan.
- `wire_date.dfy`: the two regular-expression rewrites `parseNullOrDate` applies before parsing, and `dateToString`.
- `query.dfy`: `QueryValues` as a class over a mutable table, with `toQueryString`, `toJsonObject`, and a reader proving the query string round-trips.
- `paths.dfy`: `pathToUrl`, the API and web paths of entries and timers, and listGeneric's path.
- `client.dfy`: the client object's `serverDateOffset`, `updateServerDateTime`, the status check, and the step of `dispatchQuery` after a reply arrives.
- `entities.dfy`: `Child`, `Timer`, `TimeEntry` with its change and feeding forms, their equality, JSON decoders and encoders, and the four timeline decoders.
- `listing.dfy`: reading `results`, the element-by-element decode loop, listTimers' sort by id, and the timeline page request.
- `requests.dfy`: the JSON bodies of the create requests, and updateTimelineEntry.

Several things are parameters rather than modelled:

- the device clock;
- the `Date` header parser (`SERVER_DATE_FORMAT`);
- the `SimpleDateFormat` parser and formatter of record dates;
- `URLEncoder`;
- the `post_name`s of the feeding enums.

Two readings of the source are modelled both as written and as evidently intended (see "## Findings").

Two behaviours of the code a reader may not expect:

- `updateTimelineEntry` decodes its reply with `TimeEntry.fromJsonObject`, so the result is always a plain entry (`Entities.UpdatedEntryIsPlain`).
- `listChildren` and `listTimers` read `results` with `getJSONArray` alone. Only listGeneric has a null check.

Source paths in the table are relative to the repository root.

## Model

| member | source | states |
|---|---|---|
| Tags.IndexIn | app/src/main/java/eu/pkgsoftware/babybuddywidgets/networking/BabyBuddyClient.java:56-63 | the scan returns the first index holding `s`, and -1 exactly when `s` is absent |
| Tags.ActivityIndex | app/src/main/java/eu/pkgsoftware/babybuddywidgets/networking/BabyBuddyClient.java:48-63 | `ACTIVITIES.index` is 0, 1 or 2 exactly for feedings, sleep, tummy-times, else -1 |
| Tags.EventIndex | app/src/main/java/eu/pkgsoftware/babybuddywidgets/networking/BabyBuddyClient.java:69-82 | `EVENTS.index` is 0 exactly for changes, else -1 |
| Tags.TagsDistinct | app/src/main/java/eu/pkgsoftware/babybuddywidgets/networking/BabyBuddyClient.java:44-54 | the tags are pairwise distinct, and changes is not an activity |
| Text.ToInt32 | app/src/main/java/eu/pkgsoftware/babybuddywidgets/networking/BabyBuddyClient.java:174 | the 32-bit narrowing is the identity in range and congruent modulo 2^32 everywhere |
| Text.Decimal | app/src/main/java/eu/pkgsoftware/babybuddywidgets/networking/BabyBuddyClient.java:124 | `"" + n` is non-empty, has a '-' first exactly for negative n, and is digits otherwise |
| Text.DecimalRoundTrip | app/src/main/java/eu/pkgsoftware/babybuddywidgets/networking/BabyBuddyClient.java:124 | the decimal text of every integer reads back as that integer |
| Text.DecimalHasNoChar | app/src/main/java/eu/pkgsoftware/babybuddywidgets/networking/BabyBuddyClient.java:124 | a decimal text holds no character other than '-' and digits |
| Text.SplitJoin | app/src/main/java/eu/pkgsoftware/babybuddywidgets/networking/BabyBuddyClient.java:131-142 | splitting on the separator undoes joining when no piece holds it |
| Text.FinalTerminatorLength | app/src/main/java/eu/pkgsoftware/babybuddywidgets/networking/BabyBuddyClient.java:94 | the final line terminator before which `$` matches is at most two characters and within the text |
| Json.ScalarText | app/src/main/java/eu/pkgsoftware/babybuddywidgets/networking/BabyBuddyClient.java:175-178 | exactly the scalars have a text form: a string's is itself, null's is "null", a boolean's "true" or "false", a number's its decimal digits |
| Json.GetString | app/src/main/java/eu/pkgsoftware/babybuddywidgets/networking/BabyBuddyClient.java:175-178 | `getString` succeeds exactly for a present scalar and returns its text form (a string unchanged, null as "null"); otherwise it fails naming the key |
| Json.OptString | app/src/main/java/eu/pkgsoftware/babybuddywidgets/networking/BabyBuddyClient.java:933 | `optString` agrees with getString where that succeeds, and gives "" for a missing key |
| Json.GetInt | app/src/main/java/eu/pkgsoftware/babybuddywidgets/networking/BabyBuddyClient.java:174 | `getInt` succeeds exactly for a number or a decimal integer text; a number within 64 bits keeps its low 32 bits (exact in int range), a larger one saturates, and a text gives its value saturated to the int range; otherwise it fails naming the key |
| Json.DecimalTextReadsAsInt | app/src/main/java/eu/pkgsoftware/babybuddywidgets/networking/BabyBuddyClient.java:174 | a number written as decimal text reads back through `getInt` as that number |
| Json.GetBool | app/src/main/java/eu/pkgsoftware/babybuddywidgets/networking/BabyBuddyClient.java:228 | `getBoolean` succeeds exactly for a boolean or for "true"/"false" in any letter case, and returns the boolean or whether the text is "true"; otherwise it fails naming the key |
| Json.BooleanWordsIgnoreCase | app/src/main/java/eu/pkgsoftware/babybuddywidgets/networking/BabyBuddyClient.java:228 | "TRUE" reads as true and "False" as false, while "yes" fails |
| Json.GetArray | app/src/main/java/eu/pkgsoftware/babybuddywidgets/networking/BabyBuddyClient.java:571 | `getJSONArray` succeeds exactly for an array value; a null value fails |
| Json.ObjectAt | app/src/main/java/eu/pkgsoftware/babybuddywidgets/networking/BabyBuddyClient.java:574 | `getJSONObject(i)` succeeds exactly for an object element and returns its fields |
| Json.Put | app/src/main/java/eu/pkgsoftware/babybuddywidgets/networking/BabyBuddyClient.java:185-189 | `put` stores a value or removes the key for null, and leaves every other key as it was |
| WireDate.FractionMatch | app/src/main/java/eu/pkgsoftware/babybuddywidgets/networking/BabyBuddyClient.java:93 | what the matcher takes at a position is a match of `\.[0-9]+([+-Z])` |
| WireDate.FractionMatchIsLongest | app/src/main/java/eu/pkgsoftware/babybuddywidgets/networking/BabyBuddyClient.java:93 | the matcher finds a match whenever one exists there, and the longest one |
| WireDate.StripFractions | app/src/main/java/eu/pkgsoftware/babybuddywidgets/networking/BabyBuddyClient.java:93 | the first rewrite never lengthens the text |
| WireDate.ReplaceFinalZuluMatchesAnchor | app/src/main/java/eu/pkgsoftware/babybuddywidgets/networking/BabyBuddyClient.java:94 | the second rewrite changes the text exactly when a `Z` sits where `Z$` matches, and then replaces that `Z` with +00:00 |
| WireDate.StripFractionsAfterPlainText | app/src/main/java/eu/pkgsoftware/babybuddywidgets/networking/BabyBuddyClient.java:93 | text without '.' passes the first rewrite unchanged, independently of what follows |
| WireDate.StripFractionBeforeZone | app/src/main/java/eu/pkgsoftware/babybuddywidgets/networking/BabyBuddyClient.java:93 | a fraction before a zone designator is removed and the designator kept |
| WireDate.FractionThenZone | app/src/main/java/eu/pkgsoftware/babybuddywidgets/networking/BabyBuddyClient.java:93 | a text made of a fraction and a zone is rewritten to the zone alone |
| WireDate.FractionIrrelevant | app/src/main/java/eu/pkgsoftware/babybuddywidgets/networking/BabyBuddyClient.java:92-95 | a date with fractional seconds reaches the parser as the same text as without them |
| WireDate.ZuluBecomesOffset | app/src/main/java/eu/pkgsoftware/babybuddywidgets/networking/BabyBuddyClient.java:92-95 | a final `Z`, with or without a fraction before it, reaches the parser as `+00:00` |
| WireDate.FractionWithoutZoneKeepsLastDigit | app/src/main/java/eu/pkgsoftware/babybuddywidgets/networking/BabyBuddyClient.java:93 | since `[+-Z]` holds the digits, a fraction with no zone after it loses all but its last digit |
| WireDate.ParseNullOrDate | app/src/main/java/eu/pkgsoftware/babybuddywidgets/networking/BabyBuddyClient.java:85-96 | null or missing gives null; a value `getString` cannot read (an array or object) gives its error; any other value's text (a string, or a number or boolean as text) is rewritten and parsed, and a parse failure is an error carrying the rewritten text |
| WireDate.DateToString | app/src/main/java/eu/pkgsoftware/babybuddywidgets/networking/BabyBuddyClient.java:98-104 | the result is non-null exactly when the date is, and is then the formatter's text for it |
| Query.QueryValues.constructor | app/src/main/java/eu/pkgsoftware/babybuddywidgets/networking/BabyBuddyClient.java:116 | a new QueryValues is empty |
| Query.QueryValues.Add | app/src/main/java/eu/pkgsoftware/babybuddywidgets/networking/BabyBuddyClient.java:118-121 | the key now maps to the value, every other key is unchanged, and the object itself is returned |
| Query.QueryValues.AddInt | app/src/main/java/eu/pkgsoftware/babybuddywidgets/networking/BabyBuddyClient.java:123-125 | the int overload stores the decimal text and changes nothing else |
| Query.QueryValues.AddDate | app/src/main/java/eu/pkgsoftware/babybuddywidgets/networking/BabyBuddyClient.java:106-113 | the Date overload stores the UTC rendering, or null for a null date, and changes nothing else |
| Query.QueryValues.ToQueryString | app/src/main/java/eu/pkgsoftware/babybuddywidgets/networking/BabyBuddyClient.java:131-142 | fails exactly when some value is null; otherwise one `key=encoded` pair per entry in an iteration order that lists each key once, joined by single '&' |
| Query.EmptyTableRendersEmpty | app/src/main/java/eu/pkgsoftware/babybuddywidgets/networking/BabyBuddyClient.java:131-142 | an empty table renders as "" |
| Query.QueryStringRoundTrip | app/src/main/java/eu/pkgsoftware/babybuddywidgets/networking/BabyBuddyClient.java:131-142 | the rendered string reads back as the table with each value encoded: no pair lost or doubled |
| Query.QueryValues.ToJsonObject | app/src/main/java/eu/pkgsoftware/babybuddywidgets/networking/BabyBuddyClient.java:144-146 | the JSON body has exactly the table's keys, with each non-null value as a string |
| Query.JsonOfReadsBack | app/src/main/java/eu/pkgsoftware/babybuddywidgets/networking/BabyBuddyClient.java:144-146 | each body value reads back with getString; a key is null in the body exactly when its value is |
| Query.AddIntStoresDecimal | app/src/main/java/eu/pkgsoftware/babybuddywidgets/networking/BabyBuddyClient.java:123-125 | the text the int overload stores reads back as the number |
| Paths.StripTrailingSlashes | app/src/main/java/eu/pkgsoftware/babybuddywidgets/networking/BabyBuddyClient.java:478 | `replaceAll("/*$", "")` deletes the whole slash run before where `$` matches and nothing else |
| Paths.PathToUrl | app/src/main/java/eu/pkgsoftware/babybuddywidgets/networking/BabyBuddyClient.java:477-483 | the URL is the stripped base, one '/', then the path with all of its leading slashes removed |
| Paths.JoinUrlShape | app/src/main/java/eu/pkgsoftware/babybuddywidgets/networking/BabyBuddyClient.java:477-483 | the URL's shape: base, '/', then a path that starts without '/' and is the original after its slashes |
| Paths.NoDoubledSlashAtJoin | app/src/main/java/eu/pkgsoftware/babybuddywidgets/networking/BabyBuddyClient.java:477-483 | for every base URL and path, neither neighbour of the inserted '/' is a '/'; with a final line terminator on the base URL, that terminator stands before it |
| Paths.JoinUrlIgnoresLeadingSlash | app/src/main/java/eu/pkgsoftware/babybuddywidgets/networking/BabyBuddyClient.java:479-481 | a leading slash on the path does not change the URL |
| Paths.RemoveAndUpdateShareUrl | app/src/main/java/eu/pkgsoftware/babybuddywidgets/networking/BabyBuddyClient.java:1024-1048 | removeTimelineEntry and updateTimelineEntry address the same URL for an entry |
| Paths.ApiPathInjective | app/src/main/java/eu/pkgsoftware/babybuddywidgets/networking/BabyBuddyClient.java:359-361 | two entries share an API path only when tag and id are equal |
| Paths.UserSegment | app/src/main/java/eu/pkgsoftware/babybuddywidgets/networking/BabyBuddyClient.java:344-356 | the web segment exists exactly for the four tags, and is the tag itself except "tummy-time" for tummy-times |
| Paths.UserPath | app/src/main/java/eu/pkgsoftware/babybuddywidgets/networking/BabyBuddyClient.java:343-357 | `getUserPath` is non-null exactly for a tag of ACTIVITIES or EVENTS, ends in `/<id>/`, and is singular for tummy time |
| Paths.UserPathMirrorsApiPath | app/src/main/java/eu/pkgsoftware/babybuddywidgets/networking/BabyBuddyClient.java:343-361 | for feedings, changes and sleep the web path is the API path without `/api` |
| Paths.SetTimerActiveIsTimerAction | app/src/main/java/eu/pkgsoftware/babybuddywidgets/networking/BabyBuddyClient.java:638-642 | setTimerActive's path is getTimer's path followed by `restart/` or `stop/` |
| Paths.TimerPathInjective | app/src/main/java/eu/pkgsoftware/babybuddywidgets/networking/BabyBuddyClient.java:616-617 | distinct timer ids give distinct timer paths (deleteTimer, getTimer) |
| Paths.ListTimersQuery | app/src/main/java/eu/pkgsoftware/babybuddywidgets/networking/BabyBuddyClient.java:589-591 | listTimers' query string reads back as the child filter, or as nothing without a child |
| Paths.ListGenericPath | app/src/main/java/eu/pkgsoftware/babybuddywidgets/networking/BabyBuddyClient.java:841-845 | listGeneric's path is `api/<activity>/`, plus `?` and the rendered query when values are given; a null value fails |
| Client.CheckStatus | app/src/main/java/eu/pkgsoftware/babybuddywidgets/networking/BabyBuddyClient.java:539-542 | a status succeeds exactly in [200, 300); otherwise the failure carries the response message |
| Client.ServerTime | app/src/main/java/eu/pkgsoftware/babybuddywidgets/networking/BabyBuddyClient.java:466-474 | the server time exists exactly when the header is present and parses, and is the parsed value |
| Client.ServerTimeAsWritten | app/src/main/java/eu/pkgsoftware/babybuddywidgets/networking/BabyBuddyClient.java:467-469 | the as-written step fails with a NullPointerException exactly when the header is missing |
| Client.NextOffset | app/src/main/java/eu/pkgsoftware/babybuddywidgets/networking/BabyBuddyClient.java:466-475 | the offset becomes server time minus device time minus 100 when the header parses, and stays otherwise |
| Client.Outcome | app/src/main/java/eu/pkgsoftware/babybuddywidgets/networking/BabyBuddyClient.java:535-552 | the callback gets the body exactly for a 2xx status, and otherwise the status failure |
| Client.OutcomeAsWritten | app/src/main/java/eu/pkgsoftware/babybuddywidgets/networking/BabyBuddyClient.java:532-552 | as written, a reply without a Date header fails before its status is looked at |
| Client.MissingDateHeaderFailsSuccessfulReply | app/src/main/java/eu/pkgsoftware/babybuddywidgets/networking/BabyBuddyClient.java:466-475 | a 200 reply without a Date header fails as written but succeeds, keeping the offset, as intended |
| Client.BabyBuddyClient.constructor | app/src/main/java/eu/pkgsoftware/babybuddywidgets/networking/BabyBuddyClient.java:464 | a new client's offset is -1000 ms |
| Client.BabyBuddyClient.ServerDateOffsetMillis | app/src/main/java/eu/pkgsoftware/babybuddywidgets/networking/BabyBuddyClient.java:656-658 | returns the current offset |
| Client.BabyBuddyClient.ServerNow | app/src/main/java/eu/pkgsoftware/babybuddywidgets/networking/BabyBuddyClient.java:494-499 | the instant `now()` formats differs from the device time by the offset |
| Client.BabyBuddyClient.UpdateServerDateTime | app/src/main/java/eu/pkgsoftware/babybuddywidgets/networking/BabyBuddyClient.java:466-475 | the new offset is NextOffset of the old one (intended reading) |
| Client.BabyBuddyClient.UpdateServerDateTimeAsWritten | app/src/main/java/eu/pkgsoftware/babybuddywidgets/networking/BabyBuddyClient.java:466-475 | as written: fails exactly for a missing header, and the offset follows NextOffset |
| Client.BabyBuddyClient.Exchange | app/src/main/java/eu/pkgsoftware/babybuddywidgets/networking/BabyBuddyClient.java:532-552 | every reply updates the offset whatever its status, and the result is the reply's Outcome |
| Client.BabyBuddyClient.ExchangeAsWritten | app/src/main/java/eu/pkgsoftware/babybuddywidgets/networking/BabyBuddyClient.java:532-552 | the same exchange as written: the result is OutcomeAsWritten |
| Client.OffsetTracksServerClock | app/src/main/java/eu/pkgsoftware/babybuddywidgets/networking/BabyBuddyClient.java:466-475 | after a readable header, the client's server time is the header time less 100 ms, moving with the device clock |
| Client.LastReadableHeaderWins | app/src/main/java/eu/pkgsoftware/babybuddywidgets/networking/BabyBuddyClient.java:466-475 | after two replies the offset depends only on the last one whose header parsed |
| Entities.ChildEquals | app/src/main/java/eu/pkgsoftware/babybuddywidgets/networking/BabyBuddyClient.java:157-166 | `Child.equals` holds exactly for equal values |
| Entities.ChildFromJson | app/src/main/java/eu/pkgsoftware/babybuddywidgets/networking/BabyBuddyClient.java:172-180 | succeeds exactly when every field reads, and the child holds those values |
| Entities.ChildToJson | app/src/main/java/eu/pkgsoftware/babybuddywidgets/networking/BabyBuddyClient.java:182-194 | the object holds no key but id, slug, first_name, last_name and birth_date; the id is always written; each text field is present exactly when non-null, and then holds that text |
| Entities.ChildRoundTrip | app/src/main/java/eu/pkgsoftware/babybuddywidgets/networking/BabyBuddyClient.java:156-194 | a child reads back from its JSON exactly when none of its text fields is null |
| Entities.TimerEquals | app/src/main/java/eu/pkgsoftware/babybuddywidgets/networking/BabyBuddyClient.java:263-268 | `Timer.equals` holds exactly for equal values |
| Entities.CloneTimer | app/src/main/java/eu/pkgsoftware/babybuddywidgets/networking/BabyBuddyClient.java:270-280 | a clone equals its original |
| Entities.ReadableName | app/src/main/java/eu/pkgsoftware/babybuddywidgets/networking/BabyBuddyClient.java:206-211 | the name, or `Quick timer #<id>` for an unnamed timer |
| Entities.DefaultNamesDistinct | app/src/main/java/eu/pkgsoftware/babybuddywidgets/networking/BabyBuddyClient.java:206-211 | unnamed timers with different ids get different names |
| Entities.ComputeCurrentServerEndTime | app/src/main/java/eu/pkgsoftware/babybuddywidgets/networking/BabyBuddyClient.java:213-219 | a stopped timer's end, or the client's estimate of server time now |
| Entities.RunningTimerEndAdvances | app/src/main/java/eu/pkgsoftware/babybuddywidgets/networking/BabyBuddyClient.java:213-219 | a running timer's end advances exactly with the device clock |
| Entities.TimerFromJson | app/src/main/java/eu/pkgsoftware/babybuddywidgets/networking/BabyBuddyClient.java:221-231 | on success each field is what its accessor reads: child and name are null exactly when null in JSON, and otherwise the int or text read there; a failure comes from one of the reads |
| Entities.TimerToJson | app/src/main/java/eu/pkgsoftware/babybuddywidgets/networking/BabyBuddyClient.java:233-247 | the object holds no key but id, child, name, start, end, active and user; id, active and user are always written; each nullable field is present exactly when non-null, with its value or formatted date |
| Entities.DateFieldReadsBack | app/src/main/java/eu/pkgsoftware/babybuddywidgets/networking/BabyBuddyClient.java:85-104 | a date written by toJSON reads back as the same date exactly when it survives formatting and parsing |
| Entities.TimerScalarsReadBack | app/src/main/java/eu/pkgsoftware/babybuddywidgets/networking/BabyBuddyClient.java:221-247 | every field of a timer's JSON other than its dates reads back as the timer's own |
| Entities.TimerRoundTrip | app/src/main/java/eu/pkgsoftware/babybuddywidgets/networking/BabyBuddyClient.java:221-247 | a timer reads back from its JSON exactly when each of its dates survives formatting and parsing |
| Entities.TimeEntryEquals | app/src/main/java/eu/pkgsoftware/babybuddywidgets/networking/BabyBuddyClient.java:327-336 | entry equality, with runtime classes compared, holds exactly for equal values |
| Entities.NotesOf | app/src/main/java/eu/pkgsoftware/babybuddywidgets/networking/BabyBuddyClient.java:291-297 | `notes` overrides `milestone`, neither gives "", and a present key must read as text: a present `milestone` that does not read fails the entry even when `notes` is present, since it is read first |
| Entities.NotesOverrideMilestone | app/src/main/java/eu/pkgsoftware/babybuddywidgets/networking/BabyBuddyClient.java:291-297 | when both keys read, the notes are `notes` |
| Entities.FromJsonObject | app/src/main/java/eu/pkgsoftware/babybuddywidgets/networking/BabyBuddyClient.java:290-305 | a plain entry of the given tag from the notes, id and dates; fails exactly when one of them fails |
| Entities.UpdatedEntryIsPlain | app/src/main/java/eu/pkgsoftware/babybuddywidgets/networking/BabyBuddyClient.java:1060-1064 | the entry read back after an update of a change or feeding never equals the entry sent |
| Entities.DecodeSleep | app/src/main/java/eu/pkgsoftware/babybuddywidgets/networking/BabyBuddyClient.java:932-941 | a sleep entry whose id, start and end are the values read and whose notes are `optString("notes")`; succeeds exactly when id and both dates read |
| Entities.DecodeTummyTime | app/src/main/java/eu/pkgsoftware/babybuddywidgets/networking/BabyBuddyClient.java:989-998 | a tummy-time entry whose id, start and end are the values read and whose notes are the milestone; succeeds exactly when id and both dates read |
| Entities.DecodeChange | app/src/main/java/eu/pkgsoftware/babybuddywidgets/networking/BabyBuddyClient.java:1009-1020 | a change entry with the id read, start and end both `time`, wet and solid as read, and `optString("notes")`; succeeds exactly when all of them read |
| Entities.LastMatch | app/src/main/java/eu/pkgsoftware/babybuddywidgets/networking/BabyBuddyClient.java:958-967 | the last index whose post_name equals the text, none exactly when there is none |
| Entities.FindLastMatch | app/src/main/java/eu/pkgsoftware/babybuddywidgets/networking/BabyBuddyClient.java:958-967 | the enum scan loop keeps the last match |
| Entities.LookupPostName | app/src/main/java/eu/pkgsoftware/babybuddywidgets/networking/BabyBuddyClient.java:958-967 | an empty enum never reads the field; otherwise the lookup fails exactly when the field does not read as text, and gives the last enum value whose post_name equals it, null when none does |
| Entities.DecodeFeeding | app/src/main/java/eu/pkgsoftware/babybuddywidgets/networking/BabyBuddyClient.java:952-977 | a feeding entry whose id, start, end and notes are the values read and whose method and type are the enum lookups; succeeds exactly when every read does |
| Entities.UnknownFeedingValuesAreNull | app/src/main/java/eu/pkgsoftware/babybuddywidgets/networking/BabyBuddyClient.java:958-967 | unknown method or type text decodes to null rather than failing |
| Listing.ResultsAsWritten | app/src/main/java/eu/pkgsoftware/babybuddywidgets/networking/BabyBuddyClient.java:855-860 | as written, `results` reads exactly when it is an array |
| Listing.Results | app/src/main/java/eu/pkgsoftware/babybuddywidgets/networking/BabyBuddyClient.java:855-867 | as intended, a missing or null `results` is an empty list; otherwise the same as written |
| Listing.NullResultsFailAsWritten | app/src/main/java/eu/pkgsoftware/babybuddywidgets/networking/BabyBuddyClient.java:855-867 | a null `results` fails as written and gives an empty list as intended |
| Listing.DecodeAll | app/src/main/java/eu/pkgsoftware/babybuddywidgets/networking/BabyBuddyClient.java:907-918 | a successful decode has one value per element |
| Listing.DecodeAllMeaning | app/src/main/java/eu/pkgsoftware/babybuddywidgets/networking/BabyBuddyClient.java:907-918 | the decode succeeds exactly when every element decodes, with each element's value at its own index |
| Listing.DecodeAllFirstFailure | app/src/main/java/eu/pkgsoftware/babybuddywidgets/networking/BabyBuddyClient.java:907-918 | a failed decode reports the error of the first element that does not decode |
| Listing.DecodeAllPrefixFailure | app/src/main/java/eu/pkgsoftware/babybuddywidgets/networking/BabyBuddyClient.java:907-918 | a failure in a prefix is the failure of the whole list |
| Listing.DecodeEach | app/src/main/java/eu/pkgsoftware/babybuddywidgets/networking/BabyBuddyClient.java:907-918 | the decode loop computes DecodeAll |
| Listing.DecodeList | app/src/main/java/eu/pkgsoftware/babybuddywidgets/networking/BabyBuddyClient.java:853-868 | a list reply fails with the `results` error, or is the decode of its elements |
| Listing.ListChildren | app/src/main/java/eu/pkgsoftware/babybuddywidgets/networking/BabyBuddyClient.java:568-581 | listChildren's reply reads `results` as written and decodes every child |
| Listing.InsertById | app/src/main/java/eu/pkgsoftware/babybuddywidgets/networking/BabyBuddyClient.java:607 | inserting adds one element |
| Listing.InsertByIdPermutes | app/src/main/java/eu/pkgsoftware/babybuddywidgets/networking/BabyBuddyClient.java:607 | inserting adds `x` and loses nothing |
| Listing.InsertByIdSorted | app/src/main/java/eu/pkgsoftware/babybuddywidgets/networking/BabyBuddyClient.java:607 | inserting into a sequence sorted by id keeps it sorted |
| Listing.InsertByIdStable | app/src/main/java/eu/pkgsoftware/babybuddywidgets/networking/BabyBuddyClient.java:607 | the inserted timer lands after every earlier timer with its id |
| Listing.SortById | app/src/main/java/eu/pkgsoftware/babybuddywidgets/networking/BabyBuddyClient.java:607 | the sort's result is sorted by id and a permutation of its input |
| Listing.SortByIdStable | app/src/main/java/eu/pkgsoftware/babybuddywidgets/networking/BabyBuddyClient.java:607 | timers with equal ids keep their relative order |
| Listing.ListTimers | app/src/main/java/eu/pkgsoftware/babybuddywidgets/networking/BabyBuddyClient.java:598-613 | listTimers' reply fails as its reads do, or gives the decoded timers sorted by id, permuted, equal ids in arrival order |
| Listing.TimelineQuery | app/src/main/java/eu/pkgsoftware/babybuddywidgets/networking/BabyBuddyClient.java:894-899 | the page query holds exactly child, offset and limit as decimal texts |
| Listing.TimelineQueryReadsBack | app/src/main/java/eu/pkgsoftware/babybuddywidgets/networking/BabyBuddyClient.java:894-899 | the page query's keys need no escaping and its encoded table is the three encoded numbers |
| Listing.TimelinePath | app/src/main/java/eu/pkgsoftware/babybuddywidgets/networking/BabyBuddyClient.java:886-899 | a timeline page's path always renders; when the encoder never emits '&', its query reads back as the three encoded numbers |
| Listing.ListSleepEntries | app/src/main/java/eu/pkgsoftware/babybuddywidgets/networking/BabyBuddyClient.java:925-943 | a `results` error is the page's error; otherwise the page is decoded with the sleep decoder, and every entry is tagged sleep. A null `results` reads as an empty page, the intended reading of listGeneric (see "## Findings") |
| Listing.ListTummyTimeEntries | app/src/main/java/eu/pkgsoftware/babybuddywidgets/networking/BabyBuddyClient.java:982-1000 | a `results` error is the page's error; otherwise the page is decoded with the tummy-time decoder, and every entry is tagged tummy-times. A null `results` reads as an empty page, the intended reading of listGeneric (see "## Findings") |
| Listing.ListChangeEntries | app/src/main/java/eu/pkgsoftware/babybuddywidgets/networking/BabyBuddyClient.java:1002-1022 | a `results` error is the page's error; otherwise the page is decoded with the change decoder, and every entry is a change with equal start and end. A null `results` reads as an empty page, the intended reading of listGeneric (see "## Findings") |
| Listing.ListFeedingEntries | app/src/main/java/eu/pkgsoftware/babybuddywidgets/networking/BabyBuddyClient.java:945-980 | a `results` error is the page's error; otherwise the page is decoded with the feeding decoder, and every entry is a feeding with its enum values. A null `results` reads as an empty page, the intended reading of listGeneric (see "## Findings") |
| Requests.SleepBody | app/src/main/java/eu/pkgsoftware/babybuddywidgets/networking/BabyBuddyClient.java:684-693 | the sleep body's keys are exactly timer, plus notes when non-null; timer holds the timer's id as a number and notes its text; both read back |
| Requests.TummyTimeBody | app/src/main/java/eu/pkgsoftware/babybuddywidgets/networking/BabyBuddyClient.java:712-721 | the tummy-time body's keys are exactly timer, plus milestone when non-null; timer holds the timer's id as a number and milestone its text; both read back |
| Requests.ChangeBody | app/src/main/java/eu/pkgsoftware/babybuddywidgets/networking/BabyBuddyClient.java:771-784 | the change body holds child (the id as a number), time (the text `now`), wet and solid (as booleans) and color (the empty text), and notes exactly when non-null; no other key, so never `amount`; each reads back |
| Requests.TimerBody | app/src/main/java/eu/pkgsoftware/babybuddywidgets/networking/BabyBuddyClient.java:804-813 | the timer body's keys are exactly child and start, plus name when non-null; child holds the id as a number, start the text `now`, name its text; each reads back |
| Requests.UpdateTimelineEntry | app/src/main/java/eu/pkgsoftware/babybuddywidgets/networking/BabyBuddyClient.java:1043-1068 | the entry's path; a body with exactly the values' keys, each holding its text, or null where the value is null; and the reply read as a plain entry of the entry's tag |

## Left out

- Threads and the `Handler` hand-off of `dispatchQuery`. These only move work between threads. A reply is given to `Exchange` as a value.
- HTTP I/O is left out: opening connections, request headers, writing the payload, `loadHttpData` and reading the response message. Also left out is `MalformedURLException` from `new URL`. The model stops at the URL text.
- Parsing JSON text into `JSONObject`, and printing it back with `toString`, are left out. Requests carry a JSON tree; replies are given as one.
- `getString` and `optString` on an array or object value are modelled as failing (and "" for optString). Android's org.json would return the value's printed JSON text, which depends on the printer.
- `SimpleDateFormat`, the header date format and `URLEncoder` are parameters. Their formats are not modelled: the patterns, the UTC zone, and the milliseconds `now()` writes.
- Integer.toString assumes ASCII digits. `deleteTimer`'s `String.format("%d")` is modelled as the same text, which holds for ASCII-digit locales only.
- `createFeedingRecordFromTimer` is left out: its body carries a `Float` amount.
- `toString`, `hashCode`, `DEBUG` printing and `ApiInterface.kt` are left out. They are logging, hashing and annotations with nothing to verify.
- Client.NextOffset: the offset is an unbounded integer. Java's `long` arithmetic would wrap only for clock values far outside any real date.
- Query.QueryValues.ToQueryString: HashMap's iteration order is not modelled. The contract holds for the order the walk used, which it returns as a ghost value, and the order is proved to list every key once.
- Query.QueryValues: null keys are not modelled (keys are strings). Null values are.
- Json.ScalarText: a number beyond 64 bits is held by org.json as a Double, and `getString`/`optString` print it in Java's notation (for example "1.0E20"). The model gives its decimal digits instead, since Java's Double printing is not modelled.
- Json.GetInt: numbers in the JSON tree are whole numbers, so a fractional number, which `getInt` truncates, is not modelled. Only decimal integer texts are coerced; other texts `Double.parseDouble` reads (fractions, exponents, a leading '+', surrounding whitespace, "NaN", "Infinity") fail in the model, whereas `getInt` accepts them.
- Listing.ListSleepEntries: reads `results` with the corrected null handling of listGeneric. As written, a null `results` fails the request (see "## Findings").
- Listing.ListTummyTimeEntries: the same corrected reading of a null `results` as ListSleepEntries.
- Listing.ListChangeEntries: the same corrected reading of a null `results` as ListSleepEntries.
- Listing.ListFeedingEntries: the same corrected reading of a null `results` as ListSleepEntries.
- Entities.TimeEntryEquals: `type` is never null in the model, whereas Java's `Objects.equals` also accepts null tags.
- Listing.SortById: `List.sort` is modelled as a stable insertion sort on values, not the library's in-place merge sort on the list. The contract (sorted by id, a permutation, stable for equal ids) is what `List.sort` promises.
- Entities.CloneTimer: a clone is a value, so the fact that the copy is a distinct object (aliasing) is not modelled.
- Entities.ComputeCurrentServerEndTime: the device clock `new Date()` is a parameter.
- `deleteTimer`, `setTimerActive`, `removeTimelineEntry` and the create requests are modelled by their paths, their bodies and `Exchange`. Their reply handling only answers `true`, so it is not modelled. `getTimer` and `createTimer` decode their reply with `Entities.TimerFromJson`.
- The `callback` objects are not modelled. Each list handler returns its `Result`, whose error case stands for `callback.error`.

## Findings

| source | as written | input that shows it | evidently intended | confidence | as-written member | corrected member |
|---|---|---|---|---|---|---|
| app/src/main/java/eu/pkgsoftware/babybuddywidgets/networking/BabyBuddyClient.java:855-867 | `getJSONArray("results")` throws for a null or missing `results`, so the `result == null` branch that answers an empty list is never taken and the request fails | a reply `{"results": null}` | a null `results` gives an empty list | not executed | Listing.NullResultsFailAsWritten | Listing.Results |
| app/src/main/java/eu/pkgsoftware/babybuddywidgets/networking/BabyBuddyClient.java:466-475 | a reply without a `Date` header hands null to `SimpleDateFormat.parse`, whose NullPointerException escapes `catch (ParseException e)`, so `dispatchQuery` fails the request | a 200 reply with a body and no `Date` header | the offset is kept and the reply is delivered, as for an unparsable header | not executed | Client.MissingDateHeaderFailsSuccessfulReply | Client.BabyBuddyClient.Exchange |
