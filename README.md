# AI events 2025: the showcase's loader and the globe's timeline, in Dafny

This project models the logic of two React components of a Next.js site
listing AI events in Brazil. It proves properties of that model.

The first component is the event showcase (`app/FinallyGoldEventShowcase.tsx`):
- Its Portuguese date helpers: `parseDate`, `formatDateBR`,
  `calculateDuration` and `isWeekendEvent`.
- The picture and city-coordinate lookups.
- `loadEvents`. It walks a fixed list of JSON files and turns each record dated
  strictly after 2025-08-08 into an `Event` numbered by its position. It then
  sorts the result.
- The grid's filter-and-sort effect, and `handleLike`.

The second component is the interactive globe (`components/InteractiveAIEventGlobe.tsx`):
- The `currentMonth` cursor with its previous, next, autoplay and slider steps.
- The month-and-category filter.
- The marker colour and coordinate lookups.
- The null-filtering of the loaded files.

Dates are whole day numbers counted from 1970-01-01 (`JsDate`), over a
proleptic Gregorian calendar (`Calendar`). That calendar has a closed-form
count of days before a year and a search that turns a day number back into
year, month and day. The two are proved mutually inverse.

The JavaScript operations the code relies on are written out in
`JsNumber`, `JsString` and `JsArray`:
- `%` with the sign of the dividend;
- `parseInt` with no radix;
- `toLowerCase`, `includes`, `split` and `replace`, with `join` only to state what `split` does;
- `||` on absent or empty values;
- `Array.prototype.filter`;
- `Array.prototype.sort`, as a stable insertion sort.

Everything the components get from outside is a parameter:
- `fetch` with its response becomes a function from file name to `Option` of a parsed record;
- `Math.random` becomes `Draws`, a pair of functions from the event's position to a value in range;
- `new Date()`, and `new Date(s)` for a string that is not one of the four-digit-year date-only forms `YYYY`, `YYYY-MM`, `YYYY-MM-DD`, become `DateEnv`.

`loadEvents` is imperative:
- `Loader.CollectEvents` is its `for` loop over the files.
- `Loader.LoadFile`, `Loader.PushConferences` and `Loader.PushSingle` are the loop body, including the inner loop over `conferences.json`.
- Each one is proved against the specification function `Loader.Collected`. That function filters the records of all files by the cutoff, then numbers them.

`currentMonth` is mutable state, so it is the class `Globe.MonthCursor` with one method per setter.

Where the code does less than it appears to promise, the model follows the code:
- The final sort of `loadEvents` compares start dates, so the loaded list looks sorted ascending by start date. It is not (see "## Findings").
- `calculateDuration` adds 1 to a day count and the card prints "dia"/"dias", which suggests a duration of at least 1. The code yields `NaN` when either date does not parse, and the model keeps that `NaN`. `CalculateDuration` proves `>= 1` only for numeric results.
- The grid's location filter is picked from a drop-down of locations, which reads as an exact match. The code tests for a case-insensitive substring, and the model does the same.

## Model

| member | source | states |
|---|---|---|
| ShowcaseDates.ParseDateBranches | app/FinallyGoldEventShowcase.tsx:199-221 | the empty string is the host's "now"; a string with a hyphen, or one that does not split on " de " into three pieces, goes to the Date constructor |
| ShowcaseDates.ParseDateWith | app/FinallyGoldEventShowcase.tsx:206-218 | in the three-piece form a month name missing from the table gives an Invalid Date, and a valid result needs a known month and numeric day and year pieces |
| ShowcaseDates.ParseLongForm | app/FinallyGoldEventShowcase.tsx:206-218 | "<d> de <Month> de <y>", with a month name that lower-cases to a key of the full-name table, parses to day d of month table[name] + 1 of year y (years from 100 on) |
| ShowcaseDates.ParseLongFormExample | app/FinallyGoldEventShowcase.tsx:206-218 | "8 de agosto de 2025" parses to 2025-08-08 |
| ShowcaseDates.ParseIsoForm | app/FinallyGoldEventShowcase.tsx:202-203 | a "YYYY-MM-DD" string naming a real calendar day takes the hyphen branch and denotes that day |
| ShowcaseDates.IsoExamples | app/FinallyGoldEventShowcase.tsx:202-203 | "2025-09-01", "2025-09-03" and "2025-09-06" denote those days |
| JsDate.DateConstructor | app/FinallyGoldEventShowcase.tsx:203 | `new Date(s)` of a date-only ISO string is always a valid date, that string's day; any other string is read by the host |
| JsDate.IsoDayForm | app/FinallyGoldEventShowcase.tsx:203 | the Date constructor reads a date-only ISO string as its calendar day |
| JsDate.DateFromParts | app/FinallyGoldEventShowcase.tsx:217 | `new Date(y, m, d)` is an Invalid Date as soon as one argument is NaN |
| ShowcaseDates.DateFromCivil | app/FinallyGoldEventShowcase.tsx:217 | `new Date(y, m - 1, d)` of a valid date from year 100 on is exactly that day |
| ShowcaseDates.FormatDateBR | app/FinallyGoldEventShowcase.tsx:224-235 | an Invalid Date formats as "NaN de undefined. de NaN"; the valid case is stated by `FormatText` |
| ShowcaseDates.FormatText | app/FinallyGoldEventShowcase.tsx:224-235 | formatDateBR of any valid day is "<day> de <abbr>. de <year>", with abbr the 12-entry table indexed by the 0-based month and the year as `String(year)` |
| ShowcaseDates.AbbreviationChars | app/FinallyGoldEventShowcase.tsx:225-228 | every abbreviation is lower-case letters; with its dot it is in the abbreviation table at its own index and is not a key of parseDate's table |
| ShowcaseDates.FormatPieces | app/FinallyGoldEventShowcase.tsx:224-235 | formatDateBR's output has no hyphen, is its own lower case, and splits on " de " into the day numeral, "<abbr>." and the year numeral |
| ShowcaseDates.FormatNotReparsed | app/FinallyGoldEventShowcase.tsx:206-234 | parseDate of formatDateBR's output is an Invalid Date for every day from year 0 on |
| ShowcaseDates.IntendedRoundTrip | app/FinallyGoldEventShowcase.tsx:346-350 | with the abbreviations added to the month table, parseDate reads formatDateBR's output back to the same day (years from 100 on) |
| ShowcaseDates.CalculateDuration | app/FinallyGoldEventShowcase.tsx:238-247 | with no end date (absent or empty) the duration is 1; any numeric duration is at least 1 |
| ShowcaseDates.DurationSymmetric | app/FinallyGoldEventShowcase.tsx:241-246 | swapping the start and end dates gives the same duration |
| ShowcaseDates.DurationSameDay | app/FinallyGoldEventShowcase.tsx:238-246 | a valid date as its own end lasts 1 day; an unparsable one gives NaN |
| ShowcaseDates.DurationCountsDays | app/FinallyGoldEventShowcase.tsx:241-246 | for two valid dates, start no later than end, the duration is the inclusive number of days from start to end |
| ShowcaseDates.DurationExample | app/FinallyGoldEventShowcase.tsx:238-247 | 2025-09-01 to 2025-09-03 lasts 3 days |
| ShowcaseDates.IsWeekendEvent | app/FinallyGoldEventShowcase.tsx:250-254 | true exactly when the date parses and its weekday is 0 (Sunday) or 6 (Saturday) |
| ShowcaseDates.WeekendExample | app/FinallyGoldEventShowcase.tsx:250-254 | 2025-09-06, a Saturday, is a weekend date |
| ShowcaseDates.InvalidNotWeekend | app/FinallyGoldEventShowcase.tsx:250-254 | an unparsable date is never a weekend date |
| JsDate.Later | app/FinallyGoldEventShowcase.tsx:276 | `a > b` on dates is false as soon as either is an Invalid Date, and on two valid dates compares their days (the same test is at :310) |
| JsDate.GetDate | app/FinallyGoldEventShowcase.tsx:230 | `getDate()` is 1..31 for a valid date and NaN for an Invalid Date |
| JsDate.GetFullYear | app/FinallyGoldEventShowcase.tsx:232 | `getFullYear()` is NaN exactly for an Invalid Date |
| JsDate.GetDay | app/FinallyGoldEventShowcase.tsx:252 | `getDay()` is 0..6 for a valid date and NaN for an Invalid Date |
| JsDate.GetMonth | app/FinallyGoldEventShowcase.tsx:231 | `getMonth()` is 0..11 for a valid date, so the abbreviation index is in bounds, and NaN otherwise |
| JsDate.Minus | app/FinallyGoldEventShowcase.tsx:243 | the difference of two dates is NaN exactly when one of them is invalid |
| JsDate.DayDifference | app/FinallyGoldEventShowcase.tsx:346-350 | a comparator's date difference is the day difference of two valid dates and 0 when either is invalid |
| Calendar.CivilFromDays | app/FinallyGoldEventShowcase.tsx:230-232 | the calendar fields of any day number form a valid date with that day number |
| Calendar.CivilRoundTrip | app/FinallyGoldEventShowcase.tsx:217 | converting a valid date to its day number and back gives the same date |
| Calendar.DaysOfIncreasing | app/FinallyGoldEventShowcase.tsx:276 | earlier calendar dates have smaller day numbers, so `>` on dates is chronological |
| Calendar.DaysBeforeNextYear | app/FinallyGoldEventShowcase.tsx:217 | consecutive years are 365 or 366 days apart by the Gregorian leap rule |
| Calendar.WeekDayNext | app/FinallyGoldEventShowcase.tsx:252 | the next day's weekday is one more, mod 7, and weekdays repeat every seven days |
| JsNumber.ParseInt | app/FinallyGoldEventShowcase.tsx:214-216 | `parseInt` of nothing but white space is NaN, and a negative result needs a leading minus sign |
| JsNumber.ParseIntOfNatToString | app/FinallyGoldEventShowcase.tsx:214-216 | `parseInt` reads back every decimal numeral `String(n)` writes |
| JsNumber.NatToStringInjective | app/FinallyGoldEventShowcase.tsx:282 | distinct counts have distinct numerals |
| JsString.Split | app/FinallyGoldEventShowcase.tsx:212 | `split(sep)` yields at least one piece; the pieces joined by sep give back the string, no piece contains sep, and with several pieces the first ends at the leftmost occurrence of sep |
| JsString.Lower | app/FinallyGoldEventShowcase.tsx:212 | `toLowerCase` keeps the length and lower-cases each character on its own |
| JsString.Includes | app/FinallyGoldEventShowcase.tsx:202 | `includes(p)` is true exactly when p occurs at some position of the string |
| JsString.ReplaceFirst | app/FinallyGoldEventShowcase.tsx:317 | `replace('.json', '')` leaves a string without the pattern unchanged, and otherwise replaces its leftmost occurrence only |
| JsString.Or | app/FinallyGoldEventShowcase.tsx:277 | the fallback operator gives v when v is a non-empty string and the fallback otherwise |
| JsString.ReplaceAllChar | app/FinallyGoldEventShowcase.tsx:317 | `replace(/_/g, ' ')` keeps the length and changes exactly the underscores |
| Events.EventImage | app/FinallyGoldEventShowcase.tsx:181-196 | generateEventImage always returns one of the ten pictures |
| Events.ImageCycle | app/FinallyGoldEventShowcase.tsx:181-196 | the picture ignores the type, is picture index for the first ten positions, and repeats every ten positions |
| Events.CoordinatesFor | app/FinallyGoldEventShowcase.tsx:294 | the coordinates are always a table entry: the city's own, or the "Online" entry (Brasília) when the city is not listed |
| Events.CoordinatesFallback | app/FinallyGoldEventShowcase.tsx:328 | the coordinates equal the "Online" entry exactly when the city is missing or sits at the same point |
| Events.NormalizeConference | app/FinallyGoldEventShowcase.tsx:272-306 | a conference's event is numbered "conf-<position + 1>", has 100..599 likes, 200..1199 attendees without a count of its own, the picture at position mod 10, table coordinates, a duration of at least 1 when numeric, and the fixed format and empty state |
| Events.NormalizeSingle | app/FinallyGoldEventShowcase.tsx:308-339 | a single event is numbered "event-<position + 1>", with the same likes, attendee, picture, coordinate and duration guarantees, and an empty title only when its file-name title is empty |
| Events.NormalizeCommon | app/FinallyGoldEventShowcase.tsx:281-336 | both branches give id prefix + (position + 1), date formatDateBR(parseDate(start)), isWeekend of the start, likes in 100..599, picture position mod 10, table coordinates, duration at least 1 when numeric |
| Events.SingleLocation | app/FinallyGoldEventShowcase.tsx:311-313 | a single event's location is "city, state" when its state is non-empty and the city alone otherwise; the city defaults to "Online" |
| Events.ConferenceLocation | app/FinallyGoldEventShowcase.tsx:277-279 | a conference's location is the city alone exactly when the country (by default "Brazil") is "Brazil", and "city, country" otherwise |
| Events.SinglePrice | app/FinallyGoldEventShowcase.tsx:330-331 | a single event's price starts with "R$ " exactly when its regular price is truthy; the text is then "R$ <price>", else "Gratuito" |
| Events.SinglePriceText | app/FinallyGoldEventShowcase.tsx:330-331 | a single event's price text is in reais exactly when its regular price is truthy |
| Events.ConferencePriceText | app/FinallyGoldEventShowcase.tsx:296-297 | a conference's price text is in reais exactly when either regular price is truthy |
| Events.ConferencePrice | app/FinallyGoldEventShowcase.tsx:296-297 | a conference's price starts with "R$ " exactly when either regular price is truthy; it reads "R$ <registration price>" when that is truthy, "R$ 500" when only the ticket price is, and "Gratuito" when neither is |
| Events.FileTitle | app/FinallyGoldEventShowcase.tsx:317 | the file-name title contains no underscore |
| Events.FileTitleOfBase | app/FinallyGoldEventShowcase.tsx:317 | for "<base>.json" with a dot-free base the title is the base with every "_" turned into a space |
| Events.TitleFromFileName | app/FinallyGoldEventShowcase.tsx:317 | without an event name or a name, a single event is titled by its file name |
| Events.TitleExample | app/FinallyGoldEventShowcase.tsx:317 | "a_b.json" is titled "a b" |
| Events.ConferenceStart | app/FinallyGoldEventShowcase.tsx:274 | a conference's start is its `dates.start` when that is non-empty, and empty exactly when both `dates.start` and `date` are absent or empty |
| Events.SingleStart | app/FinallyGoldEventShowcase.tsx:308 | a single event's start throws (None) exactly when its `date` is an object without a non-empty start; no date gives "" and a date string is itself |
| Events.EndDateText | app/FinallyGoldEventShowcase.tsx:286 | an end date is shown exactly when the record has a non-empty end, and an unparsable end shows as "NaN de undefined. de NaN" (the same expression is at :320) |
| Events.FirstOr | app/FinallyGoldEventShowcase.tsx:295 | the organizer is the first listed one when present and non-empty; otherwise it is the fallback |
| Events.ListOr | app/FinallyGoldEventShowcase.tsx:298 | the tags are the first present list (even an empty one), else the fallback |
| Events.CountOr | app/FinallyGoldEventShowcase.tsx:291 | the attendee count is the record's count when present and non-zero; otherwise it is the drawn value |
| Loader.CutoffIsIsoDay | app/FinallyGoldEventShowcase.tsx:259 | `new Date('2025-08-08')` is day 20308, 2025-08-08, whatever the host does with other strings |
| Loader.FileEntries | app/FinallyGoldEventShowcase.tsx:264-310 | the template and a failed fetch give no records; a file other than conferences.json gives at most one record, itself, dated by its start, and exactly one when it is fetched and its start does not throw; conferences.json with a conference list gives one record per conference, in order |
| Loader.ConferenceEntries | app/FinallyGoldEventShowcase.tsx:273 | the conference loop visits every conference once, in list order |
| Loader.IsKept | app/FinallyGoldEventShowcase.tsx:259-276 | a record is kept exactly when its start parses to a day strictly after 2025-08-08 |
| Loader.Collected | app/FinallyGoldEventShowcase.tsx:258-344 | the collected events are no more than the records of all files |
| Loader.PushConferences | app/FinallyGoldEventShowcase.tsx:273-306 | the inner loop pushes, in order and numbered by the running count, exactly the conferences dated after the cutoff |
| Loader.PushSingle | app/FinallyGoldEventShowcase.tsx:308-339 | a single-event file is pushed, numbered by the running count, exactly when its start is after the cutoff |
| Loader.LoadFile | app/FinallyGoldEventShowcase.tsx:262-343 | one turn of the file loop appends the events of that file's kept records, and nothing for the template or a failed fetch |
| Loader.CollectEvents | app/FinallyGoldEventShowcase.tsx:258-344 | the loop builds exactly the kept records of all files, in file order, each numbered by its position |
| Loader.FailedFileSkipped | app/FinallyGoldEventShowcase.tsx:264-268 | the template and a file whose fetch fails add nothing, and the files before and after it load as if it were absent |
| Loader.ThrowingFileSkipped | app/FinallyGoldEventShowcase.tsx:308 | a single-event file whose date object has no start makes parseDate throw; the file is skipped |
| Loader.KeptExactly | app/FinallyGoldEventShowcase.tsx:310 | a record is among the kept ones exactly when it is loaded and passes the cutoff; an unparsable start is never kept |
| Loader.KeptInOrder | app/FinallyGoldEventShowcase.tsx:261-344 | the kept records are a subsequence of the loaded records |
| Loader.IdInjective | app/FinallyGoldEventShowcase.tsx:282 | an id determines both its prefix and its number |
| Loader.IdsUnique | app/FinallyGoldEventShowcase.tsx:316 | the k-th event's id is its prefix and k + 1, and no two events share an id |
| Loader.CollectedDates | app/FinallyGoldEventShowcase.tsx:285 | every loaded event's date is formatDateBR of a day after the cutoff |
| Loader.DisplayDateUnreadable | app/FinallyGoldEventShowcase.tsx:347-348 | parseDate cannot read the display date of any day after the cutoff |
| Loader.LoadComparator | app/FinallyGoldEventShowcase.tsx:346-350 | the final sort's comparator is antisymmetric, says "equal" whenever the first date does not parse, and is negative exactly when the second date is later than the first |
| Loader.LoadEvents | app/FinallyGoldEventShowcase.tsx:346-352 | loadEvents returns its collected events sorted by the date comparator, which is exactly push order |
| Loader.LoadEventsIntended | app/FinallyGoldEventShowcase.tsx:346-352 | with the abbreviations readable, the result is a permutation of the collected events in ascending start order |
| Loader.IntendedKeyOfDisplay | app/FinallyGoldEventShowcase.tsx:347-349 | the intended sort key of a display date is the day it displays |
| JsArray.SortAllEqual | app/FinallyGoldEventShowcase.tsx:346-350 | a stable sort whose comparator says "equal" for every pair leaves the array unchanged |
| JsArray.SortSorted | app/FinallyGoldEventShowcase.tsx:824-834 | a comparator that subtracts integer keys sorts ascending by that key |
| JsArray.FilterMembers | app/FinallyGoldEventShowcase.tsx:811 | an element survives `filter` exactly when it is in the array and passes |
| JsArray.FilterIsSubsequence | app/FinallyGoldEventShowcase.tsx:811 | `filter` keeps the original order |
| Grid.Visible | app/FinallyGoldEventShowcase.tsx:811-821 | every event the filter keeps passes all four tests, and there are no more of them than loaded events |
| Grid.GridView | app/FinallyGoldEventShowcase.tsx:810-836 | the filter-and-sort effect shows a permutation of the events the filter keeps |
| Grid.Comparator | app/FinallyGoldEventShowcase.tsx:824-834 | the likes and date comparators are antisymmetric; likes puts more likes first; date puts the earlier of two valid dates first; proximity is `localeCompare` on the locations |
| Grid.InitialViewShowsAll | app/FinallyGoldEventShowcase.tsx:783-821 | with the initial empty search and filters every loaded event is shown exactly when every event lasts 1 to 30 days |
| Grid.GridViewMembers | app/FinallyGoldEventShowcase.tsx:811-834 | an event is shown exactly when it is loaded and passes the search, location, type and duration tests, as often as it is loaded |
| Grid.VisibleInOrder | app/FinallyGoldEventShowcase.tsx:811-821 | before sorting, the shown events are a subsequence of the loaded ones |
| Grid.ByLikesDescending | app/FinallyGoldEventShowcase.tsx:826-827 | sorting by likes shows the events in non-increasing likes |
| Grid.NoDurationHidden | app/FinallyGoldEventShowcase.tsx:818 | an event whose duration is NaN is never shown |
| Grid.EmptySearchKeepsDuration | app/FinallyGoldEventShowcase.tsx:812-818 | with an empty query, location and type, the duration range alone decides |
| Grid.SearchCaseInsensitive | app/FinallyGoldEventShowcase.tsx:812-814 | the search does not depend on the case of the query |
| Grid.Like | app/FinallyGoldEventShowcase.tsx:839-845 | handleLike keeps length, order and ids, adds 1 to the likes of each event with the id, and changes nothing else |
| Grid.LikeTotal | app/FinallyGoldEventShowcase.tsx:839-845 | a like adds as many likes in total as there are events carrying the id |
| Grid.LikeExactlyOne | app/FinallyGoldEventShowcase.tsx:839-845 | with unique ids, a like on a listed id adds exactly one like in total, and on an unknown id none |
| Grid.LikeKeepsIds | app/FinallyGoldEventShowcase.tsx:839-845 | likes keep ids unique; a like on an unknown id changes nothing |
| Grid.LikesCommute | app/FinallyGoldEventShowcase.tsx:839-845 | two likes in either order give the same list |
| Globe.PreviousMonth | components/InteractiveAIEventGlobe.tsx:321 | the previous step takes a month in 1..12 to another month in 1..12 |
| Globe.NextMonth | components/InteractiveAIEventGlobe.tsx:344 | the next step takes a month in 1..12 to another month in 1..12 |
| Globe.AutoplayMonth | components/InteractiveAIEventGlobe.tsx:250-257 | the autoplay step takes any positive value into 1..12, and a month to another month |
| Globe.StepsInverse | components/InteractiveAIEventGlobe.tsx:321-344 | previous and next are mutual inverses on 1..12 |
| Globe.NextIsAutoplay | components/InteractiveAIEventGlobe.tsx:253-344 | the next button and the autoplay step `(m % 12) + 1` agree on 1..12 |
| Globe.TicksCycle | components/InteractiveAIEventGlobe.tsx:250-257 | k autoplay ticks from m give month (m - 1 + k) mod 12 + 1, so twelve ticks return to the start |
| Globe.MonthCursor.constructor | components/InteractiveAIEventGlobe.tsx:182 | the cursor starts at month 1 |
| Globe.MonthCursor.Previous | components/InteractiveAIEventGlobe.tsx:321 | the previous button maps 1 to 12 and m to m - 1, keeping 1..12 |
| Globe.MonthCursor.Next | components/InteractiveAIEventGlobe.tsx:344 | the next button maps 12 to 1 and m to m + 1, keeping 1..12 |
| Globe.MonthCursor.Tick | components/InteractiveAIEventGlobe.tsx:253 | one autoplay interval sets the month to (m % 12) + 1, keeping 1..12 |
| Globe.MonthCursor.Slide | components/InteractiveAIEventGlobe.tsx:331-336 | the slider, bounded to 1..12, sets the month to its value |
| Globe.MonthCursor.Label | components/InteractiveAIEventGlobe.tsx:329 | `monthNames[currentMonth - 1]` is always in bounds |
| Globe.EventMonth | components/InteractiveAIEventGlobe.tsx:237 | an event's month is in 1..12 when its start parses, NaN otherwise |
| Globe.MonthFilter | components/InteractiveAIEventGlobe.tsx:232-247 | every event the filter keeps is in the current month and the category, and there are no more of them than loaded events |
| Globe.Shown | components/InteractiveAIEventGlobe.tsx:236-244 | an event is shown only for a current month in 1..12 |
| Globe.MonthFilterIsOneFilter | components/InteractiveAIEventGlobe.tsx:232-247 | the month filter followed by the category filter is one filter by both tests, so it keeps the loaded order |
| Globe.MonthFilterMembers | components/InteractiveAIEventGlobe.tsx:236-244 | an event is shown exactly when it is loaded, its start parses to the current month, and its type is the category or the category is "all" |
| Globe.AllIsMonthOnly | components/InteractiveAIEventGlobe.tsx:242-244 | with category "all", the result is the month-only filter |
| Globe.MarkerColour | components/InteractiveAIEventGlobe.tsx:78-86 | the colour is the type's listed colour, or "#6B7280" for a type not listed |
| Globe.ColoursDistinct | components/InteractiveAIEventGlobe.tsx:78-86 | the seven type colours differ from each other and from the default |
| Globe.MarkerCoordinates | components/InteractiveAIEventGlobe.tsx:161 | a marker sits at its city's entry, or at the "Online" entry (Brasília) for a city not in the table |
| JsArray.PresentMembers | components/InteractiveAIEventGlobe.tsx:218 | `filter(event => event !== null)` keeps exactly the present values |
| Globe.ValidEvents | components/InteractiveAIEventGlobe.tsx:204-218 | no more events are loaded than there are files |
| Globe.ValidEventsAppend | components/InteractiveAIEventGlobe.tsx:204-218 | the loaded list is the files' results in file order, failures dropped |
| Globe.ValidEventsMembers | components/InteractiveAIEventGlobe.tsx:204-218 | an event is loaded exactly when some file yields it |
| Globe.AllLoaded | components/InteractiveAIEventGlobe.tsx:204-218 | when every file loads, nothing is dropped |

## Left out

- Fetching and JSON are not modelled. This covers `fetch`, `response.ok`, `response.json()`, the `try`/`catch` blocks and `console.error`. Each file's outcome is an `Option` of a parsed record: `None` is a response that is not ok, a network error or unparsable JSON. All of these skip the file, as the catch does.
- Among the throwing paths only one is modelled: a single-event file whose `date` is an object without a start. Other ways a record of an unexpected shape could throw are not modelled, for example a conference list that is not an array, or a `dates.start` that is not a string. The parsed records carry the field types the files use.
- `Math.random` is the parameter `Draws`, indexed by the event's position. Only the ranges of `Math.floor(Math.random() * 500)` and `* 1000` are known.
- Time zones are not modelled. `new Date(y, m, d)` is a local midnight, while a date-only ISO string such as the cutoff is a UTC midnight. The model takes both as the same calendar day, which is exact for a user whose time zone is UTC. For the same reason, `calculateDuration`'s `Math.ceil` of a millisecond difference is taken as a whole number of days.
- `ShowcaseDates.ParseDateBranches`, `ShowcaseDates.CalculateDuration`, `Loader.IsKept`: `new Date()`, the current instant, is cut to the whole day `env.today`; its time of day is not modelled. A record without a start is dated "now", and there the model can differ from the code. A conference with end "2025-09-20" and no start, viewed on 2025-09-21 at 15:00 UTC, lasts ceil(39 h / 24 h) + 1 = 3 days in the code and 2 in the model. Viewed on 2025-08-08 at 10:00 UTC, the code keeps it (now is after the cutoff's midnight) and the model drops it. Every other time value the model makes is a midnight. TimeClip's bound of 8.64e15 ms is written as 1e8 days.
- `JsDate.DateConstructor`: `new Date(s)` is modelled only for the four-digit-year date-only forms `YYYY`, `YYYY-MM`, `YYYY-MM-DD`. Every other string is read by the parameter `env.parseOther`. That includes the expanded-year forms such as "+002025-08-08", the date-time forms, which ECMA-262's Date Time String Format does fix, and the strings it leaves to the implementation. The grid's date sort on display strings (`Grid.Comparator`) reads its dates the same way.
- `localeCompare` for the proximity sort is a parameter. The order it produces is not specified.
- `ShowcaseDates.ParseLongForm`, `ShowcaseDates.DateFromCivil`, `ShowcaseDates.IntendedRoundTrip`: years before 100 are excluded. There `new Date(y, m, d)` maps 0..99 to 1900..1999. `JsDate.DateFromParts` does model that mapping; the lemmas do not cover it.
- `ShowcaseDates.FormatNotReparsed`, `ShowcaseDates.FormatPieces`: years before 0 are excluded, where the year's numeral carries a hyphen. All dates the loader keeps are in 2025 or later.
- `JsString.Lower`: `toLowerCase` is exact for ASCII and Latin-1 capitals. It is the identity on the rest of Unicode, because the model has no Unicode case tables.
- `JsNumber.IntToString`: `String(n)` is decimal at every magnitude. JavaScript switches to exponent notation from 1e21, far above any event count.
- `Events.Coord` holds `real` coordinates instead of IEEE doubles. The coordinates are only looked up and compared, never computed.
- Prototype keys are not modelled. An object literal used as a table, such as the colour table or `cityCoordinates`, also answers inherited keys (for example `"constructor"`). The model reads only the listed keys.
- The template skip is covered by `Loader.FileEntries`. The file list does not contain `event_template.json`, so the skip never fires; the model does not prove that the name is absent from the list.
- `Grid.ByLikesDescending`: only the likes order is proved. The date order depends on the host's `new Date(s)`, and the proximity order on `localeCompare`.
- The `timeframe` and `showAll` filters are not modelled, because the filter effect never reads them.
- `Globe.GlobeEvent` always carries a start string. A loaded record without `date` makes `event.date.start` throw inside the filter effect (components/InteractiveAIEventGlobe.tsx:237); that failure is not modelled.
- The globe's own list of ten file names is not a constant of the model; it is the `files` parameter of `Globe.ValidEvents`.
- The `setInterval` timing of autoplay is not modelled; only its step (`Globe.MonthCursor.Tick`) is.
- Rendering and animation are not modelled. This covers all JSX, the carousel and globe geometry (`latLngToVector3`, the cylinder maths, the marker scale), drag handling, media queries, `toLocaleString`, and the other components and configuration files.

## Findings

| source | as written | input that shows it | evidently intended | confidence | as-written member | corrected member |
|---|---|---|---|---|---|---|
| app/FinallyGoldEventShowcase.tsx:346-350 | The final sort re-parses each event's display date with `parseDate`. That date was written by `formatDateBR` with an abbreviated month ("ago."), which is not a key of `parseDate`'s full-name table. So every key is an Invalid Date, every comparison gives NaN (treated as 0), and the stable sort keeps push order. | A file dated "2025-09-20" loaded before one dated "2025-08-20": the display dates are "20 de set. de 2025" and "20 de ago. de 2025". Both parse to Invalid Date, and the September event stays first. | The loaded list in ascending start order. | confirmed by proof, not executed | ShowcaseDates.FormatNotReparsed, Loader.LoadEvents | ShowcaseDates.IntendedRoundTrip, Loader.LoadEventsIntended |
