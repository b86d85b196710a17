/**
 * The event globe: its month cursor with previous, next, autoplay and
 * slider steps, the month-and-category filter, the marker colour and
 * coordinate lookups, and the null-filtering of the loaded files.
 */
module Globe {
  import opened Wrappers
  import opened JsNumber
  import opened JsDate
  import opened JsArray
  import Events

  const MonthNames: seq<string> := [
    "January", "February", "March", "April", "May", "June",
    "July", "August", "September", "October", "November", "December"]

  /** `prev => prev === 1 ? 12 : prev - 1`: from a month, always another month. */
  function PreviousMonth(m: int): (p: int)
    ensures 1 <= m <= 12 ==> 1 <= p <= 12 && p != m
  {
    if m == 1 then 12 else m - 1
  }

  /** `prev => prev === 12 ? 1 : prev + 1`: from a month, always another month. */
  function NextMonth(m: int): (n: int)
    ensures 1 <= m <= 12 ==> 1 <= n <= 12 && n != m
  {
    if m == 12 then 1 else m + 1
  }

  /**
   * The autoplay step `prev => (prev % 12) + 1`, with JavaScript's remainder:
   * any positive value lands in 1..12, and a month always moves on.
   */
  function AutoplayMonth(m: int): (n: int)
    ensures m >= 1 ==> 1 <= n <= 12
    ensures 1 <= m <= 12 ==> n != m
  {
    JsRem(m, 12) + 1
  }

  /** Previous and next undo each other. */
  lemma StepsInverse(m: int)
    requires 1 <= m <= 12
    ensures PreviousMonth(NextMonth(m)) == m && NextMonth(PreviousMonth(m)) == m
  {
  }

  /** The next button and the autoplay tick agree on 1..12. */
  lemma NextIsAutoplay(m: int)
    requires 1 <= m <= 12
    ensures NextMonth(m) == AutoplayMonth(m)
  {
  }

  /** The month after k autoplay ticks. */
  function Ticks(m: int, k: nat): int
  {
    if k == 0 then m else AutoplayMonth(Ticks(m, k - 1))
  }

  lemma TickStep(x: nat, p: int)
    requires p == x % 12 + 1
    ensures AutoplayMonth(p) == (x + 1) % 12 + 1
  {
    if p == 12 {
      assert JsRem(p, 12) == 0;
    } else {
      assert JsRem(p, 12) == p;
    }
    RemNextTwelve(x);
  }

  /** k ticks advance the month by k, cyclically: twelve ticks come back to the start. */
  lemma {:induction false} TicksCycle(m: int, k: nat)
    requires 1 <= m <= 12
    ensures Ticks(m, k) == (m - 1 + k) % 12 + 1
  {
    if k > 0 {
      TicksCycle(m, k - 1);
      TickStep(m - 2 + k, Ticks(m, k - 1));
    }
  }

  /** currentMonth, with its setters. */
  class MonthCursor {
    var month: int

    ghost predicate Valid()
      reads this
    {
      1 <= month <= 12
    }

    /** `useState(1)`. */
    constructor ()
      ensures Valid() && month == 1
    {
      month := 1;
    }

    method Previous()
      requires Valid()
      modifies this
      ensures Valid() && month == PreviousMonth(old(month))
    {
      month := PreviousMonth(month);
    }

    method Next()
      requires Valid()
      modifies this
      ensures Valid() && month == NextMonth(old(month))
    {
      month := NextMonth(month);
    }

    /** One autoplay interval. */
    method Tick()
      requires Valid()
      modifies this
      ensures Valid() && month == AutoplayMonth(old(month))
    {
      month := AutoplayMonth(month);
    }

    /** The slider, bounded to 1..12 in steps of 1. */
    method Slide(value: int)
      requires 1 <= value <= 12
      modifies this
      ensures Valid() && month == value
    {
      month := value;
    }

    /** `monthNames[currentMonth - 1]`: always in bounds. */
    function Label(): (name: string)
      requires Valid()
      reads this
      ensures name in MonthNames && name == MonthNames[month - 1]
    {
      MonthNames[month - 1]
    }
  }

  // ---------------------------------------------------------------------
  // The month and category filter

  /** The fields of an EventData record the globe's filter and markers read. */
  datatype GlobeEvent = GlobeEvent(eventName: string, eventType: string, start: string, city: string)

  /** `new Date(event.date.start).getMonth() + 1`. */
  function EventMonth(e: GlobeEvent, env: DateEnv): (m: Number)
    ensures m.Num? ==> 1 <= m.n <= 12
  {
    match GetMonth(DateConstructor(e.start, env))
    case NaN => NaN
    case Num(n) => Num(n + 1)
  }

  predicate InMonth(e: GlobeEvent, month: int, env: DateEnv)
  {
    EventMonth(e, env) == Num(month)
  }

  /** The filter effect: the month filter, then the category filter unless the category is "all". */
  function MonthFilter(events: seq<GlobeEvent>, month: int, category: string, env: DateEnv): (r: seq<GlobeEvent>)
    ensures |r| <= |events|
    ensures forall i :: 0 <= i < |r| ==> Shown(r[i], month, category, env)
  {
    var inMonth := (e: GlobeEvent) => InMonth(e, month, env);
    var inCategory := (e: GlobeEvent) => e.eventType == category;
    var byMonth := Filter(events, inMonth);
    if category != "all" then
      FilterFilter(events, inMonth, inCategory, (e: GlobeEvent) => Shown(e, month, category, env));
      Filter(byMonth, inCategory)
    else byMonth
  }

  /** The two filters in one: month and, unless "all", category. Only a month in 1..12 shows anything. */
  predicate Shown(e: GlobeEvent, month: int, category: string, env: DateEnv): (b: bool)
    ensures b ==> 1 <= month <= 12
  {
    InMonth(e, month, env) && (category == "all" || e.eventType == category)
  }

  /** The two filters in a row are one filter by both tests, so the result keeps the loaded order. */
  lemma MonthFilterIsOneFilter(events: seq<GlobeEvent>, month: int, category: string, env: DateEnv)
    ensures MonthFilter(events, month, category, env) == Filter(events, (e: GlobeEvent) => Shown(e, month, category, env))
    ensures IsSubsequence(MonthFilter(events, month, category, env), events)
  {
    var inMonth := (e: GlobeEvent) => InMonth(e, month, env);
    var shown := (e: GlobeEvent) => Shown(e, month, category, env);
    if category != "all" {
      FilterFilter(events, inMonth, (e: GlobeEvent) => e.eventType == category, shown);
    } else {
      assert forall e :: inMonth(e) == shown(e);
      FilterSame(events, inMonth, shown);
    }
    FilterIsSubsequence(events, shown);
  }

  lemma {:induction false} FilterSame<T(!new)>(a: seq<T>, p: T -> bool, q: T -> bool)
    requires forall x :: p(x) == q(x)
    ensures Filter(a, p) == Filter(a, q)
  {
    if a != [] {
      FilterSame(a[..|a| - 1], p, q);
    }
  }

  /** An event is shown exactly when its start parses, falls in the month, and has the category (or "all" is chosen). */
  lemma MonthFilterMembers(events: seq<GlobeEvent>, month: int, category: string, env: DateEnv, e: GlobeEvent)
    ensures e in MonthFilter(events, month, category, env) <==>
      e in events && DateConstructor(e.start, env).At?
      && CivilOf(DateConstructor(e.start, env)).month == month
      && (category == "all" || e.eventType == category)
  {
    MonthFilterIsOneFilter(events, month, category, env);
    FilterMembers(events, (x: GlobeEvent) => Shown(x, month, category, env), e);
  }

  /** With "all", only the month filter applies. */
  lemma AllIsMonthOnly(events: seq<GlobeEvent>, month: int, env: DateEnv)
    ensures MonthFilter(events, month, "all", env) == Filter(events, (e: GlobeEvent) => InMonth(e, month, env))
  {
  }

  // ---------------------------------------------------------------------
  // Markers

  const TypeColours: map<string, string> := map[
    "conference" := "#3B82F6",
    "summit" := "#10B981",
    "workshop" := "#F59E0B",
    "bootcamp" := "#8B5CF6",
    "course" := "#EF4444",
    "webinar" := "#EC4899",
    "hackathon" := "#14B8A6"]

  const DefaultColour: string := "#6B7280"

  /** `{...}[event.event_type] || '#6B7280'`. */
  function MarkerColour(eventType: string): (colour: string)
    ensures colour in TypeColours.Values || colour == DefaultColour
    ensures eventType in TypeColours ==> colour == TypeColours[eventType]
    ensures eventType !in TypeColours ==> colour == DefaultColour
  {
    if eventType in TypeColours then TypeColours[eventType] else DefaultColour
  }

  /** The seven type colours are distinct from each other and from the default. */
  lemma ColoursDistinct(a: string, b: string)
    requires a in TypeColours && b in TypeColours && a != b
    ensures MarkerColour(a) != MarkerColour(b) && MarkerColour(a) != DefaultColour
  {
  }

  /** The globe's own city table; its "Online" entry is Brasília's. */
  const GlobeCoordinates: map<string, Events.Coord> := map[
    "São Paulo" := Events.Coord(-23.5505, -46.6333),
    "Rio de Janeiro" := Events.Coord(-22.9068, -43.1729),
    "Brasília" := Events.Coord(-15.7801, -47.9292),
    "Porto Alegre" := Events.Coord(-30.0346, -51.2177),
    "Curitiba" := Events.Coord(-25.4284, -49.2733),
    "Belo Horizonte" := Events.Coord(-19.9167, -43.9345),
    "Salvador" := Events.Coord(-12.9714, -38.5014),
    "Fortaleza" := Events.Coord(-3.7327, -38.5270),
    "Recife" := Events.Coord(-8.0476, -34.8770),
    "Manaus" := Events.Coord(-3.1190, -60.0217),
    "Campinas" := Events.Coord(-22.9099, -47.0626),
    "Florianópolis" := Events.Coord(-27.5954, -48.5480),
    "Goiânia" := Events.Coord(-16.6869, -49.2648),
    "Vitória" := Events.Coord(-20.2976, -40.2958),
    "Campo Grande" := Events.Coord(-20.4697, -54.6201),
    "Natal" := Events.Coord(-5.7945, -35.2110),
    "Blumenau" := Events.Coord(-26.9194, -49.0661),
    "Passo Fundo" := Events.Coord(-28.2628, -52.4091),
    "São José dos Campos" := Events.Coord(-23.2237, -45.9009),
    "Caxias do Sul" := Events.Coord(-29.1681, -51.1794),
    "Online" := Events.Coord(-15.7801, -47.9292)]

  /** `cityCoordinates[event.location.city] || cityCoordinates['Online']`. */
  function MarkerCoordinates(city: string): (c: Events.Coord)
    ensures c in GlobeCoordinates.Values
    ensures city in GlobeCoordinates ==> c == GlobeCoordinates[city]
    ensures city !in GlobeCoordinates ==> c == GlobeCoordinates["Online"] == GlobeCoordinates["Brasília"]
  {
    if city in GlobeCoordinates then GlobeCoordinates[city] else GlobeCoordinates["Online"]
  }

  // ---------------------------------------------------------------------
  // Loading

  /** `Promise.all` of the per-file loads, then `filter(event => event !== null)`. */
  function ValidEvents(files: seq<string>, fetch: string -> Option<GlobeEvent>): (r: seq<GlobeEvent>)
    ensures |r| <= |files|
  {
    Present(seq(|files|, i requires 0 <= i < |files| => fetch(files[i])))
  }

  lemma FetchesAppend(a: seq<string>, b: seq<string>, fetch: string -> Option<GlobeEvent>)
    ensures seq(|a + b|, i requires 0 <= i < |a + b| => fetch((a + b)[i]))
      == seq(|a|, i requires 0 <= i < |a| => fetch(a[i])) + seq(|b|, i requires 0 <= i < |b| => fetch(b[i]))
  {
  }

  /** The loaded list is the files' results in file order, with the failures dropped. */
  lemma ValidEventsAppend(a: seq<string>, b: seq<string>, fetch: string -> Option<GlobeEvent>)
    ensures ValidEvents(a + b, fetch) == ValidEvents(a, fetch) + ValidEvents(b, fetch)
  {
    FetchesAppend(a, b, fetch);
    PresentAppend(seq(|a|, i requires 0 <= i < |a| => fetch(a[i])), seq(|b|, i requires 0 <= i < |b| => fetch(b[i])));
  }

  /** An event is loaded exactly when some file yields it. */
  lemma ValidEventsMembers(files: seq<string>, fetch: string -> Option<GlobeEvent>, e: GlobeEvent)
    ensures e in ValidEvents(files, fetch) <==> exists i :: 0 <= i < |files| && fetch(files[i]) == Some(e)
  {
    var results := seq(|files|, i requires 0 <= i < |files| => fetch(files[i]));
    PresentMembers(results, e);
    if Some(e) in results {
      var i :| 0 <= i < |results| && results[i] == Some(e);
      assert fetch(files[i]) == Some(e);
    }
    if exists i :: 0 <= i < |files| && fetch(files[i]) == Some(e) {
      var i :| 0 <= i < |files| && fetch(files[i]) == Some(e);
      assert results[i] == Some(e);
    }
  }

  /** When every file loads, nothing is dropped. */
  lemma AllLoaded(files: seq<string>, fetch: string -> Option<GlobeEvent>)
    requires forall i :: 0 <= i < |files| ==> fetch(files[i]).Some?
    ensures |ValidEvents(files, fetch)| == |files|
  {
    PresentAll(seq(|files|, i requires 0 <= i < |files| => fetch(files[i])));
  }
}
