/**
 * The showcase's event record and the two ways loadEvents builds one from a
 * JSON record: from an entry of the aggregated conference list, and from a
 * file holding a single event. The JSON records are typed with the fields
 * the showcase reads; an absent field is None, and an absent nested object
 * makes all of its fields None, which is what optional chaining yields.
 */
module Events {
  import opened Wrappers
  import opened JsNumber
  import opened JsString
  import opened JsDate
  import opened ShowcaseDates

  datatype Coord = Coord(lat: real, lng: real)

  /** The showcase's city table; "Online" sits at Brasília. */
  const CityCoordinates: map<string, Coord> := map[
    "São Paulo" := Coord(-23.5505, -46.6333),
    "Rio de Janeiro" := Coord(-22.9068, -43.1729),
    "Belo Horizonte" := Coord(-19.9191, -43.9387),
    "Porto Alegre" := Coord(-30.0346, -51.2177),
    "Florianópolis" := Coord(-27.5954, -48.5480),
    "Curitiba" := Coord(-25.4284, -49.2733),
    "Brasília" := Coord(-15.7975, -47.8919),
    "Salvador" := Coord(-12.9714, -38.5014),
    "Fortaleza" := Coord(-3.7327, -38.5270),
    "Recife" := Coord(-8.0476, -34.8770),
    "Campinas" := Coord(-22.9099, -47.0626),
    "São José dos Campos" := Coord(-23.2237, -45.9009),
    "Blumenau" := Coord(-26.9194, -49.0661),
    "Passo Fundo" := Coord(-28.2628, -52.4083),
    "Encantado" := Coord(-29.2362, -51.8696),
    "Caxias do Sul" := Coord(-29.1681, -51.1794),
    "São Leopoldo" := Coord(-29.7604, -51.1474),
    "São José do Rio Preto" := Coord(-20.8198, -49.3766),
    "Online" := Coord(-15.7975, -47.8919)]

  /** `cityCoordinates[city] || cityCoordinates['Online']`. */
  function CoordinatesFor(city: string): (c: Coord)
    ensures c in CityCoordinates.Values
    ensures city in CityCoordinates ==> c == CityCoordinates[city]
    ensures city !in CityCoordinates ==> c == Coord(-15.7975, -47.8919)
  {
    if city in CityCoordinates then CityCoordinates[city] else CityCoordinates["Online"]
  }

  /** The address of an Unsplash photo, cropped to 400 by 200. */
  function Unsplash(photo: string): string
  {
    "https://images.unsplash.com/photo-" + photo + "?w=400&h=200&fit=crop"
  }

  /** The ten stock pictures generateEventImage cycles through. */
  const Images: seq<string> := [
    Unsplash("1540575467063-178a50c2df87"),
    Unsplash("1485827404703-89b55fcc595e"),
    Unsplash("1559136555-9303baea8ebd"),
    Unsplash("1591115765373-5207764f72e7"),
    Unsplash("1531746790731-6c087fecd65a"),
    Unsplash("1555949963-ff9fe0c870eb"),
    Unsplash("1504384308090-c894fdcc538d"),
    Unsplash("1522071820081-009f0129c71c"),
    Unsplash("1517245386807-bb43f82c33c4"),
    Unsplash("1550751827-4bd374c3f58b")]

  /** generateEventImage(type, index): the type is not used; the index picks a picture, cyclically. */
  function EventImage(kind: string, index: nat): (url: string)
    ensures url in Images
  {
    Images[JsRem(index, |Images|)]
  }

  /** The picture depends on the position alone, and repeats every ten events. */
  lemma ImageCycle(kind: string, other: string, index: nat)
    ensures EventImage(kind, index) == EventImage(other, index)
    ensures EventImage(kind, index + 10) == EventImage(kind, index)
    ensures index < 10 ==> EventImage(kind, index) == Images[index]
  {
    assert |Images| == 10;
    RemShiftTen(index);
    if index < 10 {
      assert index % 10 == index;
    }
  }

  /** The Event interface; `type` is called eventType here. */
  datatype Event = Event(
    id: string,
    title: string,
    eventType: string,
    date: string,
    endDate: Option<string>,
    location: string,
    image: string,
    description: string,
    likes: int,
    attendees: int,
    isWeekend: bool,
    duration: Number,
    coordinates: Coord,
    organizer: string,
    price: string,
    tags: seq<string>,
    format: string,
    venue: string,
    state: string)

  /** A JSON value the source reads as a price: a string or an integer. */
  datatype Scalar = Str(text: string) | Int(value: int)

  /** JavaScript truthiness of an optional price: absent, "" and 0 are falsy. */
  predicate Truthy(v: Option<Scalar>)
  {
    match v
    case None => false
    case Some(Str(t)) => t != ""
    case Some(Int(n)) => n != 0
  }

  /** `${v}` for a price. */
  function ScalarText(v: Scalar): string
  {
    match v
    case Str(t) => t
    case Int(n) => IntToString(n)
  }

  datatype RawLocation = RawLocation(
    city: Option<string>, state: Option<string>, country: Option<string>, venue: Option<string>)

  /** A single event's `date`: absent, a string, or an object with start and end. */
  datatype DateField = NoDate | DateText(text: string) | DateObject(start: Option<string>, end: Option<string>)

  /** The fields of a single-event file that the showcase reads. */
  datatype RawEvent = RawEvent(
    eventName: Option<string>,
    name: Option<string>,
    eventType: Option<string>,
    kind: Option<string>,
    description: Option<string>,
    format: Option<string>,
    date: DateField,
    location: RawLocation,
    capacity: Option<int>,
    regularPrice: Option<Scalar>,
    organizers: Option<seq<string>>,
    tags: Option<seq<string>>,
    focusAreas: Option<seq<string>>)

  /** The fields of an entry of `ai_conferences_2025` that the showcase reads. */
  datatype RawConference = RawConference(
    start: Option<string>,
    end: Option<string>,
    date: Option<string>,
    location: RawLocation,
    name: Option<string>,
    eventName: Option<string>,
    eventType: Option<string>,
    description: Option<string>,
    attendeesExpected: Option<int>,
    organizers: Option<seq<string>>,
    ticketRegular: Option<Scalar>,
    registrationRegular: Option<Scalar>,
    topics: Option<seq<string>>,
    focusAreas: Option<seq<string>>)

  /** A parsed file: the conference list, if any, and the single-event fields. */
  datatype RawData = RawData(conferences: Option<seq<RawConference>>, event: RawEvent)

  /** The two random draws per kept event, `Math.floor(Math.random() * 500)` and `* 1000`, by event position. */
  type LikeDraw = x: int | 0 <= x < 500
  type AttendeeDraw = x: int | 0 <= x < 1000
  datatype Draws = Draws(likes: nat -> LikeDraw, attendees: nat -> AttendeeDraw)

  /** `list?.[0] || fallback` for a list of names. */
  function FirstOr(list: Option<seq<string>>, fallback: string): (r: string)
    ensures r == fallback || (list.Some? && |list.value| > 0 && r == list.value[0] != "")
    ensures list.Some? && |list.value| > 0 && list.value[0] != "" ==> r == list.value[0]
  {
    if list.Some? && |list.value| > 0 && list.value[0] != "" then list.value[0] else fallback
  }

  /** `a || b || fallback` for lists: an array is truthy even when empty. */
  function ListOr(a: Option<seq<string>>, b: Option<seq<string>>, fallback: seq<string>): (r: seq<string>)
    ensures a.Some? ==> r == a.value
    ensures a.None? && b.Some? ==> r == b.value
    ensures a.None? && b.None? ==> r == fallback
  {
    if a.Some? then a.value else if b.Some? then b.value else fallback
  }

  /** `n || drawn` for a count: absent or 0 takes the drawn value. */
  function CountOr(n: Option<int>, drawn: int): (r: int)
    ensures r == drawn || (n.Some? && r == n.value != 0)
    ensures n.Some? && n.value != 0 ==> r == n.value
  {
    if n.Some? && n.value != 0 then n.value else drawn
  }

  /** `fileName.replace('.json', '').replace(/_/g, ' ')`. */
  function FileTitle(fileName: string): (t: string)
    ensures forall i :: 0 <= i < |t| ==> t[i] != '_'
  {
    ReplaceAllChar(ReplaceFirst(fileName, ".json", ""), '_', ' ')
  }

  /** The date string a conference is dated by: `conf.dates?.start || conf.date`; with neither, parseDate falls to "now" as for "". */
  function ConferenceStart(c: RawConference): (s: string)
    ensures c.start.Some? && c.start.value != "" ==> s == c.start.value
    ensures s == "" <==> Or(c.start, "") == "" && Or(c.date, "") == ""
  {
    Or(c.start, Or(c.date, ""))
  }

  /**
   * `data.date?.start || data.date || ''` for a single event. An object
   * without a non-empty start is itself passed to parseDate, which then
   * throws (an object has no `includes`): None.
   */
  function SingleStart(d: RawEvent): (r: Option<string>)
    ensures r.None? <==> d.date.DateObject? && Or(d.date.start, "") == ""
    ensures d.date.NoDate? ==> r == Some("")
    ensures d.date.DateText? ==> r == Some(d.date.text)
  {
    match d.date
    case NoDate => Some("")
    case DateText(t) => Some(t)
    case DateObject(start, _) => if start.Some? && start.value != "" then Some(start.value) else None
  }

  /** `data.date?.end`: only a date object has an end. */
  function SingleEnd(d: RawEvent): Option<string>
  {
    match d.date
    case DateObject(_, end) => end
    case _ => None
  }

  /** `end ? formatDateBR(parseDate(end)) : undefined`. */
  function EndDateText(end: Option<string>, env: DateEnv): (r: Option<string>)
    ensures r.Some? <==> end.Some? && end.value != ""
    ensures r.Some? && ParseDate(end.value, env).Invalid? ==> r.value == "NaN de undefined. de NaN"
  {
    if end.Some? && end.value != "" then Some(FormatDateBR(ParseDate(end.value, env))) else None
  }

  /**
   * The event built from a conference entry, as the index-th event of the
   * load: numbered from 1, 100 to 599 likes, an image from the cycle, a
   * place from the coordinates table, a duration of at least one day.
   */
  function NormalizeConference(c: RawConference, index: nat, draws: Draws, env: DateEnv): (ev: Event)
    ensures ev.id == "conf-" + IntToString(index + 1)
    ensures 100 <= ev.likes < 600
    ensures c.attendeesExpected.None? ==> 200 <= ev.attendees < 1200
    ensures ev.image == Images[index % 10]
    ensures ev.coordinates in CityCoordinates.Values
    ensures ev.duration.Num? ==> ev.duration.n >= 1
    ensures ev.format == "presential" && ev.state == ""
  {
    var start := ConferenceStart(c);
    var city := Or(c.location.city, "Online");
    var country := Or(c.location.country, "Brazil");
    Event(
      id := "conf-" + IntToString(index + 1),
      title := Or(c.name, Or(c.eventName, "AI Conference")),
      eventType := Or(c.eventType, "conference"),
      date := FormatDateBR(ParseDate(start, env)),
      endDate := EndDateText(c.end, env),
      location := if country == "Brazil" then city else city + ", " + country,
      image := EventImage("conference", index),
      description := Or(c.description, ""),
      likes := draws.likes(index) + 100,
      attendees := CountOr(c.attendeesExpected, draws.attendees(index) + 200),
      isWeekend := IsWeekendEvent(start, env),
      duration := CalculateDuration(start, c.end, env),
      coordinates := CoordinatesFor(city),
      organizer := FirstOr(c.organizers, "AI Community"),
      price := ConferencePriceText(c),
      tags := ListOr(c.topics, c.focusAreas, ["AI", "Conference"]),
      format := "presential",
      venue := Or(c.location.venue, ""),
      state := "")
  }

  /** A conference's price text: a price in reais exactly when either regular price is present. */
  function ConferencePriceText(c: RawConference): (p: string)
    ensures (|p| >= 3 && p[..3] == "R$ ") <==> Truthy(c.ticketRegular) || Truthy(c.registrationRegular)
  {
    assert "Gratuito"[0] == 'G';
    if Truthy(c.ticketRegular) || Truthy(c.registrationRegular) then
      "R$ " + (if Truthy(c.registrationRegular) then ScalarText(c.registrationRegular.value) else "500")
    else "Gratuito"
  }

  /** A single event's price text: a price in reais exactly when the regular price is present. */
  function SinglePriceText(d: RawEvent): (p: string)
    ensures (|p| >= 3 && p[..3] == "R$ ") <==> Truthy(d.regularPrice)
  {
    assert "Gratuito"[0] == 'G';
    if Truthy(d.regularPrice) then "R$ " + ScalarText(d.regularPrice.value) else "Gratuito"
  }

  /**
   * The event built from a single-event file dated by start, as the index-th
   * event of the load, with the same numbering, likes, image, place and
   * duration guarantees as a conference.
   */
  function NormalizeSingle(fileName: string, d: RawEvent, start: string, index: nat, draws: Draws, env: DateEnv): (ev: Event)
    ensures ev.id == "event-" + IntToString(index + 1)
    ensures 100 <= ev.likes < 600
    ensures d.capacity.None? ==> 200 <= ev.attendees < 1200
    ensures ev.image == Images[index % 10]
    ensures ev.coordinates in CityCoordinates.Values
    ensures ev.duration.Num? ==> ev.duration.n >= 1
    ensures ev.title == "" ==> FileTitle(fileName) == ""
  {
    var city := Or(d.location.city, "Online");
    var state := Or(d.location.state, "");
    Event(
      id := "event-" + IntToString(index + 1),
      title := Or(d.eventName, Or(d.name, FileTitle(fileName))),
      eventType := Or(d.eventType, Or(d.kind, "evento")),
      date := FormatDateBR(ParseDate(start, env)),
      endDate := EndDateText(SingleEnd(d), env),
      location := if state != "" then city + ", " + state else city,
      image := EventImage(Or(d.eventType, "event"), index),
      description := Or(d.description, ""),
      likes := draws.likes(index) + 100,
      attendees := CountOr(d.capacity, draws.attendees(index) + 200),
      isWeekend := IsWeekendEvent(start, env),
      duration := CalculateDuration(start, SingleEnd(d), env),
      coordinates := CoordinatesFor(city),
      organizer := FirstOr(d.organizers, "AI Brasil"),
      price := SinglePriceText(d),
      tags := ListOr(d.tags, d.focusAreas, ["AI"]),
      format := Or(d.format, "presential"),
      venue := Or(d.location.venue, ""),
      state := state)
  }

  /** One record loadEvents turns into an event: a conference entry, or a single-event file with its start string. */
  datatype Entry =
    | Conference(conf: RawConference)
    | Single(fileName: string, event: RawEvent, start: string)

  /** The date string an entry is dated, filtered and sorted by. */
  function StartOf(e: Entry): string
  {
    match e
    case Conference(c) => ConferenceStart(c)
    case Single(_, _, start) => start
  }

  function Normalize(e: Entry, index: nat, draws: Draws, env: DateEnv): Event
  {
    match e
    case Conference(c) => NormalizeConference(c, index, draws, env)
    case Single(name, d, start) => NormalizeSingle(name, d, start, index, draws, env)
  }

  /** The id prefix of an entry's kind. */
  function IdPrefix(e: Entry): string
  {
    if e.Conference? then "conf-" else "event-"
  }

  // ---------------------------------------------------------------------
  // Properties of one normalised event

  /** The fields every normalised event shares, whichever branch built it. */
  lemma NormalizeCommon(e: Entry, index: nat, draws: Draws, env: DateEnv)
    ensures Normalize(e, index, draws, env).id == IdPrefix(e) + IntToString(index + 1)
    ensures Normalize(e, index, draws, env).date == FormatDateBR(ParseDate(StartOf(e), env))
    ensures Normalize(e, index, draws, env).isWeekend == IsWeekendEvent(StartOf(e), env)
    ensures 100 <= Normalize(e, index, draws, env).likes < 600
    ensures Normalize(e, index, draws, env).image == Images[index % 10]
    ensures Normalize(e, index, draws, env).coordinates in CityCoordinates.Values
    ensures var d := Normalize(e, index, draws, env).duration; d.Num? ==> d.n >= 1
  {
  }

  /** A single event's place: "city, state" exactly when the state is non-empty, the city alone otherwise. */
  lemma SingleLocation(fileName: string, d: RawEvent, start: string, index: nat, draws: Draws, env: DateEnv)
    ensures var ev := NormalizeSingle(fileName, d, start, index, draws, env);
      var city := Or(d.location.city, "Online");
      (ev.state != "" ==> ev.location == city + ", " + ev.state) && (ev.state == "" ==> ev.location == city)
    ensures NormalizeSingle(fileName, d, start, index, draws, env).state == Or(d.location.state, "")
  {
  }

  /** A conference's place: the city alone exactly when the country is Brazil, which it is by default. */
  lemma ConferenceLocation(c: RawConference, index: nat, draws: Draws, env: DateEnv)
    ensures var ev := NormalizeConference(c, index, draws, env);
      var city := Or(c.location.city, "Online");
      var country := Or(c.location.country, "Brazil");
      (country == "Brazil" <==> ev.location == city) && (country != "Brazil" ==> ev.location == city + ", " + country)
    ensures c.location.country.None? ==> NormalizeConference(c, index, draws, env).location == Or(c.location.city, "Online")
  {
    var city := Or(c.location.city, "Online");
    var country := Or(c.location.country, "Brazil");
    if country != "Brazil" {
      assert |city + ", " + country| > |city|;
    }
  }

  /** The coordinates always come from the table, and a city missing from it is placed at "Online". */
  lemma CoordinatesFallback(city: string)
    ensures CoordinatesFor(city) == CityCoordinates[if city in CityCoordinates then city else "Online"]
    ensures CoordinatesFor(city) == CityCoordinates["Online"] <==> city !in CityCoordinates || CityCoordinates[city] == CityCoordinates["Online"]
  {
  }

  /** A single event's price reads "R$ <regular>" exactly when a regular price is present, "Gratuito" otherwise. */
  lemma SinglePrice(fileName: string, d: RawEvent, start: string, index: nat, draws: Draws, env: DateEnv)
    ensures var p := NormalizeSingle(fileName, d, start, index, draws, env).price;
      (|p| >= 3 && p[..3] == "R$ ") <==> Truthy(d.regularPrice)
    ensures Truthy(d.regularPrice) ==> NormalizeSingle(fileName, d, start, index, draws, env).price == "R$ " + ScalarText(d.regularPrice.value)
    ensures !Truthy(d.regularPrice) ==> NormalizeSingle(fileName, d, start, index, draws, env).price == "Gratuito"
  {
    assert NormalizeSingle(fileName, d, start, index, draws, env).price == SinglePriceText(d);
  }

  lemma ConferencePriceCases(c: RawConference)
    ensures Truthy(c.registrationRegular) ==> ConferencePriceText(c) == "R$ " + ScalarText(c.registrationRegular.value)
    ensures Truthy(c.ticketRegular) && !Truthy(c.registrationRegular) ==> ConferencePriceText(c) == "R$ 500"
    ensures !Truthy(c.ticketRegular) && !Truthy(c.registrationRegular) ==> ConferencePriceText(c) == "Gratuito"
  {
  }

  /**
   * A conference is priced when either regular price is present, but the text
   * shows only the registration price, and "500" when just the ticket price is there.
   */
  lemma ConferencePrice(c: RawConference, index: nat, draws: Draws, env: DateEnv)
    ensures var p := NormalizeConference(c, index, draws, env).price;
      (|p| >= 3 && p[..3] == "R$ ") <==> Truthy(c.ticketRegular) || Truthy(c.registrationRegular)
    ensures Truthy(c.ticketRegular) && !Truthy(c.registrationRegular) ==> NormalizeConference(c, index, draws, env).price == "R$ 500"
    ensures Truthy(c.registrationRegular) ==> NormalizeConference(c, index, draws, env).price == "R$ " + ScalarText(c.registrationRegular.value)
    ensures !Truthy(c.ticketRegular) && !Truthy(c.registrationRegular) ==> NormalizeConference(c, index, draws, env).price == "Gratuito"
  {
    ConferencePriceCases(c);
    assert NormalizeConference(c, index, draws, env).price == ConferencePriceText(c);
  }

  /** ReplaceFirst of a suffix whose first character does not occur before it removes just that suffix. */
  lemma ReplaceSuffix(b: string, p: string)
    requires p != [] && forall i :: 0 <= i < |b| ==> b[i] != p[0]
    ensures ReplaceFirst(b + p, p, "") == b
  {
    var s := b + p;
    assert OccursAt(s, p, |b|) by { assert s[|b|..|b| + |p|] == p; }
    forall j | 0 <= j < |b| ensures !OccursAt(s, p, j) {
      assert s[j] == b[j];
      if j + |p| <= |s| {
        assert s[j..j + |p|][0] == s[j];
      }
    }
    NoFirstBefore(s, p, |b|);
    assert (s[..|b|] + "" + s[|b| + |p|..]) == b;
  }

  lemma NoFirstBefore(s: string, p: string, i: nat)
    requires OccursAt(s, p, i) && forall j :: 0 <= j < i ==> !OccursAt(s, p, j)
    ensures IndexOf(s, p) == Some(i)
  {
    var r := IndexOfFrom(s, p, 0);
    assert r.Some?;
    assert r.value <= i;
  }

  /** The file-name title of "<base>.json", for a base without dots: ".json" dropped, every "_" turned into " ". */
  lemma FileTitleOfBase(base: string)
    requires forall i :: 0 <= i < |base| ==> base[i] != '.'
    ensures FileTitle(base + ".json") == ReplaceAllChar(base, '_', ' ')
  {
    ReplaceSuffix(base, ".json");
  }

  /** Without an event name or a name, a single event is titled by its file name. */
  lemma TitleFromFileName(fileName: string, d: RawEvent, start: string, index: nat, draws: Draws, env: DateEnv)
    requires Or(d.eventName, "") == "" && Or(d.name, "") == ""
    ensures NormalizeSingle(fileName, d, start, index, draws, env).title == FileTitle(fileName)
  {
  }

  /** A name with an underscore: "a_b.json" is titled "a b". */
  lemma TitleExample()
    ensures FileTitle("a_b.json") == "a b"
  {
    assert "a_b.json" == "a_b" + ".json";
    FileTitleOfBase("a_b");
    var t := ReplaceAllChar("a_b", '_', ' ');
    assert t[0] == 'a' && t[1] == ' ' && t[2] == 'b';
  }
}
