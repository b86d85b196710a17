/**
 * The showcase's grid: the filter-and-sort effect that derives the shown
 * list from the loaded events, and handleLike.
 */
module Grid {
  import opened Wrappers
  import opened JsNumber
  import opened JsString
  import opened JsDate
  import opened JsArray
  import opened Events

  /** The filter state the effect reads; `timeframe` and `showAll` are not used by it. */
  datatype Filters = Filters(location: string, eventType: string, minDuration: int, maxDuration: int)

  /** The initial filter state: no location, no type, 1 to 30 days. */
  const InitialFilters: Filters := Filters("", "", 1, 30)

  datatype SortMode = ByDate | ByProximity | ByLikes

  /** The search text, lower-cased, occurs in the lower-cased title, location or type. */
  predicate MatchesSearch(e: Event, query: string)
  {
    var q := Lower(query);
    Includes(Lower(e.title), q) || Includes(Lower(e.location), q) || Includes(Lower(e.eventType), q)
  }

  predicate MatchesLocation(e: Event, f: Filters)
  {
    f.location == "" || Includes(Lower(e.location), Lower(f.location))
  }

  predicate MatchesType(e: Event, f: Filters)
  {
    f.eventType == "" || e.eventType == f.eventType
  }

  /** Both comparisons are false for a NaN duration. */
  predicate MatchesDuration(e: Event, f: Filters)
  {
    e.duration.Num? && f.minDuration <= e.duration.n && e.duration.n <= f.maxDuration
  }

  /** The predicate passed to `events.filter`. */
  predicate Matches(e: Event, query: string, f: Filters)
  {
    MatchesSearch(e, query) && MatchesLocation(e, f) && MatchesType(e, f) && MatchesDuration(e, f)
  }

  /** The events that pass every test, no more of them than were loaded. */
  function Visible(events: seq<Event>, query: string, f: Filters): (r: seq<Event>)
    ensures |r| <= |events|
    ensures forall i :: 0 <= i < |r| ==> Matches(r[i], query, f)
  {
    Filter(events, (e: Event) => Matches(e, query, f))
  }

  /**
   * The comparator of the chosen sort: most likes first, `localeCompare` on
   * the location, or the day difference of `new Date(date)` on the display
   * dates, which the host parses as it likes.
   */
  function Comparator(mode: SortMode, localeCompare: (string, string) -> int, env: DateEnv): (cmp: (Event, Event) -> int)
    ensures mode != ByProximity ==> forall a, b :: cmp(a, b) == -cmp(b, a)
    ensures mode == ByLikes ==> forall a, b :: cmp(a, b) < 0 <==> a.likes > b.likes
    ensures mode == ByProximity ==> forall a, b :: cmp(a, b) == localeCompare(a.location, b.location)
    ensures mode == ByDate ==> forall a, b ::
      cmp(a, b) < 0 <==> Later(DateConstructor(b.date, env), DateConstructor(a.date, env))
  {
    match mode
    case ByLikes => (a: Event, b: Event) => b.likes - a.likes
    case ByProximity => (a: Event, b: Event) => localeCompare(a.location, b.location)
    case ByDate => (a: Event, b: Event) => DayDifference(DateConstructor(a.date, env), DateConstructor(b.date, env))
  }

  /** filteredEvents: the matching events, sorted. */
  function GridView(events: seq<Event>, query: string, f: Filters, mode: SortMode,
                    localeCompare: (string, string) -> int, env: DateEnv): (r: seq<Event>)
    ensures multiset(r) == multiset(Visible(events, query, f))
  {
    SortWith(Visible(events, query, f), Comparator(mode, localeCompare, env))
  }

  /** An event is shown exactly when it is loaded and passes every test, and as often as it is loaded. */
  lemma GridViewMembers(events: seq<Event>, query: string, f: Filters, mode: SortMode,
                        localeCompare: (string, string) -> int, env: DateEnv, e: Event)
    ensures e in GridView(events, query, f, mode, localeCompare, env) <==> e in events && Matches(e, query, f)
    ensures multiset(GridView(events, query, f, mode, localeCompare, env)) == multiset(Visible(events, query, f))
  {
    var v := Visible(events, query, f);
    FilterMembers(events, (x: Event) => Matches(x, query, f), e);
    assert e in v <==> e in multiset(v);
    assert e in GridView(events, query, f, mode, localeCompare, env) <==> e in multiset(GridView(events, query, f, mode, localeCompare, env));
  }

  /** Before sorting, the shown events keep the loaded order. */
  lemma VisibleInOrder(events: seq<Event>, query: string, f: Filters)
    ensures IsSubsequence(Visible(events, query, f), events)
  {
    FilterIsSubsequence(events, (x: Event) => Matches(x, query, f));
  }

  /** Sorting by likes shows the most liked first. */
  lemma ByLikesDescending(events: seq<Event>, query: string, f: Filters,
                          localeCompare: (string, string) -> int, env: DateEnv)
    ensures var g := GridView(events, query, f, ByLikes, localeCompare, env);
      forall i, j :: 0 <= i < j < |g| ==> g[i].likes >= g[j].likes
  {
    var key := (e: Event) => -e.likes;
    var ok := (e: Event) => true;
    assert KeyComparator(Comparator(ByLikes, localeCompare, env), key, ok);
    SortSorted(Visible(events, query, f), Comparator(ByLikes, localeCompare, env), key, ok);
  }

  /** An event without a duration is never shown. */
  lemma NoDurationHidden(events: seq<Event>, query: string, f: Filters, mode: SortMode,
                         localeCompare: (string, string) -> int, env: DateEnv, e: Event)
    requires e.duration.NaN?
    ensures e !in GridView(events, query, f, mode, localeCompare, env)
  {
    GridViewMembers(events, query, f, mode, localeCompare, env, e);
  }

  lemma IncludesEmpty(s: string)
    ensures Includes(s, "")
  {
    assert OccursAt(s, "", 0);
  }

  /** With an empty search and no location or type, the duration range alone decides. */
  lemma EmptySearchKeepsDuration(e: Event, f: Filters)
    requires f.location == "" && f.eventType == ""
    ensures Matches(e, "", f) <==> MatchesDuration(e, f)
  {
    IncludesEmpty(Lower(e.title));
  }

  /**
   * In the initial state (no search, no location or type, 1 to 30 days) every
   * loaded event is shown exactly when every event lasts 1 to 30 days.
   */
  lemma InitialViewShowsAll(events: seq<Event>)
    ensures Visible(events, "", InitialFilters) == events <==>
      forall i :: 0 <= i < |events| ==> events[i].duration.Num? && 1 <= events[i].duration.n <= 30
  {
    var p := (e: Event) => Matches(e, "", InitialFilters);
    forall e: Event {
      EmptySearchKeepsDuration(e, InitialFilters);
    }
    if forall i :: 0 <= i < |events| ==> events[i].duration.Num? && 1 <= events[i].duration.n <= 30 {
      FilterAll(events, p);
    }
  }

  /** The search does not depend on the case of the query. */
  lemma SearchCaseInsensitive(e: Event, query: string)
    ensures MatchesSearch(e, query) <==> MatchesSearch(e, Lower(query))
  {
    LowerIdempotent(query);
  }

  // ---------------------------------------------------------------------
  // handleLike

  /** handleLike(id): one more like for every event with that id, nothing else changed. */
  function Like(events: seq<Event>, id: string): (r: seq<Event>)
    ensures |r| == |events|
    ensures forall i :: 0 <= i < |r| ==> r[i].id == events[i].id
    ensures forall i :: 0 <= i < |r| ==> r[i].likes == events[i].likes + (if events[i].id == id then 1 else 0)
    ensures forall i :: 0 <= i < |r| ==> r[i].(likes := events[i].likes) == events[i]
  {
    seq(|events|, i requires 0 <= i < |events| =>
      if events[i].id == id then events[i].(likes := events[i].likes + 1) else events[i])
  }

  function TotalLikes(events: seq<Event>): int
  {
    if events == [] then 0 else TotalLikes(events[..|events| - 1]) + events[|events| - 1].likes
  }

  /** How many events carry the id. */
  function CountId(events: seq<Event>, id: string): nat
  {
    if events == [] then 0 else CountId(events[..|events| - 1], id) + if events[|events| - 1].id == id then 1 else 0
  }

  /** A like adds as many likes in total as there are events with that id. */
  lemma {:induction false} LikeTotal(events: seq<Event>, id: string)
    ensures TotalLikes(Like(events, id)) == TotalLikes(events) + CountId(events, id)
  {
    if events != [] {
      var front := events[..|events| - 1];
      LikeTotal(front, id);
      assert Like(events, id)[..|events| - 1] == Like(front, id);
    }
  }

  predicate UniqueIds(events: seq<Event>)
  {
    forall i, j :: 0 <= i < |events| && 0 <= j < |events| && i != j ==> events[i].id != events[j].id
  }

  lemma {:induction false} CountIdUnique(events: seq<Event>, id: string)
    requires UniqueIds(events)
    ensures CountId(events, id) <= 1
    ensures CountId(events, id) == 1 <==> exists i :: 0 <= i < |events| && events[i].id == id
  {
    if events != [] {
      var front := events[..|events| - 1];
      assert UniqueIds(front);
      CountIdUnique(front, id);
      if events[|events| - 1].id == id {
        forall i | 0 <= i < |front| ensures front[i].id != id {
          assert events[i] == front[i];
        }
      } else {
        if exists i :: 0 <= i < |events| && events[i].id == id {
          var i :| 0 <= i < |events| && events[i].id == id;
          assert front[i] == events[i];
        }
      }
    }
  }

  /** With unique ids, as loadEvents assigns them, a like on a listed id adds exactly one like in total. */
  lemma LikeExactlyOne(events: seq<Event>, id: string)
    requires UniqueIds(events)
    ensures TotalLikes(Like(events, id)) == TotalLikes(events) + (if exists i :: 0 <= i < |events| && events[i].id == id then 1 else 0)
  {
    LikeTotal(events, id);
    CountIdUnique(events, id);
  }

  /** Likes keep the ids, so they keep ids unique; an unknown id changes nothing. */
  lemma LikeKeepsIds(events: seq<Event>, id: string)
    ensures UniqueIds(events) ==> UniqueIds(Like(events, id))
    ensures (forall i :: 0 <= i < |events| ==> events[i].id != id) ==> Like(events, id) == events
  {
  }

  /** Two likes commute. */
  lemma LikesCommute(events: seq<Event>, a: string, b: string)
    ensures Like(Like(events, a), b) == Like(Like(events, b), a)
  {
  }
}
