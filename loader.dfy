/**
 * loadEvents: walk the fixed list of event files, turn every record dated
 * strictly after 2025-08-08 into an event numbered by its position, and sort
 * the result by re-parsing the display dates. Each file's fetch-and-parse
 * outcome is a parameter: None stands for a response that is not ok, a
 * network error or JSON that does not parse, all of which skip the file.
 */
module Loader {
  import opened Wrappers
  import opened JsNumber
  import opened JsString
  import opened Calendar
  import opened JsDate
  import opened ShowcaseDates
  import opened JsArray
  import opened Events

  /** The JSON files loadEvents reads, in order. */
  const EventFiles: seq<string> := [
    "adapta_summit_2025.json",
    "agtech_meeting_2025.json",
    "ai_summit_bix_2025.json",
    "ai_summit_brasil_sp_2025.json",
    "ai_workshop_march.json",
    "bate_papo_ia_futuro_trabalho_2025.json",
    "big_data_brazil_experience_2025.json",
    "biotech_agro_health_2025.json",
    "bootcamp_ia_negocios_2025.json",
    "cbta_2025.json",
    "cidia_2025.json",
    "conecta_industria_2025.json",
    "conexao_mulher_ia_2025.json",
    "conferences.json",
    "curso_aplicacao_ia_trabalho_2025.json",
    "curso_ia_generativa_encantado_2025.json",
    "curso_ia_generativa_ensino_2025.json",
    "curso_ia_teoria_pratica_2025.json",
    "data_science_summit_2025.json",
    "deep_learning_course.json",
    "encontro_ia_politica_2025.json",
    "eramia_rs_2025.json",
    "expoinovacao_2025.json",
    "futurecom_2025.json",
    "genai_summit.json",
    "hackathon_innova_saude_2025.json",
    "health_meeting_brasil_2025.json",
    "ia_conference_brasil_2025.json",
    "ia_summit_blumenau_2025.json",
    "ia_summit_upf_2025.json",
    "icbdai_porto_alegre_2025.json",
    "icbdai_sao_paulo_2025.json",
    "icml_2025.json",
    "imersao_ia_pratica_negocios_2025.json",
    "innovation_week_sjc_2025.json",
    "inovar_sc_2025.json",
    "live_sbagro_ia_2025.json",
    "mercopar_2025.json",
    "neurips_2025.json",
    "r_day_2025.json",
    "rio_preto_tech_summit_2025.json",
    "rpa_ai_congress_curitiba_2025.json",
    "sao_paulo_tech_week_2025.json",
    "semana_caldeira_2025.json",
    "semana_de_dados_2025.json",
    "seminario_automacao_isa_2025.json",
    "seminario_pesquisa_ia_generativa_2025.json",
    "simposio_simplas_2025.json",
    "smart_energy_2025.json",
    "south_stat_meeting_2025.json",
    "startup_investment_summit_2025.json",
    "startup_summit_2025.json",
    "super_bots_experience_2025.json",
    "tdc_sao_paulo_2025.json",
    "techstars_weekend_ai_curitiba_2025.json",
    "urban_tech_forum_2025.json",
    "workshop_fig_ladm_3d_2025.json",
    "workshop_rh_okrs_ia_2025.json"]

  const TemplateFile: string := "event_template.json"
  const ConferencesFile: string := "conferences.json"

  /** `new Date('2025-08-08')`: the cutoff an event must start strictly after. */
  const CutoffText: string := "2025-08-08"
  const CutoffDay: int := 20308

  /** The outcome of fetching and parsing each file. */
  type Fetch = string -> Option<RawData>

  /** The cutoff string is a date-only ISO string for 2025-08-08, whatever the host does with other strings. */
  lemma CutoffIsIsoDay(env: DateEnv)
    ensures CutoffDay == DaysFromCivil(2025, 8, 8)
    ensures DateConstructor(CutoffText, env) == At(CutoffDay)
  {
    assert DaysBeforeYear(2025) == 739617;
    DecimalExamples();
    assert CutoffText == "2025" + "-" + "08" + "-" + "08";
    IsoDayForm("2025", "08", "08", env);
  }

  /** One conference record per conference, in order. */
  function ConferenceEntries(confs: seq<RawConference>): (r: seq<Entry>)
    ensures |r| == |confs| && forall j :: 0 <= j < |r| ==> r[j] == Conference(confs[j])
  {
    seq(|confs|, j requires 0 <= j < |confs| => Conference(confs[j]))
  }

  /**
   * The records one file contributes: none for the template or a failed
   * fetch; each conference of conferences.json when it has the list; else
   * the file itself as one event, unless its date makes parseDate throw.
   */
  function FileEntries(fileName: string, response: Option<RawData>): (r: seq<Entry>)
    ensures fileName == TemplateFile || response.None? ==> r == []
    ensures fileName != ConferencesFile ==> |r| <= 1 && forall k :: 0 <= k < |r| ==> r[k].Single? && r[k].fileName == fileName && r[k].event == response.value.event
    ensures forall k :: 0 <= k < |r| && r[k].Single? ==> SingleStart(r[k].event) == Some(r[k].start)
    ensures fileName != ConferencesFile ==>
      (|r| == 1 <==> fileName != TemplateFile && response.Some? && SingleStart(response.value.event).Some?)
    ensures fileName == ConferencesFile && response.Some? && response.value.conferences.Some? ==>
      r == ConferenceEntries(response.value.conferences.value)
  {
    if fileName == TemplateFile then []
    else
      match response
      case None => []
      case Some(data) =>
        if fileName == ConferencesFile && data.conferences.Some? then ConferenceEntries(data.conferences.value)
        else
          match SingleStart(data.event)
          case None => []
          case Some(start) => [Single(fileName, data.event, start)]
  }

  /** The records of all files, in file order. */
  function AllEntries(files: seq<string>, fetch: Fetch): seq<Entry>
  {
    FlatMap(files, (f: string) => FileEntries(f, fetch(f)))
  }

  /** `startDate > cutoffDate`: the start parses to a day strictly after 2025-08-08. */
  predicate IsKept(e: Entry, env: DateEnv): (b: bool)
    ensures b <==> ParseDate(StartOf(e), env).At? && ParseDate(StartOf(e), env).day > CutoffDay
  {
    CutoffIsIsoDay(env);
    Later(ParseDate(StartOf(e), env), DateConstructor(CutoffText, env))
  }

  function Kept(entries: seq<Entry>, env: DateEnv): seq<Entry>
  {
    Filter(entries, (e: Entry) => IsKept(e, env))
  }

  /** The k-th kept record becomes the k-th event: its id, picture and draws come from k. */
  function Normalized(entries: seq<Entry>, draws: Draws, env: DateEnv): (r: seq<Event>)
    ensures |r| == |entries|
  {
    MapWithIndex(entries, (e: Entry, k: nat) => Normalize(e, k, draws, env))
  }

  /** allEvents before the final sort, for the list of files walked. */
  function Collected(files: seq<string>, fetch: Fetch, draws: Draws, env: DateEnv): (r: seq<Event>)
    ensures |r| <= |AllEntries(files, fetch)|
  {
    Normalized(Kept(AllEntries(files, fetch), env), draws, env)
  }

  // ---------------------------------------------------------------------
  // The loop

  lemma KeptAppend(a: seq<Entry>, b: seq<Entry>, env: DateEnv)
    ensures Kept(a + b, env) == Kept(a, env) + Kept(b, env)
  {
    FilterAppend(a, b, (e: Entry) => IsKept(e, env));
  }

  lemma NormalizedPush(entries: seq<Entry>, e: Entry, draws: Draws, env: DateEnv)
    ensures Normalized(entries + [e], draws, env) == Normalized(entries, draws, env) + [Normalize(e, |entries|, draws, env)]
  {
    MapWithIndexPush(entries, e, (x: Entry, k: nat) => Normalize(x, k, draws, env));
  }

  /** Pushing the event of record e when it is kept, as the loop body does. */
  lemma PushStep(done: seq<Entry>, e: Entry, draws: Draws, env: DateEnv)
    ensures Normalized(Kept(done + [e], env), draws, env)
      == Normalized(Kept(done, env), draws, env)
         + if IsKept(e, env) then [Normalize(e, |Kept(done, env)|, draws, env)] else []
  {
    KeptAppend(done, [e], env);
    if IsKept(e, env) {
      NormalizedPush(Kept(done, env), e, draws, env);
    } else {
      assert Kept(done + [e], env) == Kept(done, env);
    }
  }

  lemma ConferenceStep(done: seq<Entry>, confs: seq<RawConference>, j: nat)
    requires j < |confs|
    ensures done + ConferenceEntries(confs[..j + 1]) == (done + ConferenceEntries(confs[..j])) + [Conference(confs[j])]
  {
    assert ConferenceEntries(confs[..j + 1]) == ConferenceEntries(confs[..j]) + [Conference(confs[j])];
  }

  /** The inner loop over conferences.json's list: each conference dated after the cutoff is pushed. */
  method PushConferences(allEvents: seq<Event>, done: seq<Entry>, confs: seq<RawConference>, cutoffDate: Instant,
                         draws: Draws, env: DateEnv)
    returns (events: seq<Event>)
    requires cutoffDate == DateConstructor(CutoffText, env)
    requires allEvents == Normalized(Kept(done, env), draws, env)
    ensures events == Normalized(Kept(done + ConferenceEntries(confs), env), draws, env)
  {
    events := allEvents;
    var j := 0;
    assert done + ConferenceEntries(confs[..0]) == done;
    while j < |confs|
      invariant 0 <= j <= |confs|
      invariant events == Normalized(Kept(done + ConferenceEntries(confs[..j]), env), draws, env)
    {
      var conf := confs[j];
      ConferenceStep(done, confs, j);
      PushStep(done + ConferenceEntries(confs[..j]), Conference(conf), draws, env);
      var startDate := ParseDate(ConferenceStart(conf), env);
      if Later(startDate, cutoffDate) {
        var event := NormalizeConference(conf, |events|, draws, env);
        events := events + [event];
      }
      j := j + 1;
    }
    assert confs[..|confs|] == confs;
  }

  /** One single-event file: pushed when its start is after the cutoff. */
  method PushSingle(allEvents: seq<Event>, done: seq<Entry>, fileName: string, data: RawEvent, start: string,
                    cutoffDate: Instant, draws: Draws, env: DateEnv)
    returns (events: seq<Event>)
    requires cutoffDate == DateConstructor(CutoffText, env)
    requires allEvents == Normalized(Kept(done, env), draws, env)
    ensures events == Normalized(Kept(done + [Single(fileName, data, start)], env), draws, env)
  {
    PushStep(done, Single(fileName, data, start), draws, env);
    events := allEvents;
    var startDate := ParseDate(start, env);
    if Later(startDate, cutoffDate) {
      var event := NormalizeSingle(fileName, data, start, |events|, draws, env);
      events := events + [event];
    }
  }

  /** One turn of the loop over the files: the template is skipped, then the file's response is read. */
  method LoadFile(allEvents: seq<Event>, done: seq<Entry>, fileName: string, response: Option<RawData>,
                  cutoffDate: Instant, draws: Draws, env: DateEnv)
    returns (events: seq<Event>)
    requires cutoffDate == DateConstructor(CutoffText, env)
    requires allEvents == Normalized(Kept(done, env), draws, env)
    ensures events == Normalized(Kept(done + FileEntries(fileName, response), env), draws, env)
  {
    events := allEvents;
    if fileName == TemplateFile || response.None? {
      assert done + FileEntries(fileName, response) == done;
      return;
    }
    var data := response.value;
    if fileName == ConferencesFile && data.conferences.Some? {
      events := PushConferences(allEvents, done, data.conferences.value, cutoffDate, draws, env);
    } else {
      match SingleStart(data.event)
      case None =>
        assert done + FileEntries(fileName, response) == done;
      case Some(start) =>
        events := PushSingle(allEvents, done, fileName, data.event, start, cutoffDate, draws, env);
    }
  }

  lemma AllEntriesPrefix(files: seq<string>, i: nat, fetch: Fetch)
    requires i < |files|
    ensures AllEntries(files[..i + 1], fetch) == AllEntries(files[..i], fetch) + FileEntries(files[i], fetch(files[i]))
  {
    FlatMapPrefix(files, i, (f: string) => FileEntries(f, fetch(f)));
  }

  /**
   * The body of loadEvents up to the final sort: the loop over the file
   * list, each kept record pushed with the running count as its number.
   */
  method CollectEvents(files: seq<string>, fetch: Fetch, draws: Draws, env: DateEnv) returns (allEvents: seq<Event>)
    ensures allEvents == Collected(files, fetch, draws, env)
  {
    allEvents := [];
    var cutoffDate := DateConstructor(CutoffText, env);
    var i := 0;
    while i < |files|
      invariant 0 <= i <= |files|
      invariant allEvents == Normalized(Kept(AllEntries(files[..i], fetch), env), draws, env)
    {
      var fileName := files[i];
      AllEntriesPrefix(files, i, fetch);
      allEvents := LoadFile(allEvents, AllEntries(files[..i], fetch), fileName, fetch(fileName), cutoffDate, draws, env);
      i := i + 1;
    }
    assert files[..|files|] == files;
  }

  // ---------------------------------------------------------------------
  // What is loaded

  lemma AllEntriesAppend(a: seq<string>, b: seq<string>, fetch: Fetch)
    ensures AllEntries(a + b, fetch) == AllEntries(a, fetch) + AllEntries(b, fetch)
  {
    FlatMapAppend(a, b, (f: string) => FileEntries(f, fetch(f)));
  }

  lemma OneFile(fileName: string, fetch: Fetch)
    ensures AllEntries([fileName], fetch) == FileEntries(fileName, fetch(fileName))
  {
    FlatMapOne(fileName, (f: string) => FileEntries(f, fetch(f)));
  }

  /** The template and a file whose fetch fails contribute nothing; the files around them still load. */
  lemma FailedFileSkipped(a: seq<string>, fileName: string, b: seq<string>, fetch: Fetch)
    requires fileName == TemplateFile || fetch(fileName).None?
    ensures AllEntries(a + [fileName] + b, fetch) == AllEntries(a, fetch) + AllEntries(b, fetch)
  {
    AllEntriesAppend(a + [fileName], b, fetch);
    AllEntriesAppend(a, [fileName], fetch);
    OneFile(fileName, fetch);
  }

  /** A single-event file whose date object has no start makes parseDate throw, so it is skipped too. */
  lemma ThrowingFileSkipped(fileName: string, data: RawData)
    requires fileName != ConferencesFile || data.conferences.None?
    requires data.event.date.DateObject? && Or(data.event.date.start, "") == ""
    ensures FileEntries(fileName, Some(data)) == []
  {
  }

  /** Exactly the records that pass the cutoff are kept; a start that does not parse is never kept. */
  lemma KeptExactly(entries: seq<Entry>, e: Entry, env: DateEnv)
    ensures e in Kept(entries, env) <==> e in entries && IsKept(e, env)
    ensures ParseDate(StartOf(e), env).Invalid? ==> e !in Kept(entries, env)
  {
    FilterMembers(entries, (x: Entry) => IsKept(x, env), e);
  }

  /** Kept records stay in file order. */
  lemma KeptInOrder(entries: seq<Entry>, env: DateEnv)
    ensures IsSubsequence(Kept(entries, env), entries)
  {
    FilterIsSubsequence(entries, (x: Entry) => IsKept(x, env));
  }

  /** An id determines both its prefix and its number. */
  lemma IdInjective(p: string, q: string, m: nat, n: nat)
    requires p in {"conf-", "event-"} && q in {"conf-", "event-"}
    ensures (p + IntToString(m) == q + IntToString(n)) <==> (p == q && m == n)
  {
    if p == q {
      if p + IntToString(m) == q + IntToString(n) {
        assert (p + IntToString(m))[|p|..] == IntToString(m);
        assert (q + IntToString(n))[|q|..] == IntToString(n);
        NatToStringInjective(m, n);
      }
    } else {
      assert (p + IntToString(m))[0] == p[0];
      assert (q + IntToString(n))[0] == q[0];
    }
  }

  lemma IdOf(entries: seq<Entry>, draws: Draws, env: DateEnv, k: nat)
    requires k < |entries|
    ensures Normalized(entries, draws, env)[k].id == IdPrefix(entries[k]) + IntToString(k + 1)
  {
    NormalizeCommon(entries[k], k, draws, env);
  }

  /** Ids made of a kind prefix and the position plus one are pairwise distinct. */
  lemma NumberedIdsDistinct(ids: seq<string>, entries: seq<Entry>)
    requires |ids| == |entries|
    requires forall k :: 0 <= k < |ids| ==> ids[k] == IdPrefix(entries[k]) + IntToString(k + 1)
    ensures forall i, j :: 0 <= i < |ids| && 0 <= j < |ids| && i != j ==> ids[i] != ids[j]
  {
    forall i, j | 0 <= i < |ids| && 0 <= j < |ids| && i != j ensures ids[i] != ids[j] {
      IdInjective(IdPrefix(entries[i]), IdPrefix(entries[j]), i + 1, j + 1);
    }
  }

  /** The k-th event's id is its prefix and k + 1, so no two loaded events share an id. */
  lemma IdsUnique(entries: seq<Entry>, draws: Draws, env: DateEnv)
    ensures forall k :: 0 <= k < |entries| ==>
      Normalized(entries, draws, env)[k].id == IdPrefix(entries[k]) + IntToString(k + 1)
    ensures forall i, j :: 0 <= i < |entries| && 0 <= j < |entries| && i != j ==>
      Normalized(entries, draws, env)[i].id != Normalized(entries, draws, env)[j].id
  {
    var events := Normalized(entries, draws, env);
    forall k | 0 <= k < |entries| ensures events[k].id == IdPrefix(entries[k]) + IntToString(k + 1) {
      IdOf(entries, draws, env, k);
    }
    var ids := seq(|events|, k requires 0 <= k < |events| => events[k].id);
    NumberedIdsDistinct(ids, entries);
    assert forall i :: 0 <= i < |events| ==> ids[i] == events[i].id;
  }

  /** Every loaded event shows a start date strictly after the cutoff, in formatDateBR's form. */
  lemma CollectedDates(files: seq<string>, fetch: Fetch, draws: Draws, env: DateEnv, k: nat)
    requires k < |Collected(files, fetch, draws, env)|
    ensures exists z: TimeDay :: z > CutoffDay && Collected(files, fetch, draws, env)[k].date == FormatDateBR(At(z))
  {
    var kept := Kept(AllEntries(files, fetch), env);
    var e := kept[k];
    assert IsKept(e, env);
    NormalizeCommon(e, k, draws, env);
    var t := ParseDate(StartOf(e), env);
    assert Collected(files, fetch, draws, env)[k].date == FormatDateBR(At(t.day));
  }

  // ---------------------------------------------------------------------
  // The final sort

  /** `(a, b) => parseDate(a.date).getTime() - parseDate(b.date).getTime()`. */
  function LoadComparator(env: DateEnv): (cmp: (Event, Event) -> int)
    ensures forall a: Event, b: Event :: cmp(a, b) == -cmp(b, a)
    ensures forall a: Event, b: Event :: ParseDate(a.date, env).Invalid? ==> cmp(a, b) == 0
    ensures forall a: Event, b: Event :: cmp(a, b) < 0 <==> Later(ParseDate(b.date, env), ParseDate(a.date, env))
  {
    (a: Event, b: Event) => DayDifference(ParseDate(a.date, env), ParseDate(b.date, env))
  }

  /** A display date of 2025 or later does not parse back, so every comparison in the final sort is 0. */
  lemma DisplayDateUnreadable(z: TimeDay, env: DateEnv)
    requires z > CutoffDay
    ensures ParseDate(FormatDateBR(At(z)), env) == Invalid
  {
    assert DaysBeforeYear(2025) == 739617;
    YearLowerBound(z, 2025);
    FormatNotReparsed(z, env);
  }

  lemma CollectedUnreadable(files: seq<string>, fetch: Fetch, draws: Draws, env: DateEnv)
    ensures forall k :: 0 <= k < |Collected(files, fetch, draws, env)| ==>
      ParseDate(Collected(files, fetch, draws, env)[k].date, env) == Invalid
  {
    forall k | 0 <= k < |Collected(files, fetch, draws, env)|
      ensures ParseDate(Collected(files, fetch, draws, env)[k].date, env) == Invalid
    {
      CollectedDates(files, fetch, draws, env, k);
      var z: TimeDay :| z > CutoffDay && Collected(files, fetch, draws, env)[k].date == FormatDateBR(At(z));
      DisplayDateUnreadable(z, env);
    }
  }

  lemma UnreadableAllEqual(s: seq<Event>, env: DateEnv)
    requires forall k :: 0 <= k < |s| ==> ParseDate(s[k].date, env) == Invalid
    ensures forall i, j :: 0 <= i < |s| && 0 <= j < |s| ==> LoadComparator(env)(s[i], s[j]) == 0
  {
    forall i, j | 0 <= i < |s| && 0 <= j < |s| ensures LoadComparator(env)(s[i], s[j]) == 0 {
      var a, b := ParseDate(s[i].date, env), ParseDate(s[j].date, env);
      assert a == Invalid;
      assert DayDifference(a, b) == 0;
    }
  }

  /**
   * loadEvents as written. Its final sort re-parses the display dates, none
   * of which parseDate can read, so it returns the events in push order.
   */
  method LoadEvents(fetch: Fetch, draws: Draws, env: DateEnv) returns (events: seq<Event>)
    ensures events == SortWith(Collected(EventFiles, fetch, draws, env), LoadComparator(env))
    ensures events == Collected(EventFiles, fetch, draws, env)
  {
    var files := EventFiles;
    var allEvents := CollectEvents(files, fetch, draws, env);
    events := SortWith(allEvents, LoadComparator(env));
    CollectedUnreadable(files, fetch, draws, env);
    UnreadableAllEqual(allEvents, env);
    SortAllEqual(allEvents, LoadComparator(env));
  }

  /** The sort key the final sort evidently means: the day of the display date, read with the abbreviations. */
  function IntendedKey(env: DateEnv): Event -> int
  {
    (e: Event) => match ParseDateIntended(e.date, env) case At(z) => z case Invalid => 0
  }

  function IntendedComparator(env: DateEnv): (Event, Event) -> int
  {
    (a: Event, b: Event) => DayDifference(ParseDateIntended(a.date, env), ParseDateIntended(b.date, env))
  }

  /** Read with the abbreviations, each loaded event's display date gives back its start day. */
  lemma CollectedReadable(files: seq<string>, fetch: Fetch, draws: Draws, env: DateEnv)
    ensures forall k :: 0 <= k < |Collected(files, fetch, draws, env)| ==>
      ParseDateIntended(Collected(files, fetch, draws, env)[k].date, env).At?
  {
    forall k | 0 <= k < |Collected(files, fetch, draws, env)|
      ensures ParseDateIntended(Collected(files, fetch, draws, env)[k].date, env).At?
    {
      CollectedDates(files, fetch, draws, env, k);
      var z: TimeDay :| z > CutoffDay && Collected(files, fetch, draws, env)[k].date == FormatDateBR(At(z));
      assert DaysBeforeYear(2025) == 739617;
      YearLowerBound(z, 2025);
      IntendedRoundTrip(z, env);
    }
  }

  lemma IntendedKeyComparator(env: DateEnv)
    ensures KeyComparator(IntendedComparator(env), IntendedKey(env), (e: Event) => ParseDateIntended(e.date, env).At?)
  {
    forall a: Event, b: Event | ParseDateIntended(a.date, env).At? && ParseDateIntended(b.date, env).At?
      ensures IntendedComparator(env)(a, b) == IntendedKey(env)(a) - IntendedKey(env)(b)
    {
      var x, y := ParseDateIntended(a.date, env), ParseDateIntended(b.date, env);
      assert DayDifference(x, y) == x.day - y.day;
    }
  }

  /** loadEvents with the abbreviations in parseDate's table: the same events, in ascending start order. */
  method LoadEventsIntended(fetch: Fetch, draws: Draws, env: DateEnv) returns (events: seq<Event>)
    ensures multiset(events) == multiset(Collected(EventFiles, fetch, draws, env))
    ensures SortedBy(events, IntendedKey(env))
  {
    var files := EventFiles;
    var allEvents := CollectEvents(files, fetch, draws, env);
    events := SortWith(allEvents, IntendedComparator(env));
    CollectedReadable(files, fetch, draws, env);
    IntendedKeyComparator(env);
    SortSorted(allEvents, IntendedComparator(env), IntendedKey(env), (e: Event) => ParseDateIntended(e.date, env).At?);
  }

  /** The intended key of a formatted date is the day itself. */
  lemma IntendedKeyOfDisplay(z: TimeDay, e: Event, env: DateEnv)
    requires z > CutoffDay && e.date == FormatDateBR(At(z))
    ensures IntendedKey(env)(e) == z
  {
    assert DaysBeforeYear(2025) == 739617;
    YearLowerBound(z, 2025);
    IntendedRoundTrip(z, env);
  }
}
