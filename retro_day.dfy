/**
 * One "Time Travel!" request (main.py, `time_travel` and
 * `collect_and_display_data`): the date is checked, then the five
 * categories are resolved one after the other and delivered together with
 * the decade label. Each category catches its own failures, so the bundle
 * is always complete; the background thread and the hand-over to the UI
 * thread are not modelled.
 */
module RetroDay {
  import opened Wrappers
  import opened Calendar
  import opened Events
  import opened Movies
  import opened Eras

  /** What the external sources answer while one date is resolved. */
  datatype Upstream = Upstream(
    wiki: WikiOutcome,
    scrape: ScrapeOutcome,
    apiKey: string,
    discovery: DiscoveryOutcome,
    credits: int -> CreditsOutcome)

  /** Everything the tabs are updated with, delivered at once. */
  datatype FactBundle = FactBundle(
    decadeStyle: string,
    events: seq<string>,
    movies: seq<Movie>,
    music: Music,
    technology: Technology,
    fashion: Fashion)

  /** The outcome of one press of "Time Travel!". */
  datatype RequestOutcome = Delivered(bundle: FactBundle) | RejectedDate | RejectedInput

  /** The bundle `collect_and_display_data` delivers for `date`. */
  function BundleFor(date: CalendarDate, up: Upstream): FactBundle
  {
    FactBundle(
      DecadeStyle(date.year),
      EventsFor(date, up.wiki, up.scrape),
      MoviesFor(date, up.apiKey, up.discovery, up.credits),
      GetMusic(date),
      GetTechnology(date),
      GetFashion(date))
  }

  /** `collect_and_display_data`: the five categories in order, then one delivery. */
  method CollectAndDisplayData(date: CalendarDate, up: Upstream) returns (bundle: FactBundle)
    ensures bundle == BundleFor(date, up)
  {
    var events, _ := GetHistoricalEvents(date, up.wiki, up.scrape);
    var movies := GetMoviesAndTv(date, up.apiKey, up.discovery, up.credits);
    bundle := FactBundle(DecadeStyle(date.year), events, movies, GetMusic(date), GetTechnology(date), GetFashion(date));
  }

  /** `time_travel`: resolution starts only for a date `datetime` accepts. */
  method TimeTravelAndCollect(monthText: string, day: Option<int>, year: Option<int>, up: Upstream)
    returns (outcome: RequestOutcome)
    ensures outcome.Delivered? <==> TimeTravel(monthText, day, year).Resolving?
    ensures outcome.Delivered? ==> outcome.bundle == BundleFor(TimeTravel(monthText, day, year).date, up)
    ensures outcome.RejectedDate? <==> TimeTravel(monthText, day, year).InvalidDate?
  {
    match TimeTravel(monthText, day, year)
    case Resolving(date) =>
      var bundle := CollectAndDisplayData(date, up);
      outcome := Delivered(bundle);
    case InvalidDate =>
      outcome := RejectedDate;
    case InputError =>
      outcome := RejectedInput;
  }

  /** Resolving the same date twice against the same answers gives identical bundles. */
  method ResolveTwice(date: CalendarDate, up: Upstream) returns (first: FactBundle, second: FactBundle)
    ensures first == second
    ensures first.decadeStyle == DecadeStyle(date.year)
  {
    first := CollectAndDisplayData(date, up);
    second := CollectAndDisplayData(date, up);
  }

  /**
   * Categories are failure-independent: the events depend only on the
   * article and scrape answers, the movies only on the media-API answers.
   */
  lemma CategoriesIndependent(date: CalendarDate, a: Upstream, b: Upstream)
    ensures a.wiki == b.wiki && a.scrape == b.scrape ==> BundleFor(date, a).events == BundleFor(date, b).events
    ensures a.apiKey == b.apiKey && a.discovery == b.discovery && a.credits == b.credits ==>
              BundleFor(date, a).movies == BundleFor(date, b).movies
    ensures BundleFor(date, a).music == BundleFor(date, b).music
    ensures BundleFor(date, a).technology == BundleFor(date, b).technology
    ensures BundleFor(date, a).fashion == BundleFor(date, b).fashion
  {
  }

  /**
   * With the page missing, the scrape failing and no API key, a 1950s or
   * 1960s date gets the curated content of every category verbatim.
   */
  lemma OfflineCuratedBundle(date: CalendarDate, up: Upstream)
    requires up.wiki == PageError && up.scrape == ScrapeFault && up.apiKey == ""
    requires Decade(date.year) in CuratedDecades
    ensures var bundle := BundleFor(date, up);
            && bundle.events == DecadeEvents[Decade(date.year)]
            && bundle.movies == DecadeMovies[Decade(date.year)]
            && bundle.music == DecadeMusic[Decade(date.year)]
            && bundle.technology == DecadeTechnology[Decade(date.year)]
            && bundle.fashion == DecadeFashion[Decade(date.year)]
  {
  }

  /**
   * With the network down, the article lookup fails with an error other
   * than a missing page, so the events are the single failure notice, for
   * curated decades too; the movies fall back to the static table.
   */
  lemma NetworkDownBundle(date: CalendarDate, up: Upstream)
    requires up.wiki == LookupFault && up.discovery.DiscoveryFault?
    ensures var bundle := BundleFor(date, up);
            && bundle.events == [LookupFailureNotice]
            && bundle.movies == StaticMovies(date.year)
            && bundle.movies != []
  {
    StaticTierWhenApiFails(date, up.apiKey, up.discovery, up.credits, 0);
  }

  /**
   * Every category but the live tiers of events and movies is non-empty:
   * an empty list in the bundle can only come from a source that answered with nothing.
   */
  lemma BundleEmptyOnlyFromLiveSources(date: CalendarDate, up: Upstream)
    ensures var bundle := BundleFor(date, up);
            && (bundle.events == [] ==> up.wiki.PageFound? || (up.wiki.PageError? && up.scrape.Scraped?))
            && (bundle.movies == [] ==> ApiAnswers(up.apiKey, up.discovery, up.credits, date.year))
            && bundle.music.songs != [] && bundle.technology.gadgets != [] && bundle.fashion.clothing != []
  {
    if EventsFor(date, up.wiki, up.scrape) == [] {
      EmptyOnlyFromLiveTier(date, up.wiki, up.scrape);
    }
  }
}
