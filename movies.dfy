/**
 * The movies category (main.py, `get_movies_and_tv`). With a media-API key
 * the five most popular releases of the year are listed, each with the
 * first crew member whose job is "Director" and a poster address when the
 * API gave a poster path. Without a key, or after any failure, everything
 * gathered is dropped and a static table keyed by decade answers.
 *
 * The HTTP requests and their JSON decoding are not modelled: their
 * results arrive as values of the datatypes below.
 */
module Movies {
  import opened Wrappers
  import opened Calendar

  /** One crew entry of a credits response; None where the key is missing. */
  datatype CrewMember = CrewMember(job: Option<string>, name: Option<string>)

  /** The credits request for one movie; any exception (network, JSON, shape) is `CreditsFault`. */
  datatype CreditsOutcome = Credits(crew: seq<CrewMember>) | CreditsFault

  /**
   * One entry of the discovery results; None where the key is missing.
   * A missing `results` or `crew` key reads as an empty list, as `.get(key, [])` does.
   */
  datatype DiscoveredMovie = DiscoveredMovie(title: Option<string>, id: Option<int>, posterPath: Option<string>)

  /** The discovery request; any exception (network, JSON, shape) is `DiscoveryFault`. */
  datatype DiscoveryOutcome = Discovery(results: seq<DiscoveredMovie>) | DiscoveryFault

  /** The `director` key: absent, or set to the crew entry's `name` (which may itself be None). */
  datatype Director = NoDirector | DirectorNamed(name: Option<string>)

  /** A movie record: from the media API, or from the static table (no `id`, no `poster_url`). */
  datatype Movie =
    | ApiMovie(title: string, year: int, id: int, posterUrl: Option<string>, director: Director)
    | TableMovie(title: string, year: int, director: Director)

  const MaxMovies: nat := 5
  const DirectorJob: string := "Director"
  const UnknownTitle: string := "Unknown"
  const PosterBase: string := "https://image.tmdb.org/t/p/w500"
  const NoMovieData: string := "No specific movie data available"

  /** The curated movies of the static tier. */
  const DecadeMovies: map<int, seq<Movie>> := map[
    1950 := [TableMovie("Singin' in the Rain", 1952, DirectorNamed(Some("Gene Kelly, Stanley Donen"))),
             TableMovie("Rear Window", 1954, DirectorNamed(Some("Alfred Hitchcock"))),
             TableMovie("Some Like It Hot", 1959, DirectorNamed(Some("Billy Wilder")))],
    1960 := [TableMovie("Psycho", 1960, DirectorNamed(Some("Alfred Hitchcock"))),
             TableMovie("The Sound of Music", 1965, DirectorNamed(Some("Robert Wise"))),
             TableMovie("2001: A Space Odyssey", 1968, DirectorNamed(Some("Stanley Kubrick")))]]

  /** The crew scan: the name of the first entry whose job is "Director". */
  function FirstDirector(crew: seq<CrewMember>): Director
  {
    if crew == [] then NoDirector
    else if crew[0].job == Some(DirectorJob) then DirectorNamed(crew[0].name)
    else FirstDirector(crew[1..])
  }

  /** There is a director exactly when some entry has that job, and it is the earliest such entry. */
  lemma {:induction false} FirstDirectorIsFirst(crew: seq<CrewMember>)
    ensures FirstDirector(crew).NoDirector? <==> forall i :: 0 <= i < |crew| ==> crew[i].job != Some(DirectorJob)
    ensures FirstDirector(crew).DirectorNamed? ==>
              exists i :: && 0 <= i < |crew| && crew[i].job == Some(DirectorJob)
                          && FirstDirector(crew).name == crew[i].name
                          && forall j :: 0 <= j < i ==> crew[j].job != Some(DirectorJob)
  {
    if crew != [] && crew[0].job != Some(DirectorJob) {
      FirstDirectorIsFirst(crew[1..]);
      assert forall i :: 1 <= i < |crew| ==> crew[i] == crew[1..][i - 1];
      if FirstDirector(crew).DirectorNamed? {
        var k :| && 0 <= k < |crew[1..]| && crew[1..][k].job == Some(DirectorJob)
                 && FirstDirector(crew[1..]).name == crew[1..][k].name
                 && forall j :: 0 <= j < k ==> crew[1..][j].job != Some(DirectorJob);
        assert forall j :: 1 <= j < k + 1 ==> crew[j] == crew[1..][j - 1];
        assert crew[k + 1].job == Some(DirectorJob);
      }
    }
  }

  /** `poster_url`: set exactly when `poster_path` is truthy (present and not empty). */
  function PosterUrl(posterPath: Option<string>): (r: Option<string>)
    ensures r.None? <==> posterPath.None? || posterPath.value == ""
    ensures r.Some? ==> |r.value| > |PosterBase| && r.value[..|PosterBase|] == PosterBase
                        && r.value[|PosterBase|..] == posterPath.value
  {
    if posterPath.Some? && posterPath.value != "" then Some(PosterBase + posterPath.value) else None
  }

  /** The record built for one discovery result, given the credits of its id. */
  function ApiRecord(result: DiscoveredMovie, year: int, crew: seq<CrewMember>): Movie
    requires result.id.Some?
  {
    ApiMovie(result.title.GetOr(UnknownTitle), year, result.id.value, PosterUrl(result.posterPath), FirstDirector(crew))
  }

  /**
   * The records for the given results, in order; None as soon as a result
   * has no id or its credits request fails (an exception in the source).
   */
  function ApiMovies(results: seq<DiscoveredMovie>, year: int, credits: int -> CreditsOutcome): Option<seq<Movie>>
  {
    if results == [] then Some([])
    else
      var n := |results| - 1;
      var last := results[n];
      match ApiMovies(results[..n], year, credits)
      case None => None
      case Some(movies) =>
        if last.id.None? then None
        else
          match credits(last.id.value)
          case CreditsFault => None
          case Credits(crew) => Some(movies + [ApiRecord(last, year, crew)])
  }

  /** `data.get('results', [])[:5]`. */
  function Top(results: seq<DiscoveredMovie>): (r: seq<DiscoveredMovie>)
    ensures |r| == if |results| <= MaxMovies then |results| else MaxMovies
    ensures r == results[..|r|]
  {
    if |results| <= MaxMovies then results else results[..MaxMovies]
  }

  /** The terminal tier: the curated movies of the decade, or one placeholder dated with the year. */
  function StaticMovies(year: int): (r: seq<Movie>)
    ensures r != []
    ensures Decade(year) in DecadeMovies ==> r == DecadeMovies[Decade(year)]
    ensures Decade(year) !in DecadeMovies ==> r == [TableMovie(NoMovieData, year, NoDirector)]
  {
    if Decade(year) in DecadeMovies then DecadeMovies[Decade(year)] else [TableMovie(NoMovieData, year, NoDirector)]
  }

  /** Whether the API tier answers. */
  predicate ApiAnswers(apiKey: string, discovery: DiscoveryOutcome, credits: int -> CreditsOutcome, year: int)
  {
    apiKey != "" && discovery.Discovery? && ApiMovies(Top(discovery.results), year, credits).Some?
  }

  /** What `get_movies_and_tv` returns for `date`. */
  function MoviesFor(date: CalendarDate, apiKey: string, discovery: DiscoveryOutcome, credits: int -> CreditsOutcome): seq<Movie>
  {
    if ApiAnswers(apiKey, discovery, credits, date.year) then ApiMovies(Top(discovery.results), date.year, credits).value
    else StaticMovies(date.year)
  }

  /** The loop with `break` over the crew entries. */
  method ScanCrew(crew: seq<CrewMember>) returns (director: Director)
    ensures director == FirstDirector(crew)
  {
    director := NoDirector;
    var i := 0;
    while i < |crew|
      invariant 0 <= i <= |crew|
      invariant FirstDirector(crew) == FirstDirector(crew[i..])
    {
      if crew[i].job == Some(DirectorJob) {
        director := DirectorNamed(crew[i].name);
        break;
      }
      assert crew[i..][1..] == crew[i + 1..];
      i := i + 1;
    }
  }

  /** One more result: its record is appended, unless it has no id or its credits fail. */
  lemma ApiMoviesSnoc(results: seq<DiscoveredMovie>, i: nat, year: int, credits: int -> CreditsOutcome)
    requires i < |results|
    ensures ApiMovies(results[..i + 1], year, credits) ==
              match ApiMovies(results[..i], year, credits)
              case None => None
              case Some(movies) =>
                if results[i].id.None? then None
                else
                  match credits(results[i].id.value)
                  case CreditsFault => None
                  case Credits(crew) => Some(movies + [ApiRecord(results[i], year, crew)])
  {
    assert results[..i + 1][..i] == results[..i];
  }

  /** A failure at some result fails the whole list, whatever follows. */
  lemma {:induction false} ApiMoviesFailFrom(results: seq<DiscoveredMovie>, i: nat, year: int, credits: int -> CreditsOutcome)
    requires i <= |results| && ApiMovies(results[..i], year, credits).None?
    ensures ApiMovies(results, year, credits).None?
    decreases |results| - i
  {
    if i < |results| {
      ApiMoviesSnoc(results, i, year, credits);
      ApiMoviesFailFrom(results, i + 1, year, credits);
    } else {
      assert results[..i] == results;
    }
  }

  /** The API tier: one record per result, appended in order; None where the source raises. */
  method FetchApiMovies(results: seq<DiscoveredMovie>, year: int, credits: int -> CreditsOutcome)
    returns (movies: Option<seq<Movie>>)
    ensures movies == ApiMovies(results, year, credits)
  {
    var collected := [];
    var i := 0;
    while i < |results|
      invariant 0 <= i <= |results|
      invariant ApiMovies(results[..i], year, credits) == Some(collected)
    {
      ApiMoviesSnoc(results, i, year, credits);
      var movie := results[i];
      if movie.id.None? {
        ApiMoviesFailFrom(results, i + 1, year, credits);
        return None;
      }
      match credits(movie.id.value)
      case CreditsFault =>
        ApiMoviesFailFrom(results, i + 1, year, credits);
        return None;
      case Credits(crew) =>
        var director := ScanCrew(crew);
        collected := collected + [ApiMovie(movie.title.GetOr(UnknownTitle), year, movie.id.value,
                                           PosterUrl(movie.posterPath), director)];
      i := i + 1;
    }
    assert results[..i] == results;
    movies := Some(collected);
  }

  /** `get_movies_and_tv`: the API tier when a key is configured and nothing fails, else the static table. */
  method GetMoviesAndTv(date: CalendarDate, apiKey: string, discovery: DiscoveryOutcome, credits: int -> CreditsOutcome)
    returns (movies: seq<Movie>)
    ensures movies == MoviesFor(date, apiKey, discovery, credits)
  {
    if apiKey != "" && discovery.Discovery? {
      var fetched := FetchApiMovies(Top(discovery.results), date.year, credits);
      if fetched.Some? {
        return fetched.value;
      }
    }
    movies := StaticMovies(date.year);
  }

  /**
   * Movie i of a successful API list describes result i: its title (or
   * "Unknown"), the requested year, its id, a poster address exactly when
   * the poster path is truthy, and the first director of its credits.
   */
  lemma {:induction false} ApiMoviesAt(results: seq<DiscoveredMovie>, year: int, credits: int -> CreditsOutcome, i: nat)
    requires ApiMovies(results, year, credits).Some? && i < |results|
    ensures results[i].id.Some? && credits(results[i].id.value).Credits?
    ensures var movies := ApiMovies(results, year, credits).value;
            && |movies| == |results|
            && movies[i] == ApiRecord(results[i], year, credits(results[i].id.value).crew)
  {
    var n := |results| - 1;
    ApiMoviesLength(results, year, credits);
    if i < n {
      ApiMoviesAt(results[..n], year, credits, i);
    }
  }

  /** A successful API list has one record per result. */
  lemma {:induction false} ApiMoviesLength(results: seq<DiscoveredMovie>, year: int, credits: int -> CreditsOutcome)
    requires ApiMovies(results, year, credits).Some?
    ensures |ApiMovies(results, year, credits).value| == |results|
  {
    if results != [] {
      ApiMoviesLength(results[..|results| - 1], year, credits);
    }
  }

  /** The API tier lists at most five movies, all of the requested year, in discovery order. */
  lemma ApiTierShape(date: CalendarDate, apiKey: string, discovery: DiscoveryOutcome, credits: int -> CreditsOutcome)
    requires ApiAnswers(apiKey, discovery, credits, date.year)
    ensures var movies := MoviesFor(date, apiKey, discovery, credits);
            && |movies| <= MaxMovies
            && |movies| == |Top(discovery.results)|
            && forall i :: 0 <= i < |movies| ==> movies[i].ApiMovie? && movies[i].year == date.year
  {
    var top := Top(discovery.results);
    ApiMoviesLength(top, date.year, credits);
    forall i | 0 <= i < |top| ensures ApiMovies(top, date.year, credits).value[i].ApiMovie?
                                && ApiMovies(top, date.year, credits).value[i].year == date.year {
      ApiMoviesAt(top, date.year, credits, i);
    }
  }

  /** Without a key, or when discovery or any of the first five credits requests fails, the static table answers. */
  lemma StaticTierWhenApiFails(date: CalendarDate, apiKey: string, discovery: DiscoveryOutcome, credits: int -> CreditsOutcome, i: nat)
    requires || apiKey == ""
             || discovery.DiscoveryFault?
             || (&& discovery.Discovery? && i < |Top(discovery.results)|
                 && (Top(discovery.results)[i].id.None? || credits(Top(discovery.results)[i].id.value).CreditsFault?))
    ensures MoviesFor(date, apiKey, discovery, credits) == StaticMovies(date.year)
    ensures MoviesFor(date, apiKey, discovery, credits) != []
  {
    if apiKey != "" && discovery.Discovery? {
      var top := Top(discovery.results);
      if ApiMovies(top, date.year, credits).Some? {
        ApiMoviesAt(top, date.year, credits, i);
      }
    }
  }
}
