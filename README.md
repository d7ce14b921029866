# RetroDay fact resolution, modelled in Dafny

RetroDay is a desktop application. The user picks a birth date, and it shows what the world looked like then: historical events of that day, the year's popular movies, and the music, technology and fashion of the decade. This project models how `main.py` turns one date into those facts. It also proves what that resolution promises about tier order, formatting, caps, fallbacks and the image cache.

The files:

- `wrappers.dfy` (module `Wrappers`): an `Option` datatype.
- `text.dfy` (module `Text`): the Python string operations the resolver relies on:
  - `str.strip()` over the characters `str.isspace()` accepts;
  - `str.split("\n")` and its inverse `join`;
  - `str(n)` for natural numbers;
  - `str.lower()` on ASCII letters.
- `calendar.dfy` (module `Calendar`):
  - the dates `datetime` accepts (years 1 to 9999, proleptic Gregorian leap years);
  - the decade bucket `(year // 10) * 10` and its label `"{decade}s"`;
  - the drop-down choices;
  - the date check of `time_travel`.
- `events.dfy` (module `Events`): `get_historical_events`, a three-tier chain:
  1. The encyclopedia article is searched for year lines, then decade lines, then an "Events" section.
  2. If the page does not exist, the day page of a history site is scraped.
  3. If the scrape fails, a static decade table answers.

  Any other lookup fault yields one notice. The loops are methods proved against recursive specification functions.
- `movies.dfy` (module `Movies`): `get_movies_and_tv`:
  - the first five discovery results, each with the first crew member whose job is "Director" and a poster address;
  - any failure discards partial results, and the static table answers.

  The loops, including the crew scan with `break`, are methods proved against recursive functions.
- `eras.dfy` (module `Eras`): `get_music`, `get_technology`, `get_fashion`. Each is a decade-keyed table, copied verbatim, with a placeholder default.
- `image_cache.dfy` (module `ImageCache`): `download_image`.
  - A class `Cache` holds the cache directory (a map from path to bytes) and a download counter. Its method is proved against the pure function `Fetch`.
  - Cache paths are built as POSIX `os.path.join` builds them.
- `retro_day.dfy` (module `RetroDay`): `time_travel` followed by `collect_and_display_data`. The five categories are resolved in order and delivered together with the decade label.

External sources are inputs:
- the article lookup (`WikiOutcome`);
- the regular-expression captures (fields of `Article`);
- the scraped page (`ScrapeOutcome`);
- the media API (`DiscoveryOutcome`, and a `credits` function from movie id to `CreditsOutcome`);
- the HTTP answer for an image (`HttpOutcome`);
- the result of `int()` on the day and year text (`Option<int>`, None where it raises).

Exceptions are variants of these datatypes or `None` results.

The year drop-down offers 1950 to the current year, but it is editable, and `time_travel` checks only what `datetime` checks. The model therefore accepts any year from 1 to 9999 (`Calendar.TimeTravel`); `Calendar.YearOptions` models only the offered list.

## Model

| member | source | states |
|---|---|---|
| Calendar.Decade | main.py:179 | the bucket is a multiple of ten with `bucket <= year < bucket + 10` |
| Calendar.DecadeUnique | main.py:727 | that property determines the bucket: no other multiple of ten satisfies it |
| Calendar.DecadeOfBucket | main.py:787 | every year of a decade has the same bucket, and a bucket is its own bucket |
| Calendar.DecadeStyle | main.py:179-180 | the label is a decimal numeral followed by `s`, and the numeral reads back as the decade bucket |
| Calendar.DaysInMonth | main.py:160-161 | months have 28 to 31 days; February has 29 exactly in leap years |
| Calendar.LeapDay | main.py:160-166 | `datetime` accepts February 29 exactly in leap years and never February 30 |
| Calendar.YearLength | main.py:160-161 | the month lengths add up to 366 days in a leap year and 365 otherwise |
| Calendar.IndexOf | main.py:155 | `list.index`: the first position holding the name; absent (Python raises) exactly when the name is not in the list |
| Calendar.YearOptions | main.py:93 | the offered years are exactly 1950 to the current year, in increasing order |
| Calendar.DayOptions | main.py:86 | the offered days are exactly 1 to 31 |
| Calendar.SelectableDates | main.py:86-93 | an offered day and year with a month are accepted exactly when the day exists in that month |
| Calendar.TimeTravel | main.py:153-172 | the generic error exactly when the month name is unknown, `int()` fails on day or year, or day or year lies outside the C `int` range (the `OverflowError` of `datetime` escapes the `ValueError` handler); otherwise a resolution starts for the triple when `datetime` accepts it, and "Invalid Date" is shown when it does not |
| Calendar.FebruaryIsMonthTwo | main.py:155 | the month drop-down's "February" is month 2 |
| Calendar.RejectedDates | main.py:160-166 | February 30 2023, day 0 and day 32 report an invalid date for any month name the list holds and any year within the C `int` range |
| Calendar.OverflowingYear | main.py:153-172 | a year just beyond the C `int` range gets the generic error, not "Invalid Date" |
| Calendar.IsValidDate | main.py:161 | every date `datetime` accepts has a year from 1 to 9999 and is one of the 365 or 366 days of its year: its day of the year lies between 1 and the year's length |
| Calendar.MonthNamesDistinct | main.py:79 | the twelve month names are pairwise distinct |
| Calendar.MonthDayTextInjective | main.py:720 | a month name (lower-cased or not), a separator that is not a letter and a day numeral determine the month and the day |
| Text.TrimStartSpec | main.py:739-740 | `lstrip` removes only white space, and all of the leading white space |
| Text.TrimEndSpec | main.py:739-740 | `rstrip` removes only white space, and all of the trailing white space |
| Text.TrimStartHead | main.py:740 | what `lstrip` leaves does not start with white space |
| Text.TrimEndLast | main.py:740 | what `rstrip` leaves does not end with white space |
| Text.LowerAscii | main.py:766 | `lower()` on the month names it is applied to, which are ASCII: the length is kept, each ASCII capital is lower-cased and every other character is left as it is |
| Text.StripEmptyIff | main.py:739 | `strip()` is empty exactly when the line is blank, so the truth test drops exactly the blank lines |
| Text.StripEnds | main.py:740 | a stripped non-empty line neither starts nor ends with white space |
| Text.StripIdempotent | main.py:740 | stripping a stripped line changes nothing |
| Text.Split | main.py:738 | `split("\n")` yields at least one piece, no piece holds a newline, and joining the pieces with newlines gives back the text |
| Text.SplitJoin | main.py:738 | splitting undoes joining newline-free pieces |
| Text.NatToString | main.py:740 | `str(year)` is a non-empty numeral of digits without leading zero |
| Text.NatToStringRoundTrip | main.py:740 | reading the numeral back gives the number, so distinct years get distinct prefixes |
| Events.PageKeyInjective | main.py:716-720 | the article title `{month}_{day}` names the date's month and day: distinct month-days ask for distinct articles |
| Events.ScrapeUrlInjective | main.py:766 | the day page address names the date's month and day: distinct month-days fetch distinct pages |
| Events.LabelledEmptyIff | main.py:736-740 | a capture list yields no events exactly when every one of its lines is blank |
| Events.LabelledShape | main.py:740 | every event reads `"{tag}: {text}"` with `text` non-empty and free of surrounding white space |
| Events.LabelledAppend | main.py:736-740 | lines contribute in source order: the events of `a + b` are those of `a` followed by those of `b` |
| Events.LabelLines | main.py:738-740 | the loop over the lines of one capture builds exactly the labelled non-blank lines |
| Events.CollectLabelled | main.py:736-740 | the nested loop over all captures builds the labelled non-blank lines of all captures, in order |
| Events.Cap | main.py:761 | `events[:10]` holds the first ten events, or all of them when there are fewer |
| Events.SectionEventsAt | main.py:777-779 | scraped item i becomes event i, `"{heading}: {item.strip()}"`; blank items are kept |
| Events.SectionLines | main.py:777-779 | the loop over one section's items builds exactly those events |
| Events.ScrapeEvents | main.py:771-779 | the loop over the sections builds the scraped events, or fails where a section has no heading |
| Events.ScrapedEventsFail | main.py:774 | the scrape fails exactly when some section lacks its heading, wherever it is |
| Events.ScrapedEventsFailFrom | main.py:774 | one section without heading fails the scrape, whatever was gathered before it |
| Events.StaticEvents | main.py:787-802 | the static tier is never empty: the curated list for a curated decade, the single placeholder otherwise |
| Events.YearMatchesFirst | main.py:733-740 | year captures with a non-blank line decide the events; decade captures and the section are not consulted |
| Events.DecadeMatchesSecond | main.py:743-751 | decade captures are consulted only when every year line is blank, and then decide over the section |
| Events.SectionItemsLast | main.py:753-759 | the section items, unprefixed, are used only when year and decade lines are all blank; nothing when the section is absent |
| Events.FirstEventNamesYear | main.py:740 | when the year captures hold text, the first event is `"{year}: ..."` |
| Events.SearchArticle | main.py:727-761 | the article tier returns the capped result of the three searches in precedence order |
| Events.ScrapeTierIff | main.py:763-784 | the scrape tier answers exactly when the page is missing and every section has a heading; the static tier exactly when the page is missing and the scrape raises |
| Events.EventsByTier | main.py:712-806 | a live tier returns a prefix of what it found, at most 10 events, possibly none; the static tier a non-empty list; any other lookup fault exactly the one notice |
| Events.EmptyOnlyFromLiveTier | main.py:761-781 | an empty result comes only from a live tier, never from the static table or the fault notice |
| Events.StaticEventsOffline | main.py:787-802 | with the page missing and the scrape failing, a 1950s or 1960s date gets the three curated events verbatim |
| Events.GetHistoricalEvents | main.py:712-806 | returns the events of the tier chain; the article is requested first, and the history site is requested, once, exactly when the page is missing |
| Movies.FirstDirectorIsFirst | main.py:838-841 | the director is absent exactly when no crew entry has job "Director"; otherwise it is the name of the earliest such entry |
| Movies.ScanCrew | main.py:838-841 | the crew loop with `break` finds exactly that first director |
| Movies.PosterUrl | main.py:830 | the poster address is absent exactly when the poster path is falsy; otherwise it is the image base followed by the path |
| Movies.Top | main.py:825 | `results[:5]` holds the first five results, or all of them when there are fewer |
| Movies.ApiMoviesFailFrom | main.py:833-848 | a result without id or a failed credits request discards everything, whatever follows |
| Movies.FetchApiMovies | main.py:825-845 | the loop over the results builds one record per result, in order, or fails as the source raises |
| Movies.ApiMoviesAt | main.py:826-843 | movie i describes result i: its title or "Unknown", the requested year, its id, its poster address and the first director of its credits |
| Movies.ApiMoviesLength | main.py:825-843 | a successful API list has one record per result |
| Movies.GetMoviesAndTv | main.py:808-867 | returns the API list when a key is set and nothing fails, else the static table |
| Movies.StaticMovies | main.py:850-867 | the static tier is never empty: the curated list for 1950 and 1960; outside the curated decades it is the one placeholder dated with the year |
| Movies.ApiTierShape | main.py:815-845 | the API tier lists at most five movies, one per top result, all of the requested year |
| Movies.StaticTierWhenApiFails | main.py:815-867 | an empty key, a failed discovery, or a bad entry among the first five results discards partial results; the static table answers, never empty |
| Eras.GetMusic | main.py:873-915 | the curated record for 1950 and 1960; otherwise the fixed placeholder record, with one entry per list; no list is ever empty |
| Eras.GetTechnology | main.py:925-957 | the curated record for 1950 and 1960; otherwise the fixed placeholder record, with one entry per list; no list and no description is ever empty |
| Eras.GetFashion | main.py:967-1007 | the curated record for 1950 and 1960; otherwise the fixed placeholder record, with one entry per list; no list is ever empty |
| Eras.CuratedDiffersFromPlaceholder | main.py:883-1007 | curated records hold several entries per list and are never the placeholder |
| Eras.SameDecadeSameRecords | main.py:877 | all years of one decade get the same music, technology and fashion |
| ImageCache.JoinPathSpec | main.py:1021 | POSIX `os.path.join`: the path ends with the name; an absolute name replaces the directory; otherwise the path starts with the directory, with one `/` between them unless the directory is empty or ends with `/` |
| ImageCache.CachePathShape | main.py:1021 | the cache path is `cache/{filename}.jpg`, or `{filename}.jpg` for an absolute identifier |
| ImageCache.CachePathInjective | main.py:1021 | distinct identifiers never share a cache path |
| ImageCache.Fetch | main.py:1017-1034 | a request is issued exactly on a cache miss, and a hit leaves the directory as it is; a returned path is the cache path and is present; no path means a download that failed or was not 200, and the directory is unchanged; every other path keeps its presence and its bytes |
| ImageCache.FetchMiss | main.py:1026-1034 | on a miss a path is returned exactly on status 200, and the file then holds the answer's bytes |
| ImageCache.FetchIdempotent | main.py:1021-1030 | after a success, a second call returns the same path, changes nothing and issues no request |
| ImageCache.FetchLeavesOthers | main.py:1021-1030 | a call never touches the cache path of another identifier |
| ImageCache.Cache.constructor | main.py:1017-1022 | the cache starts from the directory as found, with no downloads |
| ImageCache.Cache.DownloadImage | main.py:1017-1034 | the new directory, the returned path and the download count are those `Fetch` gives for the old directory |
| ImageCache.DownloadTwice | main.py:1021-1030 | two calls with one identifier: after a success the second returns the same path with at most one download; a hit needs none, a miss exactly one; a failure costs two |
| RetroDay.CollectAndDisplayData | main.py:175-200 | the bundle holds the decade label and the five categories, each resolved from its own sources |
| RetroDay.TimeTravelAndCollect | main.py:147-200 | a bundle is delivered exactly when the date check starts a resolution, for that date; "Invalid Date" exactly when `datetime` raises `ValueError` for the triple (a day or year beyond the C `int` range raises `OverflowError` and gets the generic error instead) |
| RetroDay.ResolveTwice | main.py:175-200 | resolving one date twice against the same answers gives identical bundles |
| RetroDay.CategoriesIndependent | main.py:196-200 | events depend only on the article and scrape answers, movies only on the media API, and the rest only on the date |
| RetroDay.OfflineCuratedBundle | main.py:787-1007 | with the page missing, the scrape failing and no API key, a 1950s or 1960s date gets the curated content of every category verbatim |
| RetroDay.NetworkDownBundle | main.py:804-806 | with the article lookup failing otherwise than by a missing page and the discovery request failing, the events are the single failure notice, for curated decades too, and the movies are the non-empty static table |
| RetroDay.BundleEmptyOnlyFromLiveSources | main.py:712-1015 | an empty events or movies list comes only from a live source that answered with nothing; music, technology and fashion are never empty |

## Left out

- Widget construction, the tabs and their rendering, the decade colour themes and the palette switch: presentation only.
- The background thread of `time_travel` and the `root.after` hand-over to the UI thread: concurrency. The model resolves one date to completion.
- The network (`requests`, the encyclopedia client), the regular-expression engine and the HTML parser. Their results are inputs. The model does not state which captures a pattern finds in a given article text.
- `random.choice` of the highlighted event and trivia, and image resizing: nondeterministic or foreign.
- Reading the API-key file (`setup_api_keys`): file input. Only "key empty or not" matters, and the key is an input string.
- The news API key: read but never used by the resolution.
- The outer `except` handlers of `get_movies_and_tv`, `get_music`, `get_technology` and `get_fashion`. Nothing in their `try` blocks can raise once the inner handlers have caught the network faults, so those branches are unreachable.
- Writing the image file can fail (a missing `cache` directory, a full disk). `download_image` would then return None. `ImageCache.Cache.DownloadImage` treats every write as successful.
- ImageCache.CachePathInjective: cache paths are compared as text. `.` and `..` are not resolved as `os.path.exists` and `open` resolve them, so the identifiers `x` and `./x` get distinct paths in the model but name the same file `cache/x.jpg` in the source. The only caller passes `movie_<id>` (main.py:400), which holds no such component.
- `ImageCache.JoinPath` follows POSIX `os.path.join`. The Windows rules (drive letters, backslashes) are not modelled.
- A JSON `null` title or id in a discovery result is treated like a missing key. In the source, a null title would become a `None` title, and a null id would be passed to the credits request.
- The 1950 lower bound on birth years: `time_travel` does not enforce it, because the year box is editable. `Calendar.YearOptions` only models the offered list.
