/**
 * The events category (main.py, `get_historical_events`): a three-tier
 * chain. The encyclopedia article for the day is searched for lines about
 * the year, then about the decade, then for an "Events" section; if the
 * page does not exist the day page of a history site is scraped; if that
 * fails too a static table keyed by decade answers. Any other fault of the
 * article lookup yields a single notice.
 *
 * The article lookup, the regular expressions and the HTML parser are not
 * modelled: their results arrive as values of the datatypes below.
 */
module Events {
  import opened Wrappers
  import opened Text
  import opened Calendar

  /**
   * What the regular expressions found in the article's content: the
   * captures of the year pattern and of the decade pattern (`findall`), and
   * the bulleted items of the "== Events ==" section (None when that section
   * is absent).
   */
  datatype Article = Article(yearMatches: seq<string>, decadeMatches: seq<string>, sectionItems: Option<seq<string>>)

  /** The outcome of `wikipedia.page(...)` and of reading its content. */
  datatype WikiOutcome =
    | PageFound(article: Article)
    | PageError     // the page does not exist: the scrape tier is tried
    | LookupFault   // any other exception: caught by the outermost handler

  /** One `<section class="event-list">`: the text of its `<h3>` (None when absent) and of its `<li>` items. */
  datatype Section = Section(heading: Option<string>, items: seq<string>)

  /** The outcome of fetching and parsing the day page; any exception there is `ScrapeFault`. */
  datatype ScrapeOutcome = Scraped(sections: seq<Section>) | ScrapeFault

  /** The external requests a resolution issues, in order. */
  datatype Request = WikiLookup(page: string) | ScrapeFetch(url: string)

  /** Which tier produced the events. */
  datatype Tier = ArticleTier | ScrapeTier | StaticTier | FailureNotice

  const MaxEvents: nat := 10
  const LookupFailureNotice: string := "Could not retrieve historical events."
  const NoEventsNotice: string := "No specific historical events found for this date."
  const ScrapeSite: string := "https://www.onthisday.com/day/"

  /** The curated events of the static tier. */
  const DecadeEvents: map<int, seq<string>> := map[
    1950 := ["The post-war economic boom leads to suburban expansion",
             "Rock 'n' roll music emerges as a cultural force",
             "The Cold War begins between the US and Soviet Union"],
    1960 := ["Civil Rights Movement gains momentum",
             "The Beatles revolutionize popular music",
             "Humans land on the moon (1969)"]]

  /** The article title `f"{month_name}_{day}"`. */
  function PageKey(date: CalendarDate): string
  {
    MonthText(date.month, false) + "_" + NatToString(date.day)
  }

  /** The day page `f".../day/{month_name.lower()}/{day}"`. */
  function ScrapeUrl(date: CalendarDate): string
  {
    ScrapeSite + (MonthText(date.month, true) + "/" + NatToString(date.day))
  }

  /** Distinct month-days ask for distinct articles: the key names the month and the day. */
  lemma PageKeyInjective(a: CalendarDate, b: CalendarDate)
    requires PageKey(a) == PageKey(b)
    ensures a.month == b.month && a.day == b.day
  {
    MonthDayTextInjective(a.month, a.day, b.month, b.day, '_', false);
  }

  /** Distinct month-days fetch distinct day pages: the address names the month and the day. */
  lemma ScrapeUrlInjective(a: CalendarDate, b: CalendarDate)
    requires ScrapeUrl(a) == ScrapeUrl(b)
    ensures a.month == b.month && a.day == b.day
  {
    PrefixCancel(ScrapeSite, MonthText(a.month, true) + "/" + NatToString(a.day),
                             MonthText(b.month, true) + "/" + NatToString(b.day));
    MonthDayTextInjective(a.month, a.day, b.month, b.day, '/', true);
  }

  /** All lines of all captures, in order: the concatenation of each capture's `split("\n")`. */
  function Lines(matches: seq<string>): seq<string>
  {
    if matches == [] then []
    else Lines(matches[..|matches| - 1]) + Split(matches[|matches| - 1], '\n')
  }

  /** `e` reads `"{tag}: {text}"` where `text` is non-blank and has no surrounding white space. */
  predicate IsLabelledLine(tag: string, e: string)
  {
    var n := |tag| + 2;
    && |e| > n
    && e[..n] == tag + ": "
    && !IsSpace(e[n]) && !IsSpace(e[|e| - 1])
  }

  /** Each non-blank line, stripped and prefixed with `"{tag}: "`, in order. */
  function Labelled(tag: string, lines: seq<string>): (r: seq<string>)
    ensures |r| <= |lines|
  {
    if lines == [] then []
    else
      var text := Strip(lines[|lines| - 1]);
      var init := Labelled(tag, lines[..|lines| - 1]);
      if text == [] then init else init + [tag + ": " + text]
  }

  /** No events come out exactly when every line is blank. */
  lemma {:induction false} LabelledEmptyIff(tag: string, lines: seq<string>)
    ensures Labelled(tag, lines) == [] <==> forall i :: 0 <= i < |lines| ==> IsBlank(lines[i])
  {
    if lines != [] {
      var n := |lines| - 1;
      StripEmptyIff(lines[n]);
      LabelledEmptyIff(tag, lines[..n]);
      assert forall i :: 0 <= i < n ==> lines[..n][i] == lines[i];
    }
  }

  /** Every event reads `"{tag}: {text}"` with `text` a non-blank, stripped line. */
  lemma {:induction false} LabelledShape(tag: string, lines: seq<string>)
    ensures forall i :: 0 <= i < |Labelled(tag, lines)| ==> IsLabelledLine(tag, Labelled(tag, lines)[i])
  {
    if lines != [] {
      var n := |lines| - 1;
      var init := Labelled(tag, lines[..n]);
      LabelledShape(tag, lines[..n]);
      var text := Strip(lines[n]);
      if text != [] {
        StripEnds(lines[n]);
        LabelledLineOf(tag, text);
      }
    }
  }

  /** A non-blank text that neither starts nor ends with white space, prefixed with the tag, is a labelled line. */
  lemma LabelledLineOf(tag: string, text: string)
    requires text != [] && !IsSpace(text[0]) && !IsSpace(text[|text| - 1])
    ensures IsLabelledLine(tag, tag + ": " + text)
  {
    var e := tag + ": " + text;
    assert e[..|tag| + 2] == tag + ": ";
    assert e[|tag| + 2] == text[0];
  }

  /** Lines contribute in source order: the events of a longer text extend those of its beginning. */
  lemma {:induction false} LabelledAppend(tag: string, a: seq<string>, b: seq<string>)
    ensures Labelled(tag, a + b) == Labelled(tag, a) + Labelled(tag, b)
  {
    if b == [] {
      assert a + b == a;
    } else {
      var n := |b| - 1;
      assert (a + b)[..|a + b| - 1] == a + b[..n];
      LabelledAppend(tag, a, b[..n]);
    }
  }

  /**
   * `events` after the article searches, before the cap: lines of the year
   * captures; if none is non-blank, lines of the decade captures; if none is
   * non-blank either, the items of the "Events" section as they are.
   */
  function ArticleEvents(year: nat, article: Article): seq<string>
  {
    var byYear := Labelled(NatToString(year), Lines(article.yearMatches));
    if byYear != [] then byYear
    else
      var byDecade := Labelled(DecadeStyle(year), Lines(article.decadeMatches));
      if byDecade != [] then byDecade
      else article.sectionItems.GetOr([])
  }

  /** `events[:10]`. */
  function Cap(events: seq<string>): (r: seq<string>)
    ensures |r| == if |events| <= MaxEvents then |events| else MaxEvents
    ensures r == events[..|r|]
  {
    if |events| <= MaxEvents then events else events[..MaxEvents]
  }

  /** The items of one section, each as `"{heading}: {item.strip()}"`. */
  function SectionEvents(heading: string, items: seq<string>): (r: seq<string>)
    ensures |r| == |items|
  {
    if items == [] then []
    else SectionEvents(heading, items[..|items| - 1]) + [heading + ": " + Strip(items[|items| - 1])]
  }

  /** Item i of a section becomes event i, prefixed with the stripped heading; blank items are kept. */
  lemma {:induction false} SectionEventsAt(heading: string, items: seq<string>, i: nat)
    requires i < |items|
    ensures SectionEvents(heading, items)[i] == heading + ": " + Strip(items[i])
  {
    var n := |items| - 1;
    var front := SectionEvents(heading, items[..n]);
    assert SectionEvents(heading, items) == front + [heading + ": " + Strip(items[n])];
    if i < n {
      SectionEventsAt(heading, items[..n], i);
      assert items[..n][i] == items[i];
      assert SectionEvents(heading, items)[i] == front[i];
    }
  }

  /** The events of the scraped page, or None when some section has no heading (an exception in the source). */
  function ScrapedEvents(sections: seq<Section>): Option<seq<string>>
  {
    if sections == [] then Some([])
    else
      var n := |sections| - 1;
      match ScrapedEvents(sections[..n])
      case None => None
      case Some(events) =>
        match sections[n].heading
        case None => None
        case Some(heading) => Some(events + SectionEvents(Strip(heading), sections[n].items))
  }

  /** The terminal tier: the curated events of the decade, or a single placeholder. */
  function StaticEvents(decade: int): (r: seq<string>)
    ensures r != []
    ensures decade in DecadeEvents ==> r == DecadeEvents[decade]
    ensures decade !in DecadeEvents ==> r == [NoEventsNotice]
  {
    if decade in DecadeEvents then DecadeEvents[decade] else [NoEventsNotice]
  }

  /** Which tier answers, given what the article lookup and the scrape produced. */
  function EventsTier(wiki: WikiOutcome, scrape: ScrapeOutcome): Tier
  {
    match wiki
    case PageFound(_) => ArticleTier
    case LookupFault => FailureNotice
    case PageError =>
      if scrape.Scraped? && ScrapedEvents(scrape.sections).Some? then ScrapeTier else StaticTier
  }

  /** What `get_historical_events` returns for `date`. */
  function EventsFor(date: CalendarDate, wiki: WikiOutcome, scrape: ScrapeOutcome): seq<string>
  {
    match EventsTier(wiki, scrape)
    case ArticleTier => Cap(ArticleEvents(date.year, wiki.article))
    case ScrapeTier => Cap(ScrapedEvents(scrape.sections).value)
    case StaticTier => StaticEvents(Decade(date.year))
    case FailureNotice => [LookupFailureNotice]
  }

  /** One more line extends the events by that line, if it is not blank. */
  lemma LabelledSnoc(tag: string, lines: seq<string>, line: string)
    ensures Labelled(tag, lines + [line]) ==
              if Strip(line) == [] then Labelled(tag, lines) else Labelled(tag, lines) + [tag + ": " + Strip(line)]
  {
    assert (lines + [line])[..|lines|] == lines;
  }

  /** One more capture adds its lines. */
  lemma LinesSnoc(matches: seq<string>, i: nat)
    requires i < |matches|
    ensures Lines(matches[..i + 1]) == Lines(matches[..i]) + Split(matches[i], '\n')
  {
    assert matches[..i + 1][..i] == matches[..i];
  }

  /** The inner loop of the article search: the lines of one capture. */
  method LabelLines(tag: string, lines: seq<string>) returns (events: seq<string>)
    ensures events == Labelled(tag, lines)
  {
    events := [];
    var j := 0;
    while j < |lines|
      invariant 0 <= j <= |lines|
      invariant events == Labelled(tag, lines[..j])
    {
      assert lines[..j + 1] == lines[..j] + [lines[j]];
      LabelledSnoc(tag, lines[..j], lines[j]);
      var text := Strip(lines[j]);
      if text != [] {
        events := events + [tag + ": " + text];
      }
      j := j + 1;
    }
    assert lines[..j] == lines;
  }

  /** The outer loop of the article search: the captures of one pattern, in order. */
  method CollectLabelled(tag: string, matches: seq<string>) returns (events: seq<string>)
    ensures events == Labelled(tag, Lines(matches))
  {
    events := [];
    var i := 0;
    while i < |matches|
      invariant 0 <= i <= |matches|
      invariant events == Labelled(tag, Lines(matches[..i]))
    {
      var lines := Split(matches[i], '\n');
      var more := LabelLines(tag, lines);
      LinesSnoc(matches, i);
      LabelledAppend(tag, Lines(matches[..i]), lines);
      events := events + more;
      i := i + 1;
    }
    assert matches[..i] == matches;
  }

  /** One more item adds its line. */
  lemma SectionEventsSnoc(heading: string, items: seq<string>, j: nat)
    requires j < |items|
    ensures SectionEvents(heading, items[..j + 1]) == SectionEvents(heading, items[..j]) + [heading + ": " + Strip(items[j])]
  {
    assert items[..j + 1][..j] == items[..j];
  }

  /** One more section adds its items, provided it has a heading. */
  lemma ScrapedEventsSnoc(sections: seq<Section>, i: nat)
    requires i < |sections|
    ensures ScrapedEvents(sections[..i + 1]) ==
              match ScrapedEvents(sections[..i])
              case None => None
              case Some(events) =>
                match sections[i].heading
                case None => None
                case Some(heading) => Some(events + SectionEvents(Strip(heading), sections[i].items))
  {
    assert sections[..i + 1][..i] == sections[..i];
  }

  /** The inner loop of the scrape: the items of one section. */
  method SectionLines(heading: string, items: seq<string>) returns (events: seq<string>)
    ensures events == SectionEvents(heading, items)
  {
    events := [];
    var j := 0;
    while j < |items|
      invariant 0 <= j <= |items|
      invariant events == SectionEvents(heading, items[..j])
    {
      SectionEventsSnoc(heading, items, j);
      events := events + [heading + ": " + Strip(items[j])];
      j := j + 1;
    }
    assert items[..j] == items;
  }

  /** The outer loop of the scrape: the sections in page order; None where the source raises. */
  method ScrapeEvents(sections: seq<Section>) returns (events: Option<seq<string>>)
    ensures events == ScrapedEvents(sections)
  {
    var collected := [];
    var i := 0;
    while i < |sections|
      invariant 0 <= i <= |sections|
      invariant ScrapedEvents(sections[..i]) == Some(collected)
    {
      ScrapedEventsSnoc(sections, i);
      if sections[i].heading.None? {
        ScrapedEventsFailFrom(sections, i);
        return None;
      }
      var more := SectionLines(Strip(sections[i].heading.value), sections[i].items);
      collected := collected + more;
      i := i + 1;
    }
    assert sections[..i] == sections;
    events := Some(collected);
  }

  /** The scrape fails exactly when some section lacks its heading, wherever that section is. */
  lemma {:induction false} ScrapedEventsFail(sections: seq<Section>)
    ensures ScrapedEvents(sections).None? <==> exists i :: 0 <= i < |sections| && sections[i].heading.None?
  {
    if sections != [] {
      var n := |sections| - 1;
      ScrapedEventsFail(sections[..n]);
      assert forall i :: 0 <= i < n ==> sections[..n][i] == sections[i];
    }
  }

  /** A section without heading makes everything gathered before it irrelevant. */
  lemma {:induction false} ScrapedEventsFailFrom(sections: seq<Section>, i: nat)
    requires i < |sections| && sections[i].heading.None?
    ensures ScrapedEvents(sections) == None
  {
    ScrapedEventsFail(sections);
  }

  /** Some line of the captures has a non-white-space character. */
  predicate HasText(matches: seq<string>)
  {
    exists i :: 0 <= i < |Lines(matches)| && !IsBlank(Lines(matches)[i])
  }

  /** Year captures with text decide the article's events; the decade captures and the section are not consulted. */
  lemma YearMatchesFirst(year: nat, article: Article, decadeMatches: seq<string>, sectionItems: Option<seq<string>>)
    requires HasText(article.yearMatches)
    ensures ArticleEvents(year, article) == Labelled(NatToString(year), Lines(article.yearMatches))
    ensures ArticleEvents(year, article) == ArticleEvents(year, Article(article.yearMatches, decadeMatches, sectionItems))
  {
    LabelledEmptyIff(NatToString(year), Lines(article.yearMatches));
  }

  /** Decade captures are consulted only when every year line is blank, and then win over the section. */
  lemma DecadeMatchesSecond(year: nat, article: Article, sectionItems: Option<seq<string>>)
    requires !HasText(article.yearMatches) && HasText(article.decadeMatches)
    ensures ArticleEvents(year, article) == Labelled(DecadeStyle(year), Lines(article.decadeMatches))
    ensures ArticleEvents(year, article) == ArticleEvents(year, Article(article.yearMatches, article.decadeMatches, sectionItems))
  {
    LabelledEmptyIff(NatToString(year), Lines(article.yearMatches));
    LabelledEmptyIff(DecadeStyle(year), Lines(article.decadeMatches));
  }

  /** The "Events" section is the last resort: its items, unprefixed, or nothing when it is absent. */
  lemma SectionItemsLast(year: nat, article: Article)
    requires !HasText(article.yearMatches) && !HasText(article.decadeMatches)
    ensures ArticleEvents(year, article) == article.sectionItems.GetOr([])
  {
    LabelledEmptyIff(NatToString(year), Lines(article.yearMatches));
    LabelledEmptyIff(DecadeStyle(year), Lines(article.decadeMatches));
  }

  /**
   * A date whose article has a year block with text: the first event is
   * `"{year}: ..."` (for 20 July 1969, `"1969: ..."`).
   */
  lemma FirstEventNamesYear(date: CalendarDate, article: Article, scrape: ScrapeOutcome)
    requires HasText(article.yearMatches)
    ensures var events := EventsFor(date, PageFound(article), scrape);
            var tag := NatToString(date.year);
            events != [] && IsLabelledLine(tag, events[0])
  {
    var tag := NatToString(date.year);
    YearMatchesFirst(date.year, article, article.decadeMatches, article.sectionItems);
    LabelledEmptyIff(tag, Lines(article.yearMatches));
    LabelledShape(tag, Lines(article.yearMatches));
  }

  /** The scrape tier answers exactly when the page is missing and every scraped section has a heading. */
  lemma ScrapeTierIff(wiki: WikiOutcome, scrape: ScrapeOutcome)
    ensures EventsTier(wiki, scrape) == ScrapeTier <==>
              && wiki.PageError? && scrape.Scraped?
              && forall i :: 0 <= i < |scrape.sections| ==> scrape.sections[i].heading.Some?
    ensures EventsTier(wiki, scrape) == StaticTier <==>
              && wiki.PageError?
              && (scrape.ScrapeFault? || exists i :: 0 <= i < |scrape.sections| && scrape.sections[i].heading.None?)
  {
    if scrape.Scraped? {
      ScrapedEventsFail(scrape.sections);
    }
  }

  /**
   * The live tiers return at most ten events, a prefix of what they found,
   * possibly none; the static tier is consulted for no other reason than a
   * failed scrape, and it never returns an empty list.
   */
  lemma EventsByTier(date: CalendarDate, wiki: WikiOutcome, scrape: ScrapeOutcome)
    ensures var events := EventsFor(date, wiki, scrape);
            match EventsTier(wiki, scrape)
            case ArticleTier =>
              var found := ArticleEvents(date.year, wiki.article);
              |events| <= MaxEvents && events == found[..|events|] && (|found| <= MaxEvents ==> events == found)
            case ScrapeTier =>
              var found := ScrapedEvents(scrape.sections).value;
              |events| <= MaxEvents && events == found[..|events|] && (|found| <= MaxEvents ==> events == found)
            case StaticTier => events == StaticEvents(Decade(date.year)) && events != []
            case FailureNotice => events == [LookupFailureNotice]
  {
  }

  /** An empty events list can only come from a live tier that found nothing. */
  lemma EmptyOnlyFromLiveTier(date: CalendarDate, wiki: WikiOutcome, scrape: ScrapeOutcome)
    requires EventsFor(date, wiki, scrape) == []
    ensures EventsTier(wiki, scrape) == ArticleTier || EventsTier(wiki, scrape) == ScrapeTier
  {
  }

  /** With the page missing and the scrape failing, the 1950s and 1960s get their three curated events verbatim. */
  lemma StaticEventsOffline(date: CalendarDate, scrape: ScrapeOutcome)
    requires scrape.ScrapeFault?
    requires Decade(date.year) == 1950 || Decade(date.year) == 1960
    ensures var events := EventsFor(date, PageError, scrape);
            |events| == 3 && events == DecadeEvents[Decade(date.year)]
  {
  }

  /** The article tier: the three searches in order of precedence, then the cap. */
  method SearchArticle(year: nat, article: Article) returns (events: seq<string>)
    ensures events == Cap(ArticleEvents(year, article))
  {
    var found := CollectLabelled(NatToString(year), article.yearMatches);
    if found == [] {
      found := CollectLabelled(DecadeStyle(year), article.decadeMatches);
      if found == [] && article.sectionItems.Some? {
        found := article.sectionItems.value;
      }
    }
    assert found == ArticleEvents(year, article);
    events := if |found| <= MaxEvents then found else found[..MaxEvents];
  }

  /**
   * `get_historical_events`: returns the events and the requests issued.
   * The scrape is requested only when the article lookup reports a missing page.
   */
  method GetHistoricalEvents(date: CalendarDate, wiki: WikiOutcome, scrape: ScrapeOutcome)
    returns (events: seq<string>, requests: seq<Request>)
    ensures events == EventsFor(date, wiki, scrape)
    ensures |requests| >= 1 && requests[0] == WikiLookup(PageKey(date))
    ensures ScrapeFetch(ScrapeUrl(date)) in requests <==> wiki.PageError?
    ensures |requests| == if wiki.PageError? then 2 else 1
  {
    requests := [WikiLookup(PageKey(date))];
    match wiki
    case PageFound(article) =>
      events := SearchArticle(date.year, article);
    case PageError =>
      requests := requests + [ScrapeFetch(ScrapeUrl(date))];
      var scraped := None;
      if scrape.Scraped? {
        scraped := ScrapeEvents(scrape.sections);
      }
      if scraped.Some? {
        events := if |scraped.value| <= MaxEvents then scraped.value else scraped.value[..MaxEvents];
      } else {
        events := StaticEvents(Decade(date.year));
      }
    case LookupFault =>
      events := [LookupFailureNotice];
  }
}
