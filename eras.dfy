/**
 * The music, technology and fashion categories (main.py, `get_music`,
 * `get_technology`, `get_fashion`). Each has only the static tier: a table
 * of curated records keyed by decade, read with `dict.get(decade, placeholder)`.
 */
module Eras {
  import opened Calendar

  datatype Song = Song(title: string, artist: string)

  datatype Music = Music(songs: seq<Song>, artists: seq<string>, trivia: seq<string>)

  datatype Technology = Technology(gadgets: seq<string>, milestones: seq<string>, computing: string)

  datatype Fashion = Fashion(clothing: seq<string>, hairstyles: seq<string>, icons: seq<string>)

  /** The decades the tables have curated records for. */
  const CuratedDecades: set<int> := {1950, 1960}

  const DecadeMusic: map<int, Music> := map[
    1950 := Music(
      [Song("Hound Dog", "Elvis Presley"), Song("Johnny B. Goode", "Chuck Berry"), Song("What'd I Say", "Ray Charles")],
      ["Elvis Presley", "Chuck Berry", "Little Richard", "Frank Sinatra"],
      ["Rock 'n' roll emerged in the mid-1950s, blending rhythm and blues with country music.",
       "The 45 rpm single became the standard format for hit songs."]),
    1960 := Music(
      [Song("Hey Jude", "The Beatles"), Song("(I Can't Get No) Satisfaction", "The Rolling Stones"), Song("Respect", "Aretha Franklin")],
      ["The Beatles", "The Rolling Stones", "Bob Dylan", "Aretha Franklin"],
      ["The British Invasion, led by The Beatles, changed American music in 1964.",
       "Woodstock Festival in 1969 became a defining moment for 1960s counterculture."])]

  const MusicPlaceholder: Music := Music(
    [Song("No specific song data available", "Unknown")],
    ["No artist data available"],
    ["No music trivia available for this period."])

  const DecadeTechnology: map<int, Technology> := map[
    1950 := Technology(
      ["Transistor radio", "Black-and-white TV", "Electric typewriter"],
      ["First commercial computer (UNIVAC I) released in 1951",
       "First transistor radio introduced in 1954",
       "Sputnik 1, the first artificial satellite, launched in 1957"],
      "Computers were room-sized machines used mainly by governments and large corporations. Programming was done with punch cards."),
    1960 := Technology(
      ["Portable cassette player", "Color TV", "Electronic calculator"],
      ["First video game (Spacewar!) created in 1962",
       "ARPANET, precursor to the internet, developed in 1969",
       "First human on the moon in 1969"],
      "Mainframe computers became more widespread in businesses. The concept of personal computing was still in its infancy.")]

  const TechnologyPlaceholder: Technology := Technology(
    ["No specific gadget data available"],
    ["No specific tech milestones available"],
    "No computing information available for this period.")

  const DecadeFashion: map<int, Fashion> := map[
    1950 := Fashion(
      ["Poodle skirts with sweater sets", "Men's suits with narrow ties", "Pedal pushers and saddle shoes"],
      ["Pompadour for men", "Poodle cut for women", "Ducktail hairstyle"],
      ["Marilyn Monroe", "James Dean", "Audrey Hepburn"]),
    1960 := Fashion(
      ["Mini skirts and go-go boots", "Mod suits with skinny ties", "Tie-dye and psychedelic prints"],
      ["Beehive hairdos", "Long, straight hair (hippie style)", "The Beatles mop-top"],
      ["Twiggy", "The Beatles", "Jacqueline Kennedy"])]

  const FashionPlaceholder: Fashion := Fashion(
    ["No specific clothing data available"],
    ["No specific hairstyle data available"],
    ["No fashion icons available for this period"])

  /** `get_music`: the curated record of the decade, else a placeholder with one entry per list. */
  function GetMusic(date: CalendarDate): (r: Music)
    ensures r.songs != [] && r.artists != [] && r.trivia != []
    ensures Decade(date.year) in CuratedDecades ==> r == DecadeMusic[Decade(date.year)]
    ensures Decade(date.year) !in CuratedDecades ==> r == MusicPlaceholder
    ensures Decade(date.year) !in CuratedDecades ==> |r.songs| == 1 && |r.artists| == 1 && |r.trivia| == 1
  {
    var decade := Decade(date.year);
    if decade in DecadeMusic then DecadeMusic[decade] else MusicPlaceholder
  }

  /** `get_technology`: the curated record of the decade, else a placeholder with one entry per list. */
  function GetTechnology(date: CalendarDate): (r: Technology)
    ensures r.gadgets != [] && r.milestones != [] && r.computing != ""
    ensures Decade(date.year) in CuratedDecades ==> r == DecadeTechnology[Decade(date.year)]
    ensures Decade(date.year) !in CuratedDecades ==> r == TechnologyPlaceholder
    ensures Decade(date.year) !in CuratedDecades ==> |r.gadgets| == 1 && |r.milestones| == 1
  {
    var decade := Decade(date.year);
    if decade in DecadeTechnology then DecadeTechnology[decade] else TechnologyPlaceholder
  }

  /** `get_fashion`: the curated record of the decade, else a placeholder with one entry per list. */
  function GetFashion(date: CalendarDate): (r: Fashion)
    ensures r.clothing != [] && r.hairstyles != [] && r.icons != []
    ensures Decade(date.year) in CuratedDecades ==> r == DecadeFashion[Decade(date.year)]
    ensures Decade(date.year) !in CuratedDecades ==> r == FashionPlaceholder
    ensures Decade(date.year) !in CuratedDecades ==> |r.clothing| == 1 && |r.hairstyles| == 1 && |r.icons| == 1
  {
    var decade := Decade(date.year);
    if decade in DecadeFashion then DecadeFashion[decade] else FashionPlaceholder
  }

  /**
   * A curated record is never the placeholder: every curated list holds
   * more than one entry, so the placeholder can be told from curated data.
   */
  lemma CuratedDiffersFromPlaceholder(date: CalendarDate)
    requires Decade(date.year) in CuratedDecades
    ensures |GetMusic(date).songs| == 3 && |GetMusic(date).artists| == 4 && |GetMusic(date).trivia| == 2
    ensures |GetTechnology(date).gadgets| == 3 && |GetTechnology(date).milestones| == 3
    ensures |GetFashion(date).clothing| == 3 && |GetFashion(date).hairstyles| == 3 && |GetFashion(date).icons| == 3
    ensures GetMusic(date) != MusicPlaceholder && GetTechnology(date) != TechnologyPlaceholder
    ensures GetFashion(date) != FashionPlaceholder
  {
  }

  /** All years of one decade get the same records. */
  lemma SameDecadeSameRecords(a: CalendarDate, b: CalendarDate)
    requires Decade(a.year) == Decade(b.year)
    ensures GetMusic(a) == GetMusic(b) && GetTechnology(a) == GetTechnology(b) && GetFashion(a) == GetFashion(b)
  {
  }
}
