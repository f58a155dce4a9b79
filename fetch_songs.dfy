/**
 * Turning the upstream "recent tracks" feed into song records: splitting the
 * raw "Artist - Title" text, replacing placeholder names with the station's
 * own name, and choosing the cover image.
 */
module FetchSongs {
  import opened Wrappers
  import opened Strings

  /** An artist/title pair. */
  datatype Song = Song(artist: string, title: string)

  /**
   * A song as the rest of the system sees it. `id` is the optional `ID` field;
   * `date` is epoch milliseconds, with 0 standing for a missing date (the
   * source treats both alike through `date || 0` and `date || Date.now()`).
   */
  datatype RecentSong = RecentSong(id: Option<string>, artist: string, title: string, date: int, url: string)

  /** One upstream feed item; `enclosureUrl` is None when the item has no enclosure. */
  datatype TrackItem = TrackItem(title: string, date: int, enclosureUrl: Option<string>)

  const Separator: string := " - "
  const DefaultCarnavalRadio: string := "Carnaval-Radio.nl"
  const SpecialCases: seq<string> := ["unknown", "moritz gimsa"]
  const CRLogo: string := "https://res.cloudinary.com/dwzn0q9wj/image/upload/c_scale,h_100,w_100/f_webp/logo_square_512_1_78657ec246.jpg"
  const NoCover: string := "nocover.png"

  /** `specialCasesContains`: empty text, or text whose lower-case form is a placeholder name. */
  predicate SpecialCasesContains(text: string) {
    text == "" || Lower(text) in SpecialCases
  }

  /** The placeholder test ignores ASCII case: "Unknown" and "UNKNOWN" are both placeholders. */
  lemma SpecialCasesIgnoreCase(a: string, b: string)
    requires Lower(a) == Lower(b)
    ensures SpecialCasesContains(a) <==> SpecialCasesContains(b)
  {
    assert |a| == |Lower(a)| && |b| == |Lower(b)|;
  }

  /** "Unknown", the artist a title that cannot be split gets, is a placeholder. */
  lemma UnknownIsSpecial()
    ensures SpecialCasesContains("Unknown")
  {
    assert Lower("Unknown") == "unknown";
  }

  /** The station's own name is not itself a placeholder. */
  lemma DefaultIsNotSpecial()
    ensures !SpecialCasesContains(DefaultCarnavalRadio)
  {
    assert |Lower(DefaultCarnavalRadio)| == 17;
  }

  /** `splitTitle`: exactly two parts give artist and title, anything else gives an "Unknown" artist. */
  function SplitTitle(raw: string): (song: Song)
    ensures song.artist + Separator + song.title == raw || song == Song("Unknown", raw)
  {
    var parts := Split(raw, Separator);
    JoinSplit(raw, Separator);
    if |parts| == 2 then
      assert Join(parts, Separator) == parts[0] + Separator + parts[1];
      Song(parts[0], parts[1])
    else Song("Unknown", raw)
  }

  /** An occurrence of the separator makes at least two parts. */
  lemma {:induction false} OccurrenceSplits(s: string, sep: string, i: int)
    requires sep != [] && OccursAt(s, sep, i)
    ensures |Split(s, sep)| >= 2
    decreases |s|
  {
    if s[..|sep|] != sep {
      assert i != 0;
      assert s[1..][i - 1..i - 1 + |sep|] == s[i..i + |sep|];
      OccurrenceSplits(s[1..], sep, i - 1);
    }
  }

  /** Two occurrences that do not overlap make at least three parts. */
  lemma {:induction false} TwoOccurrencesSplit(s: string, sep: string, i: int, j: int)
    requires sep != [] && OccursAt(s, sep, i) && OccursAt(s, sep, j) && i + |sep| <= j
    ensures |Split(s, sep)| >= 3
    decreases |s|
  {
    if s[..|sep|] == sep {
      var t := s[|sep|..];
      assert t[j - |sep|..j] == s[j..j + |sep|];
      OccurrenceSplits(t, sep, j - |sep|);
    } else {
      assert i != 0;
      var t := s[1..];
      assert t[i - 1..i - 1 + |sep|] == s[i..i + |sep|];
      assert t[j - 1..j - 1 + |sep|] == s[j..j + |sep|];
      TwoOccurrencesSplit(t, sep, i - 1, j - 1);
    }
  }

  /** Exactly one " - " in the raw text: the text before it is the artist, the text after it the title. */
  lemma SplitTitleOneSeparator(raw: string, i: nat)
    requires OccursAt(raw, Separator, i)
    requires forall j :: j != i ==> !OccursAt(raw, Separator, j)
    ensures SplitTitle(raw) == Song(raw[..i], raw[i + 3..])
  {
    SplitAtFirst(raw, Separator, i);
    var rest := raw[i + 3..];
    forall j ensures !OccursAt(rest, Separator, j) {
      if OccursAt(rest, Separator, j) {
        assert rest[j..j + 3] == raw[i + 3 + j..i + 3 + j + 3];
        assert OccursAt(raw, Separator, i + 3 + j);
      }
    }
    SplitWithoutSeparator(rest, Separator);
  }

  /** No " - " at all: the artist is "Unknown" and the title is the raw text. */
  lemma SplitTitleNoSeparator(raw: string)
    requires forall j :: !OccursAt(raw, Separator, j)
    ensures SplitTitle(raw) == Song("Unknown", raw)
  {
    SplitWithoutSeparator(raw, Separator);
  }

  /** Two separate " - " in the raw text: the artist is "Unknown" and the title is the raw text. */
  lemma SplitTitleTwoSeparators(raw: string, i: int, j: int)
    requires OccursAt(raw, Separator, i) && OccursAt(raw, Separator, j) && i + 3 <= j
    ensures SplitTitle(raw) == Song("Unknown", raw)
  {
    TwoOccurrencesSplit(raw, Separator, i, j);
  }

  /**
   * Overlapping separators count once: in "A - - B" the second " - " starts
   * inside the first, so the split finds one match and yields two parts.
   */
  lemma OverlappingSeparatorsSplit()
    ensures SplitTitle("A - - B") == Song("A", "- B")
  {
    var raw := "A - - B";
    assert OccursAt(raw, Separator, 1);
    assert raw[0..3] == "A -";
    assert !OccursAt(raw, Separator, 0);
    assert forall j :: !OccursAt("- B", Separator, j);
    SplitAtFirst(raw, Separator, 1);
    assert raw[4..] == "- B";
    SplitWithoutSeparator("- B", Separator);
  }

  /** `enrichTitle`: placeholder fields become the station's name, other fields are kept. */
  function EnrichTitle(song: Song): (r: Song)
    ensures !SpecialCasesContains(r.artist) && !SpecialCasesContains(r.title)
    ensures r.artist == (if SpecialCasesContains(song.artist) then DefaultCarnavalRadio else song.artist)
    ensures r.title == (if SpecialCasesContains(song.title) then DefaultCarnavalRadio else song.title)
  {
    DefaultIsNotSpecial();
    var artist := if SpecialCasesContains(song.artist) then DefaultCarnavalRadio else song.artist;
    var title := if SpecialCasesContains(song.title) then DefaultCarnavalRadio else song.title;
    Song(artist, title)
  }

  /** Enriching twice changes nothing more than enriching once. */
  lemma EnrichTitleIdempotent(song: Song)
    ensures EnrichTitle(EnrichTitle(song)) == EnrichTitle(song)
  {
  }

  /** `enrichCover`: the station logo for placeholder artists and for the station's own "no cover" entries. */
  function EnrichCover(coverUrl: string, song: Song): (r: string)
    ensures r == CRLogo || r == coverUrl
    ensures r != coverUrl ==> r == CRLogo
    ensures SpecialCasesContains(song.artist) ==> r == CRLogo
    ensures song.artist == DefaultCarnavalRadio && Contains(coverUrl, NoCover) ==> r == CRLogo
    ensures !SpecialCasesContains(song.artist) && !(song.artist == DefaultCarnavalRadio && Contains(coverUrl, NoCover)) ==> r == coverUrl
  {
    if SpecialCasesContains(song.artist) then CRLogo
    else if song.artist == DefaultCarnavalRadio && Contains(coverUrl, NoCover) then CRLogo
    else coverUrl
  }

  /** The mapping applied to each feed item: enrich the split song; the cover looks at the song before enrichment. */
  function ToRecentSong(item: TrackItem): (r: RecentSong)
    requires item.enclosureUrl.Some?
    ensures r.id == None && r.date == item.date
  {
    var song := SplitTitle(item.title);
    var enriched := EnrichTitle(song);
    RecentSong(None, enriched.artist, enriched.title, item.date, EnrichCover(item.enclosureUrl.value, song))
  }

  /** A title that cannot be split always ends up credited to the station, with the station logo. */
  lemma UnsplittableTitleIsStation(item: TrackItem)
    requires item.enclosureUrl.Some?
    requires |Split(item.title, Separator)| != 2
    ensures ToRecentSong(item).artist == DefaultCarnavalRadio
    ensures ToRecentSong(item).url == CRLogo
  {
    var song := SplitTitle(item.title);
    assert song.artist == "Unknown";
    assert Lower("Unknown") == "unknown";
  }

  /**
   * `fetchSongs`: `feed` is the `items` array of the upstream response, or None
   * when the request or the parse fails. Any failure, including an item
   * without an enclosure, yields the empty list.
   */
  function FetchSongs(feed: Option<seq<TrackItem>>): (r: seq<RecentSong>)
    ensures feed.None? ==> r == []
    ensures feed.Some? && (exists k | 0 <= k < |feed.value| :: feed.value[k].enclosureUrl.None?) ==> r == []
    ensures feed.Some? && (forall k | 0 <= k < |feed.value| :: feed.value[k].enclosureUrl.Some?) ==>
              |r| == |feed.value| &&
              forall k | 0 <= k < |r| :: r[k] == ToRecentSong(feed.value[k]) && r[k].date == feed.value[k].date && r[k].id == None
  {
    match feed
    case None => []
    case Some(items) =>
      if forall k | 0 <= k < |items| :: items[k].enclosureUrl.Some? then
        seq(|items|, k requires 0 <= k < |items| => ToRecentSong(items[k]))
      else []
  }
}
