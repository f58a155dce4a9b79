/**
 * `DataStorage`: the database-backed song store. The `artists`, `songs` and
 * `interactions` tables are fields of the class; every failure the database
 * can report is an explicit `fault` input naming the step that fails.
 */
module SupabaseStore {
  import opened Wrappers
  import opened FetchSongs
  import opened Sequences

  const NotConfigured: string := "Supabase is not configured. Please set SUPABASE_URL and SUPABASE_SERVICE_ROLE_KEY environment variables."
  const ArtistsFailed: string := "Failed to ensure artists exist"
  const SaveFailed: string := "Failed to save songs"
  const LoadFailed: string := "Failed to load songs"

  /** Two plays of one song at most this many milliseconds apart are the same play (10 minutes). */
  const SamePlayWindow: int := 10 * 60 * 1000

  /** The database round trips that can fail. */
  datatype Step = SongLookup | ArtistLookup | ArtistInsert | SongUpsert | InteractionInsert | InteractionSelect

  /** A row of `songs`, keyed by `custom_song_id`; `lastPlayed` is most recent first. */
  datatype SongRow = SongRow(title: string, artistId: nat, coverUrl: string, lastPlayed: seq<int>, updatedAt: int)

  datatype EntityType = SongEntity | ArtistEntity
  datatype InteractionKind = Like | Vote | Comment | Lyrics

  /** A row of `interactions`. */
  datatype Interaction = Interaction(id: string, entityId: string, entityType: EntityType, kind: InteractionKind,
                                     userId: string, content: Option<string>, createdAt: int)

  /** A row as `loadSongs`' query returns it, joined with its artist's name. */
  datatype LoadedRow = LoadedRow(customSongId: string, artistName: string, title: string,
                                 lastPlayed: seq<int>, updatedAt: int, coverUrl: string)

  function Abs(x: int): nat {
    if x < 0 then -x else x
  }

  /** `new Date(song.date || Date.now())`: a missing (zero) date means "now". */
  function PlayTime(date: int, now: int): (t: int)
    ensures date != 0 ==> t == date
    ensures date == 0 ==> t == now
  {
    if date != 0 then date else now
  }

  /**
   * The `last_played` array written for a song whose stored most recent play
   * is `prior`: a first play starts the array; a play more than ten minutes
   * from the prior one goes in front of it; a play within ten minutes keeps
   * only the prior one.
   */
  function LastPlayed(prior: Option<int>, newTime: int): (r: seq<int>)
    ensures 1 <= |r| <= 2
    ensures prior.None? ==> r == [newTime]
    ensures prior.Some? ==> prior.value in r
    ensures newTime in r <==> prior.None? || Abs(newTime - prior.value) > SamePlayWindow || prior.value == newTime
    ensures |r| == 2 <==> prior.Some? && Abs(newTime - prior.value) > SamePlayWindow
    ensures Abs(r[0] - newTime) <= SamePlayWindow || r[0] == newTime
  {
    match prior
    case None => [newTime]
    case Some(p) => if Abs(newTime - p) > SamePlayWindow then [newTime, p] else [p]
  }

  /** Saving the same play again records nothing new: the array shrinks to its most recent entry. */
  lemma ReplayKeepsOnlyMostRecent(prior: Option<int>, newTime: int)
    ensures LastPlayed(Some(LastPlayed(prior, newTime)[0]), newTime) == [LastPlayed(prior, newTime)[0]]
  {
    var first := LastPlayed(prior, newTime)[0];
    assert Abs(newTime - first) <= SamePlayWindow;
  }

  /** The most recent stored play of song `id`, if the table has one. */
  function PriorPlay(table: map<string, SongRow>, id: string): (p: Option<int>)
    ensures p.Some? <==> id in table && table[id].lastPlayed != []
    ensures p.Some? ==> p.value == table[id].lastPlayed[0]
  {
    if id in table && table[id].lastPlayed != [] then Some(table[id].lastPlayed[0]) else None
  }

  /** The row `saveSongs` upserts for one song. */
  function RowFor(song: RecentSong, prior: Option<int>, artistId: nat, now: int): (row: SongRow)
    ensures row.title == song.title && row.artistId == artistId && row.coverUrl == song.url && row.updatedAt == now
    ensures row.lastPlayed == LastPlayed(prior, PlayTime(song.date, now))
  {
    SongRow(song.title, artistId, song.url, LastPlayed(prior, PlayTime(song.date, now)), now)
  }

  /** The names not yet stored, in input order (the source's `filter`). */
  function MissingNames(names: seq<string>, known: set<string>): (r: seq<string>)
    ensures |r| <= |names|
    ensures forall n | n in r :: n in names && n !in known
    ensures forall n | n in names && n !in known :: n in r
  {
    if names == [] then []
    else (if names[0] in known then [] else [names[0]]) + MissingNames(names[1..], known)
  }

  /** Filtering a list without repeats gives a list without repeats. */
  lemma {:induction false} MissingNamesDistinct(names: seq<string>, known: set<string>)
    requires Distinct(names)
    ensures Distinct(MissingNames(names, known))
  {
    if names != [] {
      assert Distinct(names[1..]) by {
        forall i, j | 0 <= i < j < |names[1..]| ensures names[1..][i] != names[1..][j] {
          assert names[1..][i] == names[i + 1] && names[1..][j] == names[j + 1];
        }
      }
      MissingNamesDistinct(names[1..], known);
      var rest := MissingNames(names[1..], known);
      forall k | 0 <= k < |names[1..]| ensures names[1..][k] != names[0] {
        assert names[1..][k] == names[k + 1];
      }
    }
  }

  /** The artist names of the songs. */
  function ArtistsOf(songs: seq<RecentSong>): (r: seq<string>)
    ensures |r| == |songs|
    ensures forall i | 0 <= i < |songs| :: r[i] == songs[i].artist
  {
    seq(|songs|, i requires 0 <= i < |songs| => songs[i].artist)
  }

  /** Every song carries an `ID` and no two share one: what a bulk upsert keyed on `custom_song_id` accepts. */
  predicate UpsertableIds(songs: seq<RecentSong>) {
    (forall i | 0 <= i < |songs| :: songs[i].id.Some?)
    && (forall i, j | 0 <= i < j < |songs| :: songs[i].id != songs[j].id)
  }

  /** A batch the upsert accepts whose artists all have ids. */
  predicate Saveable(batch: seq<RecentSong>, artistIds: map<string, nat>) {
    UpsertableIds(batch) && forall k | 0 <= k < |batch| :: batch[k].artist in artistIds
  }

  /**
   * Whether the queries of `saveSongs` succeed for `batch`: no injected
   * failure of a lookup or of the upsert, no failing artist insert when some
   * artist is missing, and ids the bulk upsert accepts.
   */
  predicate SaveSucceeds(batch: seq<RecentSong>, fault: Option<Step>, known: set<string>) {
    fault != Some(SongLookup) && fault != Some(ArtistLookup) && fault != Some(SongUpsert)
    && (fault == Some(ArtistInsert) ==> MissingNames(Dedup(ArtistsOf(batch)), known) == [])
    && UpsertableIds(batch)
  }

  /** `loadSongs`' mapping: the play date is the most recent `last_played` entry, else `updated_at`. */
  function ToRecent(row: LoadedRow): (song: RecentSong)
    ensures song.id == Some(row.customSongId) && song.artist == row.artistName && song.title == row.title
    ensures song.url == row.coverUrl
    ensures song.date == (if row.lastPlayed != [] then row.lastPlayed[0] else row.updatedAt)
  {
    RecentSong(Some(row.customSongId), row.artistName, row.title,
               if row.lastPlayed != [] then row.lastPlayed[0] else row.updatedAt, row.coverUrl)
  }

  predicate SortedByDateDesc(s: seq<RecentSong>) {
    forall i, j | 0 <= i < j < |s| :: s[i].date >= s[j].date
  }

  /** Inserting `x` before the first song not later than it keeps the order descending. */
  function InsertByDate(x: RecentSong, s: seq<RecentSong>): (r: seq<RecentSong>)
    requires SortedByDateDesc(s)
    ensures SortedByDateDesc(r)
    ensures |r| == |s| + 1
    ensures r[0] == x || (s != [] && r[0] == s[0])
    ensures multiset(r) == multiset(s) + multiset{x}
  {
    if s == [] || s[0].date <= x.date then [x] + s
    else
      assert s == [s[0]] + s[1..];
      var rest := InsertByDate(x, s[1..]);
      assert rest[0].date <= s[0].date;
      [s[0]] + rest
  }

  /**
   * The in-memory `sort((a, b) => b.date - a.date)`: descending by date and
   * a permutation of its input; `SortByDateDescStable` shows it is stable.
   */
  function SortByDateDesc(s: seq<RecentSong>): (r: seq<RecentSong>)
    ensures SortedByDateDesc(r)
    ensures multiset(r) == multiset(s)
  {
    if s == [] then []
    else
      assert s == [s[0]] + s[1..];
      InsertByDate(s[0], SortByDateDesc(s[1..]))
  }

  /** The songs of `s` played at `date`, in their order in `s`. */
  function PlayedAt(s: seq<RecentSong>, date: int): (r: seq<RecentSong>)
    ensures forall x | x in r :: x in s && x.date == date
  {
    if s == [] then []
    else (if s[0].date == date then [s[0]] else []) + PlayedAt(s[1..], date)
  }

  /** The songs of a date in a song followed by others. */
  lemma PlayedAtCons(y: RecentSong, t: seq<RecentSong>, date: int)
    ensures PlayedAt([y] + t, date) == (if y.date == date then [y] else []) + PlayedAt(t, date)
  {
    assert ([y] + t)[0] == y && ([y] + t)[1..] == t;
  }

  /** Inserting a song puts it in front of the songs of its own date already there. */
  lemma {:induction false} InsertByDateStable(x: RecentSong, s: seq<RecentSong>, date: int)
    requires SortedByDateDesc(s)
    ensures PlayedAt(InsertByDate(x, s), date) == (if x.date == date then [x] else []) + PlayedAt(s, date)
  {
    var px := if x.date == date then [x] else [];
    if s == [] || s[0].date <= x.date {
      assert InsertByDate(x, s) == [x] + s;
      PlayedAtCons(x, s, date);
    } else {
      var y, t := s[0], s[1..];
      var py := if y.date == date then [y] else [];
      assert s == [y] + t;
      assert SortedByDateDesc(t) by {
        forall i, j | 0 <= i < j < |t| ensures t[i].date >= t[j].date {
          assert t[i] == s[i + 1] && t[j] == s[j + 1];
        }
      }
      var rest := InsertByDate(x, t);
      assert px == [] || py == [];
      calc {
        PlayedAt(InsertByDate(x, s), date);
        PlayedAt([y] + rest, date);
        { PlayedAtCons(y, rest, date); }
        py + PlayedAt(rest, date);
        { InsertByDateStable(x, t, date); }
        py + (px + PlayedAt(t, date));
        px + (py + PlayedAt(t, date));
        { PlayedAtCons(y, t, date); }
        px + PlayedAt(s, date);
      }
    }
  }

  /**
   * The sort is stable: for every date, the songs of that date come out in
   * the order they went in.
   */
  lemma {:induction false} SortByDateDescStable(s: seq<RecentSong>, date: int)
    ensures PlayedAt(SortByDateDesc(s), date) == PlayedAt(s, date)
  {
    if s != [] {
      SortByDateDescStable(s[1..], date);
      InsertByDateStable(s[0], SortByDateDesc(s[1..]), date);
    }
  }

  /**
   * The `songs` table after upserting one row per song of `batch` into
   * `base`; every row's `last_played` is computed against `base`.
   */
  function Upserted(base: map<string, SongRow>, batch: seq<RecentSong>, artistIds: map<string, nat>, now: int): map<string, SongRow>
    requires forall k | 0 <= k < |batch| :: batch[k].id.Some? && batch[k].artist in artistIds
    decreases |batch|
  {
    if batch == [] then base
    else
      var last := batch[|batch| - 1];
      Upserted(base, batch[..|batch| - 1], artistIds, now)[last.id.value := RowFor(last, PriorPlay(base, last.id.value), artistIds[last.artist], now)]
  }

  /** The ids of the batch. */
  function IdsOf(batch: seq<RecentSong>): set<string>
    requires forall k | 0 <= k < |batch| :: batch[k].id.Some?
  {
    set k | 0 <= k < |batch| :: batch[k].id.value
  }

  /** The ids of the batch without its last song. */
  lemma IdsOfInit(batch: seq<RecentSong>)
    requires batch != [] && forall k | 0 <= k < |batch| :: batch[k].id.Some?
    ensures IdsOf(batch) == IdsOf(batch[..|batch| - 1]) + {batch[|batch| - 1].id.value}
  {
    var init := batch[..|batch| - 1];
    forall id | id in IdsOf(batch) ensures id in IdsOf(init) + {batch[|batch| - 1].id.value} {
      var k :| 0 <= k < |batch| && batch[k].id.value == id;
      if k < |batch| - 1 {
        assert init[k] == batch[k];
      }
    }
    forall id | id in IdsOf(init) ensures id in IdsOf(batch) {
      var k :| 0 <= k < |init| && init[k].id.value == id;
      assert batch[k] == init[k];
    }
  }

  /** The upsert adds exactly the batch's ids to the table's keys, and leaves rows of other ids untouched. */
  lemma {:induction false} UpsertedKeys(base: map<string, SongRow>, batch: seq<RecentSong>, artistIds: map<string, nat>, now: int)
    requires forall k | 0 <= k < |batch| :: batch[k].id.Some? && batch[k].artist in artistIds
    ensures Upserted(base, batch, artistIds, now).Keys == base.Keys + IdsOf(batch)
    ensures forall id | id in base && id !in IdsOf(batch) :: Upserted(base, batch, artistIds, now)[id] == base[id]
    decreases |batch|
  {
    if batch != [] {
      UpsertedKeys(base, batch[..|batch| - 1], artistIds, now);
      IdsOfInit(batch);
    }
  }

  /** With distinct ids, the row of each song's id is the row built for that song. */
  lemma {:induction false} UpsertedRows(base: map<string, SongRow>, batch: seq<RecentSong>, artistIds: map<string, nat>, now: int)
    requires forall k | 0 <= k < |batch| :: batch[k].id.Some? && batch[k].artist in artistIds
    requires UpsertableIds(batch)
    ensures forall i | 0 <= i < |batch| :: batch[i].id.value in Upserted(base, batch, artistIds, now)
    ensures forall i | 0 <= i < |batch| ::
              Upserted(base, batch, artistIds, now)[batch[i].id.value]
              == RowFor(batch[i], PriorPlay(base, batch[i].id.value), artistIds[batch[i].artist], now)
    decreases |batch|
  {
    UpsertedKeys(base, batch, artistIds, now);
    if batch != [] {
      var init := batch[..|batch| - 1];
      assert UpsertableIds(init) by {
        forall i, j | 0 <= i < j < |init| ensures init[i].id != init[j].id {
          assert init[i] == batch[i] && init[j] == batch[j];
        }
      }
      UpsertedRows(base, init, artistIds, now);
      UpsertedKeys(base, init, artistIds, now);
      forall i | 0 <= i < |batch| - 1
        ensures Upserted(base, batch, artistIds, now)[batch[i].id.value]
                == RowFor(batch[i], PriorPlay(base, batch[i].id.value), artistIds[batch[i].artist], now)
      {
        assert init[i] == batch[i];
        assert batch[i].id.value != batch[|batch| - 1].id.value;
      }
    }
  }

  /** The store. `configured` is the outcome of `isSupabaseConfigured()` and the client check. */
  class DataStorage {
    const configured: bool
    var artists: map<string, nat>
    var nextArtistId: nat
    var songs: map<string, SongRow>
    var interactions: seq<Interaction>

    /** Artist ids are below the next fresh id and no two names share one. */
    predicate Valid()
      reads this
    {
      (forall n | n in artists :: artists[n] < nextArtistId)
      && (forall a, b | a in artists && b in artists && a != b :: artists[a] != artists[b])
    }

    constructor(configured: bool)
      ensures this.configured == configured
      ensures artists == map[] && songs == map[] && interactions == []
      ensures Valid()
    {
      this.configured := configured;
      artists := map[];
      nextArtistId := 0;
      songs := map[];
      interactions := [];
    }

    /** The bulk insert of new artist names, each given a fresh id. */
    method InsertArtists(names: seq<string>)
      requires Valid() && Distinct(names)
      requires forall n | n in names :: n !in artists
      modifies this
      ensures Valid()
      ensures artists.Keys == old(artists).Keys + set n | n in names
      ensures forall n | n in old(artists) :: artists[n] == old(artists)[n]
      ensures songs == old(songs) && interactions == old(interactions)
    {
      var i := 0;
      while i < |names|
        invariant 0 <= i <= |names|
        invariant Valid()
        invariant artists.Keys == old(artists).Keys + set j | 0 <= j < i :: names[j]
        invariant forall n | n in old(artists) :: artists[n] == old(artists)[n]
        invariant songs == old(songs) && interactions == old(interactions)
      {
        assert names[i] !in artists by {
          forall j | 0 <= j < i ensures names[j] != names[i] { }
        }
        artists := artists[names[i] := nextArtistId];
        nextArtistId := nextArtistId + 1;
        assert (set j | 0 <= j < i + 1 :: names[j]) == (set j | 0 <= j < i :: names[j]) + {names[i]};
        i := i + 1;
      }
      assert (set j | 0 <= j < |names| :: names[j]) == set n | n in names;
    }

    /**
     * `ensureArtists`: the id of every given name, position by position,
     * inserting the names not yet stored. Names are unique in the table, so
     * inserting the same missing name twice is rejected.
     */
    method EnsureArtists(names: seq<string>, fault: Option<Step>) returns (r: Result<seq<nat>>)
      requires Valid()
      modifies this
      ensures Valid()
      ensures !configured ==> r == Err(NotConfigured)
      ensures r.Ok? <==> configured && fault != Some(ArtistLookup)
                         && (MissingNames(names, old(artists).Keys) == []
                             || (fault != Some(ArtistInsert) && Distinct(MissingNames(names, old(artists).Keys))))
      ensures r.Ok? ==> |r.value| == |names|
                        && forall i | 0 <= i < |names| :: names[i] in artists && r.value[i] == artists[names[i]]
      ensures r.Ok? ==> artists.Keys == old(artists).Keys + set n | n in names
      ensures r.Err? ==> artists == old(artists)
      ensures forall n | n in old(artists) :: n in artists && artists[n] == old(artists)[n]
      ensures songs == old(songs) && interactions == old(interactions)
    {
      if !configured {
        return Err(NotConfigured);
      }
      if fault == Some(ArtistLookup) {
        return Err(ArtistsFailed);
      }
      var newNames := MissingNames(names, artists.Keys);
      if |newNames| > 0 {
        if fault == Some(ArtistInsert) || !Distinct(newNames) {
          return Err(ArtistsFailed);
        }
        InsertArtists(newNames);
      }
      var ids: seq<nat> := [];
      for i := 0 to |names|
        invariant |ids| == i
        invariant forall j | 0 <= j < i :: names[j] in artists && ids[j] == artists[names[j]]
      {
        ids := ids + [artists[names[i]]];
      }
      return Ok(ids);
    }

    /**
     * `saveSongs`: make sure every artist exists, then upsert one row per
     * song keyed on its `ID`, with `last_played` following the ten-minute
     * rule against the row stored before the call. Artists inserted before
     * a failing upsert stay inserted.
     */
    method SaveSongs(batch: seq<RecentSong>, now: int, fault: Option<Step>) returns (r: Result<()>)
      requires Valid()
      modifies this
      ensures Valid()
      ensures !configured ==> r == Err(NotConfigured)
      ensures r.Ok? <==> configured && SaveSucceeds(batch, fault, old(artists).Keys)
      ensures configured && r.Err? ==> r.message == SaveFailed
      ensures forall n | n in old(artists) :: n in artists && artists[n] == old(artists)[n]
      ensures r.Ok? ==> forall i | 0 <= i < |batch| :: batch[i].artist in artists
      ensures r.Ok? ==> Saveable(batch, artists) && songs == Upserted(old(songs), batch, artists, now)
      ensures r.Err? ==> songs == old(songs)
      ensures interactions == old(interactions)
    {
      if !configured {
        return Err(NotConfigured);
      }
      if fault == Some(SongLookup) {
        return Err(SaveFailed);
      }
      var names := Dedup(ArtistsOf(batch));
      if fault == Some(ArtistLookup) {
        return Err(SaveFailed);
      }
      var missing := MissingNames(names, artists.Keys);
      if |missing| > 0 {
        if fault == Some(ArtistInsert) {
          return Err(SaveFailed);
        }
        MissingNamesDistinct(names, artists.Keys);
        InsertArtists(missing);
      }
      assert forall i | 0 <= i < |batch| :: batch[i].artist in artists by {
        forall i | 0 <= i < |batch| ensures batch[i].artist in artists {
          assert ArtistsOf(batch)[i] == batch[i].artist;
        }
      }
      if fault == Some(SongUpsert) || !UpsertableIds(batch) {
        return Err(SaveFailed);
      }
      UpsertSongs(batch, now);
      return Ok(());
    }

    /** The bulk upsert keyed on `custom_song_id`: one row per song, built against the rows stored before. */
    method UpsertSongs(batch: seq<RecentSong>, now: int)
      requires Valid()
      requires forall k | 0 <= k < |batch| :: batch[k].id.Some? && batch[k].artist in artists
      modifies this
      ensures Valid() && artists == old(artists) && interactions == old(interactions)
      ensures songs == Upserted(old(songs), batch, artists, now)
    {
      var before := songs;
      var i := 0;
      while i < |batch|
        invariant 0 <= i <= |batch|
        invariant Valid() && artists == old(artists) && interactions == old(interactions)
        invariant songs == Upserted(before, batch[..i], artists, now)
      {
        assert batch[..i + 1][..i] == batch[..i];
        var id := batch[i].id.value;
        songs := songs[id := RowFor(batch[i], PriorPlay(before, id), artists[batch[i].artist], now)];
        i := i + 1;
      }
      assert batch[..|batch|] == batch;
    }

    /** `loadSongs`: the rows the query returned, mapped and sorted by play date, most recent first. */
    function LoadSongs(rows: seq<LoadedRow>, queryFails: bool): (r: Result<seq<RecentSong>>)
      ensures !configured ==> r == Err(NotConfigured)
      ensures r.Ok? <==> configured && !queryFails
      ensures r.Ok? ==> SortedByDateDesc(r.value)
      ensures r.Ok? ==> multiset(r.value) == multiset(seq(|rows|, i requires 0 <= i < |rows| => ToRecent(rows[i])))
    {
      if !configured then Err(NotConfigured)
      else if queryFails then Err(LoadFailed)
      else Ok(SortByDateDesc(seq(|rows|, i requires 0 <= i < |rows| => ToRecent(rows[i]))))
    }

    /** `loadCurrentSong`: the first song `loadSongs(1)` yields, or null. */
    function LoadCurrentSong(rows: seq<LoadedRow>, queryFails: bool): (r: Result<Option<RecentSong>>)
      ensures r.Ok? <==> configured && !queryFails
      ensures r.Ok? ==> (r.value.None? <==> rows == [])
      ensures r.Ok? && r.value.Some? ==> exists i | 0 <= i < |rows| :: r.value.value == ToRecent(rows[i])
      ensures r.Ok? && r.value.Some? ==> forall i | 0 <= i < |rows| :: ToRecent(rows[i]).date <= r.value.value.date
    {
      match LoadSongs(rows, queryFails)
      case Err(e) => Err(e)
      case Ok(loaded) =>
        var mapped := seq(|rows|, i requires 0 <= i < |rows| => ToRecent(rows[i]));
        assert |loaded| == |mapped| by {
          assert |multiset(loaded)| == |multiset(mapped)|;
        }
        if |loaded| > 0 then
          assert loaded[0] in multiset(mapped);
          forall i | 0 <= i < |rows| ensures ToRecent(rows[i]).date <= loaded[0].date {
            assert mapped[i] in multiset(loaded);
          }
          Ok(Some(loaded[0]))
        else Ok(None)
    }

    /** `addInteractions`: one bulk insert of all the given rows. */
    method AddInteractions(items: seq<Interaction>, fault: Option<Step>) returns (r: Result<()>)
      modifies this
      ensures !configured ==> r == Err(NotConfigured)
      ensures r.Ok? <==> configured && fault != Some(InteractionInsert)
      ensures r.Ok? ==> interactions == old(interactions) + items
      ensures r.Err? ==> interactions == old(interactions)
      ensures artists == old(artists) && nextArtistId == old(nextArtistId) && songs == old(songs)
    {
      if !configured {
        return Err(NotConfigured);
      }
      if fault == Some(InteractionInsert) {
        return Err("Failed to add interactions");
      }
      interactions := interactions + items;
      return Ok(());
    }

    /** `getInteractions`: every interaction on the given entity, and nothing else. */
    function GetInteractions(entityId: string, entityType: EntityType, fault: Option<Step>): (r: Result<seq<Interaction>>)
      reads this
      ensures !configured ==> r == Err(NotConfigured)
      ensures r.Ok? <==> configured && fault != Some(InteractionSelect)
      ensures r.Ok? ==> forall x | x in r.value :: x in interactions && x.entityId == entityId && x.entityType == entityType
      ensures r.Ok? ==> forall x | x in interactions && x.entityId == entityId && x.entityType == entityType :: x in r.value
    {
      if !configured then Err(NotConfigured)
      else if fault == Some(InteractionSelect) then Err("Failed to fetch interactions")
      else Ok(Matching(interactions, entityId, entityType))
    }
  }

  /** The interactions on one entity, in table order. */
  function Matching(items: seq<Interaction>, entityId: string, entityType: EntityType): (r: seq<Interaction>)
    ensures forall x | x in r :: x in items && x.entityId == entityId && x.entityType == entityType
    ensures forall x | x in items && x.entityId == entityId && x.entityType == entityType :: x in r
  {
    if items == [] then []
    else (if items[0].entityId == entityId && items[0].entityType == entityType then [items[0]] else [])
         + Matching(items[1..], entityId, entityType)
  }
}
