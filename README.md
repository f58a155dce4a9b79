# Carnaval Radio frontend — a Dafny model of its core

This project models the server-side and state-keeping core of the Carnaval
Radio website. It covers these parts:

- **Now playing.** The radio feed is read. Each track title is split into artist
  and title, and the special-case names and covers are replaced (`fetchSongs`).
- **Song ids.** A `custom_song_id` is built by normalising "artist-title"
  (`getSongID` / `normalizeString`).
- **Song storage.** There are two song stores:
  - a flat-file store of one JSON file per song plus a `latest-songs.json` list,
    used by the `/api/songs` route and the two `FileSystemStorage` classes;
  - a Supabase store with `artists`, `songs` and `interactions` tables
    (`DataStorage`). It keeps a `last_played` history.
- **Updating songs.** The song-update job and its HTTP route
  (`updateSongs`, `/api/songs/update`).
- **Interactions.** The like and comment routes. They cover the client IP from
  `x-forwarded-for`, the SHA-256 hex of the IP and salt, content validation
  and the comment rate limit.
- **Favourites and comments listings.** The favourite-songs and all-comments
  listing routes.
- **Browser state.**
  - The favourites map in local storage, with its timestamps.
  - The device id, with its UUID-v4 fallback.
  - The cached Supabase health check.
  - The player slice of the Redux store.
- **Music upload.** The upload route, with its per-IP rate limit, password
  check and dated FTP folder, and the upload-password validation route.
- **Cloudinary URLs.** The Cloudinary URL optimiser and its presets.
- **Site pages.** The sitemap generator, with XML escaping and the old-article
  slugs.
- **Cache refresh.** The cache-refresh server action and its `recent-news=`
  argument.
- **Sponsors.** The sponsor/sponsor-type join.
- **Themes.** Theme lookup.
- **Sidebar.** The sidebar's path formatting.

Most modules model one source file and are named after it. Some modules are
shared:

- `SongId`, `RequestHelpers`, `FlatFiles` and `InteractionsTable` each gather
  code that several source files share: the song-id normalisation, the request
  helpers of the like and comment routes, the flat-file song list, and the
  interactions table.
- `Wrappers`, `Strings` and `Sequences` model no source file. They hold `Option`
  and `Result`, JavaScript's string operations (split, join, trim,
  lowercase, `length` in UTF-16 code units), and generic sequence facts.

- Code made of expressions becomes functions and lemmas.
- The loops become methods with loop invariants, proved against specification
  functions. These loops are:
  - the song deduplication;
  - building the likes' earliest-timestamp map;
  - building the comment song map;
  - the hex encoding of a digest;
  - the UUID fallback;
  - the sponsor join;
  - the Cloudinary URL builder.
- Stateful objects become classes with `modifies` clauses. These objects are:
  - the file directory;
  - the Supabase tables;
  - the interactions table;
  - local storage;
  - the device-id slot;
  - the health cache;
  - the rate limiter;
  - the Redux player state.

Things outside the program are inputs to the model:

- the database's query answers, filtered and ordered by the database;
- the radio feed;
- clocks, given as `now`;
- random draws;
- SHA-256 digests;
- the profanity filter;
- the form parser;
- the CMS answers;
- the `toISOString` conversion, given as `iso`.

Each failure point the source handles is a boolean or `Option` input. The
model then takes the branch the source takes.

Notes on where the model follows the code rather than a description of it:

- **`splitTitle`.** It puts the *first* part of "X - Y" in `artist` and the
  second in `title` (`GlobalState/ApiCalls/fetchSongs.ts:46-49`). The model
  does the same.
- **JavaScript `split`.** It is modelled exactly: left to right, without
  overlaps. So "A - - B" splits in two, as `FetchSongs.OverlappingSeparatorsSplit`
  shows.
- **Lowercasing.** `toLowerCase` is modelled on ASCII letters only. `normalize("NFD")`
  is the identity. Both are exact for ASCII input.
- **Song ids.** Identical copies of `getSongID`/`normalizeString` appear in
  `app/api/songs/route.ts:68-79` and `app/api/songs/update/route.ts:48-59`.
  The copies of `firstIp`/`sha256Hex` appear in the comment and like routes.
  Each is modelled once, in `SongId` and `RequestHelpers`.
- **Missing values.** Dates are integers in milliseconds, and `0` stands for a
  missing date. JavaScript's `date || 0` and `date || Date.now()` treat a missing
  date and `0` alike.

## Model

| member | source | states |
|---|---|---|
| FetchSongs.SplitTitle | GlobalState/ApiCalls/fetchSongs.ts:46-49 | the song is either artist + " - " + title re-assembling the raw title, or ("Unknown", raw) |
| FetchSongs.SplitTitleOneSeparator | GlobalState/ApiCalls/fetchSongs.ts:46-49 | with exactly one " - " in the title, the artist is the text before it and the title the text after it |
| FetchSongs.SplitTitleNoSeparator | GlobalState/ApiCalls/fetchSongs.ts:46-49 | without " - " the artist is "Unknown" and the whole raw text is the title |
| FetchSongs.SplitTitleTwoSeparators | GlobalState/ApiCalls/fetchSongs.ts:46-49 | two non-overlapping " - " give three parts, so the song falls back to ("Unknown", raw) |
| FetchSongs.OverlappingSeparatorsSplit | GlobalState/ApiCalls/fetchSongs.ts:46-49 | overlapping separators count once: "A - - B" becomes artist "A", title "- B" |
| FetchSongs.SpecialCasesIgnoreCase | GlobalState/ApiCalls/fetchSongs.ts:66-71 | the special-case test looks at the lower-case text only, so two texts that differ only in ASCII case are both special or both not |
| FetchSongs.UnknownIsSpecial | GlobalState/ApiCalls/fetchSongs.ts:52-71 | "Unknown", the artist of an unsplittable title, is a special case |
| FetchSongs.DefaultIsNotSpecial | GlobalState/ApiCalls/fetchSongs.ts:51-53 | the replacement name "Carnaval-Radio.nl" is not itself a special case |
| FetchSongs.EnrichTitle | GlobalState/ApiCalls/fetchSongs.ts:56-71 | a special-case artist or title (case-insensitive "unknown", "moritz gimsa") becomes "Carnaval-Radio.nl"; others are kept; no special case survives |
| FetchSongs.EnrichTitleIdempotent | GlobalState/ApiCalls/fetchSongs.ts:56-64 | enriching an enriched song changes nothing |
| FetchSongs.EnrichCover | GlobalState/ApiCalls/fetchSongs.ts:73-83 | the cover is the station logo or the given URL; always the logo for a special-case artist and for the station artist with a "nocover.png" URL; the given URL in every other case |
| FetchSongs.ToRecentSong | GlobalState/ApiCalls/fetchSongs.ts:30-37 | a feed item becomes a song with no id and the item's date |
| FetchSongs.UnsplittableTitleIsStation | GlobalState/ApiCalls/fetchSongs.ts:30-37 | a title that does not split in exactly two is attributed to the station with the station logo as cover |
| FetchSongs.FetchSongs | GlobalState/ApiCalls/fetchSongs.ts:27-44 | a failed fetch, or a feed where some item lacks an enclosure (the exception the catch turns into []), gives []; otherwise one song per item, in order, each with no id and the item's date |
| SongId.RemoveDisallowed | app/api/songs/route.ts:76 | keeps only characters of the source string that are a-z, 0-9, whitespace, comma or hyphen |
| SongId.CollapseRuns | app/api/songs/route.ts:77-78 | every character of the result is a hyphen or an input character outside the run class; it is never longer than the input |
| SongId.Normalize | app/api/songs/route.ts:72-79 | every character of a normalised string is a-z, 0-9 or a hyphen |
| SongId.GetSongId | app/api/songs/route.ts:68-70 | the id of any artist and title uses only a-z, 0-9 and hyphens |
| SongId.NormalizeIdempotent | app/api/songs/route.ts:72-79 | normalising an id again gives the same id |
| SongId.SameIdIgnoringCase | app/api/songs/route.ts:74 | strings that differ only in letter case get the same id |
| SongId.RunBecomesOneHyphen | app/api/songs/route.ts:77-78 | a maximal run of whitespace (or commas) between other characters becomes exactly one hyphen |
| SongId.HyphensAreNotMerged | app/api/songs/route.ts:76-78 | "a - b" becomes "a---b": the hyphen itself is kept, so the surrounding spaces give three hyphens |
| FlatFiles.ReadList | app/api/songs/route.ts:27-31 | reading the list fails exactly on a malformed file; a missing file reads as the empty list, a present one as its tracks |
| FlatFiles.AddIfAbsent | app/api/songs/route.ts:55-64 | a song file is written only when its name is new; existing files are never overwritten |
| FlatFiles.FilesAfterKeepsExisting | app/api/songs/route.ts:50-65 | after writing a batch the directory holds the old files, unchanged, plus one file per new name |
| FlatFiles.FilesAfterFirstWins | app/api/songs/route.ts:50-65 | when several songs of a batch share a new file name, the first one's content is written |
| FlatFiles.Unseen | app/api/songs/route.ts:33-34 | the batch's songs whose key is not among the existing keys, and all of them |
| FlatFiles.UnseenAppend | app/api/songs/route.ts:33-34 | the unseen songs of two runs of a batch are those of the first run followed by those of the second, so batch order and repeats are kept |
| FlatFiles.Tagged | app/api/songs/route.ts:35 | each song passed through the tagging, in order |
| FlatFiles.UnseenKeepsDuplicates | app/api/songs/route.ts:33-34 | when no song of the batch is known, all of them are kept, duplicates included |
| FlatFiles.UnseenOfKnown | app/api/songs/route.ts:33-34 | when every song of the batch is known, nothing is added |
| FlatFiles.MergeList | app/api/songs/route.ts:33-35 | the new list starts with the existing list unchanged, followed by the batch's songs with unseen keys, tagged, in batch order and with repeats |
| FlatFiles.MergeListIdempotent | app/api/songs/route.ts:33-35 | merging the same batch twice gives the same list as merging it once |
| FlatFiles.MergeFreshBatch | app/api/songs/route.ts:33-35 | a batch of wholly new songs is appended in full, in order |
| SongsRoute.FileContent | app/api/songs/route.ts:56-62 | a song file holds the song with its id field set to the computed id unless the song already carries one |
| SongsRoute.WithId | app/api/songs/route.ts:35 | a listed new song keeps its fields and gets the computed id |
| SongsRoute.WithIdKeepsKey | app/api/songs/route.ts:33-35 | tagging a song with its id does not change its id |
| SongsRoute.ReplayAddsNothing | app/api/songs/route.ts:25-41 | saving the same songs again leaves the list as it was |
| SongsRoute.SongsDirectory.constructor | app/api/songs/route.ts:44-48 | the directory starts with the given list file and song files |
| SongsRoute.SongsDirectory.EnsureSongFiles | app/api/songs/route.ts:43-66 | the song files become the old ones plus a new file per unseen id; the list file is untouched |
| SongsRoute.SongsDirectory.EnsureSongList | app/api/songs/route.ts:25-41 | succeeds exactly when the list file is not malformed, and then rewrites it as the merged list; song files are untouched |
| SongsRoute.SongsDirectory.SaveSongsToFileSystem | app/api/songs/route.ts:20-23 | both steps' effects: song files first, then the merged list |
| SongsRoute.SongsDirectory.Get | app/api/songs/route.ts:6-18 | answers exactly the fetched songs, and stores them in the files and the list |
| FileSystemStore.IdFileName | GlobalState/Songs/FileSystemStorage.ts:35 | the file name is the song's id, or "undefined" for a song without one |
| FileSystemStore.FileSystemStorage.constructor | GlobalState/Songs/FileSystemStorage.ts:9-11 | the store starts with the given files |
| FileSystemStore.FileSystemStorage.SaveSongs | GlobalState/Songs/FileSystemStorage.ts:13-17 | writes the missing song files and merges the list by the songs' own ids; on success answers the batch length |
| FileSystemStore.FileSystemStorage.LoadSongs | GlobalState/Songs/FileSystemStorage.ts:19-27 | answers the stored tracks, [] when the list is missing, and fails only on a malformed list; the limit is ignored |
| FileSystemStore.FileSystemStorage.LoadCurrentSong | GlobalState/Songs/FileSystemStorage.ts:50-53 | the first stored track, or none when the list is missing or empty |
| FileSystemStore.FileSystemStorage.EnsureSongFiles | GlobalState/Songs/FileSystemStorage.ts:29-48 | writes a file per unseen id, keyed by the song's own id; the list is untouched |
| FileSystemStore.FileSystemStorage.EnsureSongList | GlobalState/Songs/FileSystemStorage.ts:55-64 | rewrites the list as the stored list followed by the batch's songs whose id is not yet listed |
| FileSystemStore.ReplayAddsNothing | GlobalState/Songs/FileSystemStorage.ts:55-64 | saving the same batch twice adds nothing the second time |
| FileSystemStore.IdlessSongsAllAppended | GlobalState/Songs/FileSystemStorage.ts:59-61 | two id-less songs are both appended, since "no id" is never among the listed ids |
| LegacyStorage.FileSystemStorage.constructor | GlobalState/Storage.ts:10-15 | the store starts with the given files |
| LegacyStorage.FileSystemStorage.SaveSongs | GlobalState/Storage.ts:17-20 | writes the missing song files, then merges the list; fails only on a malformed list |
| LegacyStorage.FileSystemStorage.LoadSongs | GlobalState/Storage.ts:22-30 | answers the stored tracks, [] when the list is missing, and fails on a malformed list |
| LegacyStorage.FileSystemStorage.EnsureSongFiles | GlobalState/Storage.ts:32-51 | writes a file per unseen id; existing files are kept |
| LegacyStorage.FileSystemStorage.EnsureSongList | GlobalState/Storage.ts:53-62 | rewrites the list as the stored list plus the batch's unlisted songs |
| SupabaseStore.PlayTime | GlobalState/Songs/SupabaseStorage.ts:137-140 | a song's play time is its date, or the current time when it has none |
| SupabaseStore.LastPlayed | GlobalState/Songs/SupabaseStorage.ts:137-159 | the new history holds one or two times; the prior time is kept; the new time is added exactly when there was no prior play, or it lies more than ten minutes from it; the head is within ten minutes of the new time |
| SupabaseStore.ReplayKeepsOnlyMostRecent | GlobalState/Songs/SupabaseStorage.ts:137-159 | recording the same play again leaves a single entry |
| SupabaseStore.PriorPlay | GlobalState/Songs/SupabaseStorage.ts:81-91 | the prior play is the first entry of the stored row's history, if any |
| SupabaseStore.RowFor | GlobalState/Songs/SupabaseStorage.ts:161-168 | the upserted row carries the song's title, artist id and cover, the new history and the update time |
| SupabaseStore.MissingNames | GlobalState/Songs/SupabaseStorage.ts:36-38 | exactly the requested artist names that are not yet stored |
| SupabaseStore.MissingNamesDistinct | GlobalState/Songs/SupabaseStorage.ts:36-38 | a list of distinct names gives distinct missing names |
| SupabaseStore.ArtistsOf | GlobalState/Songs/SupabaseStorage.ts:94 | the artist names, one per song, in order |
| SupabaseStore.ToRecent | GlobalState/Songs/SupabaseStorage.ts:205-213 | a loaded row becomes a song with the row's id, artist, title and cover, dated by its last play or else its update time |
| SupabaseStore.InsertByDate | GlobalState/Songs/SupabaseStorage.ts:215 | inserting into a newest-first list keeps it newest-first and adds exactly the one song |
| SupabaseStore.SortByDateDesc | GlobalState/Songs/SupabaseStorage.ts:215 | the result is newest-first and a permutation of the input |
| SupabaseStore.PlayedAt | GlobalState/Songs/SupabaseStorage.ts:215 | the songs of one date, taken from the list |
| SupabaseStore.PlayedAtCons | GlobalState/Songs/SupabaseStorage.ts:215 | the songs of a date in a list with one more song in front |
| SupabaseStore.InsertByDateStable | GlobalState/Songs/SupabaseStorage.ts:215 | an inserted song goes in front of the songs of its own date |
| SupabaseStore.SortByDateDescStable | GlobalState/Songs/SupabaseStorage.ts:215 | the sort is stable: the songs of each date keep their input order |
| SupabaseStore.UpsertedKeys | GlobalState/Songs/SupabaseStorage.ts:172-174 | after an upsert the table holds the old ids plus the batch's ids; rows of ids outside the batch are unchanged |
| SupabaseStore.UpsertedRows | GlobalState/Songs/SupabaseStorage.ts:161-174 | with distinct ids, every song's row is the row built from it and its prior play |
| SupabaseStore.Matching | GlobalState/Songs/SupabaseStorage.ts:253-257 | exactly the interactions on the given entity |
| SupabaseStore.DataStorage.constructor | GlobalState/Songs/SupabaseStorage.ts:7-12 | an empty store, configured or not |
| SupabaseStore.DataStorage.InsertArtists | GlobalState/Songs/SupabaseStorage.ts:41-55 | the new names get fresh ids; stored artists keep theirs |
| SupabaseStore.DataStorage.EnsureArtists | GlobalState/Songs/SupabaseStorage.ts:15-63 | unconfigured fails; otherwise succeeds unless the lookup fails, or the insert of missing names fails or hits a repeated name; on success answers each name's id, in order, and every name is stored |
| SupabaseStore.DataStorage.SaveSongs | GlobalState/Songs/SupabaseStorage.ts:66-183 | unconfigured fails; success exactly when artists resolve, every song has an id, the ids are distinct and no step fails; then the songs table is the upsert of the batch, otherwise it is unchanged; failure answers "Failed to save songs" |
| SupabaseStore.DataStorage.UpsertSongs | GlobalState/Songs/SupabaseStorage.ts:161-174 | the songs table becomes the upsert of the batch; other tables are unchanged |
| SupabaseStore.DataStorage.LoadSongs | GlobalState/Songs/SupabaseStorage.ts:186-220 | unconfigured or a failed query fails; otherwise the loaded rows as songs, newest first, with none lost or added |
| SupabaseStore.DataStorage.LoadCurrentSong | GlobalState/Songs/SupabaseStorage.ts:223-225 | the newest loaded song, none exactly when nothing was loaded |
| SupabaseStore.DataStorage.AddInteractions | GlobalState/Songs/SupabaseStorage.ts:228-243 | success appends the items; failure changes nothing |
| SupabaseStore.DataStorage.GetInteractions | GlobalState/Songs/SupabaseStorage.ts:246-268 | exactly the stored interactions on the entity, unless unconfigured or the query fails |
| UpdateSongs.Position | GlobalState/ApiCalls/updateSongs.ts:27 | the index of the first kept song with the id, or -1 when none has it |
| UpdateSongs.IdsIn | GlobalState/ApiCalls/updateSongs.ts:41 | the ids of the kept songs, in order |
| UpdateSongs.StepIds | GlobalState/ApiCalls/updateSongs.ts:26-38 | one step adds the song's id at the end exactly when it is new |
| UpdateSongs.KeepLatestIds | GlobalState/ApiCalls/updateSongs.ts:25-41 | the kept ids are the fetched ids without repeats, in first-seen order, so each id appears once |
| UpdateSongs.KeepLatestIsLatest | GlobalState/ApiCalls/updateSongs.ts:25-41 | every kept song was fetched, and no fetched song with the same id is more recent |
| UpdateSongs.KeepLatestTiesKeepFirst | GlobalState/ApiCalls/updateSongs.ts:33-36 | among equally recent songs with one id, the earliest fetched is kept |
| UpdateSongs.Deduplicate | GlobalState/ApiCalls/updateSongs.ts:25-41 | the loop computes the keep-latest deduplication |
| UpdateSongs.UpdateSongs | GlobalState/ApiCalls/updateSongs.ts:5-67 | as written: unconfigured and empty fetches fail without writing, and every other run fails as well |
| UpdateSongs.FetchedSongsHaveNoId | GlobalState/ApiCalls/fetchSongs.ts:30-36 | no fetched song carries an id |
| UpdateSongs.IdlessCollapse | GlobalState/ApiCalls/updateSongs.ts:25-41 | deduplicating id-less songs keeps at most one, id-less |
| UpdateSongs.UpdateSongsNeverSaves | GlobalState/ApiCalls/updateSongs.ts:25-50 | any non-empty fetch collapses to one id-less song, which the save rejects |
| UpdateSongs.WithSongIds | app/api/songs/update/route.ts:22-25 | each song gets the id computed from its artist and title |
| UpdateSongs.KeptIdsUpsertable | GlobalState/ApiCalls/updateSongs.ts:25-41 | once every song has an id, the deduplicated batch meets the upsert's requirement |
| UpdateSongs.UpdateSongsWithIds | GlobalState/ApiCalls/updateSongs.ts:5-67 | with ids assigned: a fault-free run succeeds and upserts the deduplicated batch |
| UpdateRoute.RouteSongId | app/api/songs/update/route.ts:48-59 | the route's id is the normalised "artist-title" |
| UpdateRoute.RouteIdsAgree | app/api/songs/update/route.ts:48-50 | the route's id equals the song route's id for the same artist and title |
| UpdateRoute.RepeatedSongNotUpsertable | app/api/songs/update/route.ts:22-29 | a song repeated in one fetch gives a batch the bulk upsert rejects |
| UpdateRoute.DistinctSongsUpsertable | app/api/songs/update/route.ts:22-29 | distinct ids are upsertable |
| UpdateRoute.Post | app/api/songs/update/route.ts:7-46 | 500 when unconfigured, 400 when nothing was fetched, 200 exactly when the save succeeds, with the fetched count; the songs table changes only on 200 |
| UpdateRoute.PostDeduplicated | app/api/songs/update/route.ts:7-46 | with the batch deduplicated first, a fault-free non-empty fetch always answers 200 and upserts it |
| RequestHelpers.TrimAll | app/api/interactions/comment/route.ts:9 | each part is trimmed, in order |
| RequestHelpers.IpParts | app/api/interactions/comment/route.ts:7-11 | the header's comma-separated parts, trimmed |
| RequestHelpers.FirstIp | app/api/interactions/comment/route.ts:7-11 | a missing or empty header gives "" |
| RequestHelpers.FirstIpIsFirstPart | app/api/interactions/comment/route.ts:7-11 | the client IP is the first non-blank trimmed part |
| RequestHelpers.FirstIpOfBlankParts | app/api/interactions/comment/route.ts:7-11 | a header of blank parts gives "" |
| RequestHelpers.IpPartsCommaFree | app/api/interactions/comment/route.ts:9 | no part contains a comma |
| RequestHelpers.FirstIpShape | app/api/interactions/comment/route.ts:7-11 | the IP has no comma and no surrounding whitespace |
| RequestHelpers.HexDigit | app/api/interactions/comment/route.ts:20 | a value below 16 becomes a lower-case hex digit |
| RequestHelpers.HexValue | app/api/interactions/comment/route.ts:20 | a hex digit's value, which maps back to that digit |
| RequestHelpers.ToHex | app/api/interactions/comment/route.ts:20 | `toString(16)` of a byte has one digit below 16, two otherwise |
| RequestHelpers.ByteHex | app/api/interactions/comment/route.ts:20 | a padded byte is two hex digits whose value is the byte |
| RequestHelpers.HexEncode | app/api/interactions/comment/route.ts:18-21 | two hex digits per byte |
| RequestHelpers.HexRoundTrip | app/api/interactions/comment/route.ts:18-21 | decoding the hex text gives back the bytes |
| RequestHelpers.HexEncodeAppend | app/api/interactions/comment/route.ts:18-21 | one more byte adds its two digits at the end |
| RequestHelpers.Sha256Hex | app/api/interactions/comment/route.ts:13-26 | the loop produces the hex of the digest, or "" when hashing is unavailable |
| RequestHelpers.LowerAppend | app/api/interactions/comment/route.ts:29 | lowercasing distributes over concatenation |
| RequestHelpers.HasUrl | app/api/interactions/comment/route.ts:28-31 | a text flagged as a link holds a '.' or a ':' |
| RequestHelpers.HasUrlOfEmbedded | app/api/interactions/comment/route.ts:28-31 | any text containing a marker such as "http" or ".com", in any case, is flagged as a link |
| InteractionsTable.Without | app/api/interactions/comment/route.ts:196-201 | the rows the filter does not match, and all of them |
| InteractionsTable.WithoutAppend | app/api/interactions/like/route.ts:61-70 | deleting from two runs of rows is deleting from each |
| InteractionsTable.WithoutNothing | app/api/interactions/like/route.ts:61-70 | deleting where nothing matches changes nothing |
| InteractionsTable.Interactions.constructor | app/api/interactions/comment/route.ts:154-171 | the table starts with the given rows |
| InteractionsTable.Interactions.Insert | app/api/interactions/comment/route.ts:154-171 | an insert appends the row |
| InteractionsTable.Interactions.Delete | app/api/interactions/comment/route.ts:196-201 | a delete removes exactly the matching rows |
| CommentRoute.ContentError | app/api/interactions/comment/route.ts:95-112 | the content passes exactly when its trimmed text is 5 to 300 UTF-16 code units long (JavaScript's `length`), has no link and is not profane; otherwise the first failing check's message |
| CommentRoute.SurrogatePairsCountTwice | app/api/interactions/comment/route.ts:100-103 | more than 150 characters outside the Basic Multilingual Plane are already too long |
| CommentRoute.PlainTextCountsCharacters | app/api/interactions/comment/route.ts:96-103 | inside the Basic Multilingual Plane the limits are on characters |
| Strings.Utf16Length | app/api/interactions/comment/route.ts:96-103 | `length` lies between the number of characters and twice it, and equals it exactly when every character lies in the Basic Multilingual Plane |
| Strings.Utf16AllAstral | app/api/interactions/comment/route.ts:96-103 | a text of characters outside that plane has twice as many code units |
| CommentRoute.CommentStartsWindow | app/api/interactions/comment/route.ts:133-151 | a comment just made rate-limits its device on that song for thirty minutes |
| CommentRoute.WindowExpires | app/api/interactions/comment/route.ts:133-151 | once every earlier comment of the device on the song is over thirty minutes old, it may comment again |
| CommentRoute.Post | app/api/interactions/comment/route.ts:80-176 | 503 when unconfigured; 500 on an unreadable body; 400 on missing fields or bad content; 404 on an unknown song; 429 within the rate window; 500 "Fout bij opslaan" when the insert fails; 200 exactly when all checks pass and the insert succeeds, and then exactly one row is added with the hashed IP |
| CommentRoute.Get | app/api/interactions/comment/route.ts:33-78 | [] when unconfigured, without a song id, for an unknown song or on a failed query; otherwise exactly the query's rows |
| CommentRoute.Delete | app/api/interactions/comment/route.ts:178-208 | succeeds exactly when configured, both ids are present and the delete works, and then removes the device's own comment with that id |
| LikeRoute.Post | app/api/interactions/like/route.ts:25-74 | 400 exactly on missing ids, otherwise 200; on a known song and a working write, a like appends one row and an unlike removes the device's likes |
| LikeRoute.UnlikeUndoesLike | app/api/interactions/like/route.ts:48-70 | liking and then unliking leaves the device's likes as before |
| FavoriteSongs.UserIds | app/api/favorites/songs/route.ts:37-55 | the device id, last, with every linked device id |
| FavoriteSongs.LikesBy | app/api/favorites/songs/route.ts:58-65 | exactly the song likes by those users |
| FavoriteSongs.EntityIds | app/api/favorites/songs/route.ts:68-82 | the liked song ids, in order |
| FavoriteSongs.Earliest | app/api/favorites/songs/route.ts:68-82 | the earliest like time of a song, none when it was not liked |
| FavoriteSongs.EarliestSnoc | app/api/favorites/songs/route.ts:68-82 | one more like updates the earliest time only when it is earlier |
| FavoriteSongs.CollectLikes | app/api/favorites/songs/route.ts:68-82 | the loop gives the distinct liked ids in first-seen order and each one's earliest like time |
| Sequences.Within | app/api/favorites/songs/route.ts:84-87 | the `.in("id", ids)` filter, shared by the favourites and all-comments routes: exactly the rows whose key is one of the ids |
| FavoriteSongs.Stamped | app/api/favorites/songs/route.ts:93-96 | each song paired with its earliest like time |
| FavoriteSongs.StampAll | app/api/favorites/songs/route.ts:93-96 | the loop builds the stamped payload, each entry with a time |
| FavoriteSongs.Get | app/api/favorites/songs/route.ts:23-100 | [] without configuration, client or device id, or when there are no likes or the song query fails; otherwise the liked songs stamped with their earliest like |
| AllComments.EntityIds | app/api/interactions/all-comments/route.ts:33-40 | each comment's song id, "" when missing |
| AllComments.UniqueSongIds | app/api/interactions/all-comments/route.ts:33-40 | the distinct non-empty song ids, every commented song included |
| AllComments.NonEmptyKeeps | app/api/interactions/all-comments/route.ts:33-40 | a non-empty id survives the filter |
| AllComments.Summary | app/api/interactions/all-comments/route.ts:62-70 | a song's summary, with "" for a missing artist name |
| AllComments.SongsMap | app/api/interactions/all-comments/route.ts:62-70 | every queried song is in the map, and each entry is some song's summary |
| AllComments.BuildSongsMap | app/api/interactions/all-comments/route.ts:62-70 | the loop builds that map |
| AllComments.JoinComments | app/api/interactions/all-comments/route.ts:73-85 | exactly the comments whose song is known, each joined to its song |
| AllComments.JoinAllKnown | app/api/interactions/all-comments/route.ts:73-85 | when every song is known, every comment is joined in order |
| AllComments.JoinAppend | app/api/interactions/all-comments/route.ts:73-85 | the join works comment by comment |
| AllComments.Get | app/api/interactions/all-comments/route.ts:8-85 | [] on any guard or query failure; otherwise exactly the comments joined to the songs of their non-empty distinct ids |
| LocalFavorites.Favorites | helpers/favorites.ts:17-30 | an array gives its ids, an object its keys, anything else nothing |
| LocalFavorites.Timestamps | helpers/favorites.ts:32-46 | an array stamps every id with now, an object is its own timestamps |
| LocalFavorites.TimestampsKeyedByFavorites | helpers/favorites.ts:17-46 | the timestamps are keyed by exactly the favourites |
| LocalFavorites.Merged | helpers/favorites.ts:48-55 | the stored map has exactly the given ids, each with its non-zero stamp or now |
| LocalFavorites.Toggled | helpers/favorites.ts:57-70 | the id leaves the favourites when present and joins them stamped now when absent; other stamps are kept |
| LocalFavorites.ToggleTwice | helpers/favorites.ts:57-70 | toggling twice restores the favourites |
| LocalFavorites.LocalStore.SetFavorites | helpers/favorites.ts:48-55 | storage holds the merged map |
| LocalFavorites.LocalStore.Toggle | helpers/favorites.ts:57-70 | storage holds the toggled map and the answer is its favourites |
| DeviceId.FallbackOf | helpers/deviceId.ts:19-30 | the fallback has the UUID-v4 layout: 36 characters, hyphens at 8, 13, 18 and 23, '4' at 14, 8-b at 19 |
| DeviceId.FallbackKeepsDraws | helpers/deviceId.ts:23-25 | every other position holds the digit drawn for it |
| DeviceId.FallbackUuid | helpers/deviceId.ts:19-30 | the loop builds that fallback |
| DeviceId.FallbackUsable | helpers/deviceId.ts:3-17 | a fallback id passes the stored-id check |
| DeviceId.DeviceStore.GetOrCreate | helpers/deviceId.ts:3-17 | a usable stored id is answered unchanged; otherwise a new id is stored and answered; a storage exception answers a fallback without storing it |
| DeviceId.StableAcrossCalls | helpers/deviceId.ts:3-17 | two calls with working storage answer the same stored id |
| HealthCheck.Outcome | helpers/supabaseHealthCheck.ts:10-23 | healthy exactly when the probe answered without error |
| HealthCheck.HealthCache.constructor | helpers/supabaseHealthCheck.ts:2 | the cache starts unhealthy and unchecked |
| HealthCheck.HealthCache.Check | helpers/supabaseHealthCheck.ts:4-24 | within ten minutes of a check the cached answer is returned; otherwise the probe decides and is cached with the time |
| HealthCheck.RepeatWithinTtl | helpers/supabaseHealthCheck.ts:4-24 | a second check within ten minutes repeats the first answer, whatever the probe would say |
| UploadMusic.ClientIp | pages/api/upload-music.ts:42 | the first comma part of the forwarded header, else the socket address, else "unknown"; never empty |
| UploadMusic.ClientIpCommaFree | pages/api/upload-music.ts:42 | an IP from the header has no comma |
| UploadMusic.NextRecords | pages/api/upload-music.ts:44-53 | a rejected request changes nothing; an open window counts one more; a new or expired window restarts at one; other IPs are untouched |
| UploadMusic.NextKeepsBounded | pages/api/upload-music.ts:44-53 | no window's count ever exceeds ten |
| UploadMusic.OpenWindowAllowsRest | pages/api/upload-music.ts:44-53 | inside an open window only the remaining allowance is admitted |
| UploadMusic.AtMostTenPerWindow | pages/api/upload-music.ts:7-9 | at most ten requests from one IP are admitted within a minute of the first |
| UploadMusic.RateLimiter.constructor | pages/api/upload-music.ts:9 | no IP has a record |
| UploadMusic.RateLimiter.Admit | pages/api/upload-music.ts:44-53 | admits as the window allows and records the request |
| UploadMusic.ParseForm | pages/api/upload-music.ts:24-38 | the form parses exactly when there is no error, a file and a non-empty password |
| UploadMusic.Pad2 | pages/api/upload-music.ts:76-81 | a number below 100 becomes two digits with that value |
| UploadMusic.FourDigitYear | pages/api/upload-music.ts:76-81 | a year from 1000 to 9999 prints as four digits |
| UploadMusic.DayFolderRoundTrip | pages/api/upload-music.ts:76-81 | the day folder is "YYYY-MM-DD", from which year, month and day are read back |
| UploadMusic.Handle | pages/api/upload-music.ts:40-90 | 429, 405, 500, 401 and 500 in the source's order; 200 exactly when admitted, POST, authorised and the FTP upload works, and then the file goes to the dated folder |
| UploadPassword.Validate | pages/api/validate-upload-password.ts:5-24 | 405 for other methods; 500 without a configured password; 400 exactly for a falsy password; 200 exactly for a POST whose password is the configured non-empty string; 401 otherwise, including for a truthy value that is not a string |
| UploadPassword.ValidExactlyWhenUploadAccepts | pages/api/validate-upload-password.ts:5-24 | for a form with a file, validating its password field succeeds exactly when `UploadMusic.Authorized` accepts the form |
| Cloudinary.Clamp | src/types/cloudinaryOptimization.ts:104-112 | the value limited to the range, unchanged inside it |
| Cloudinary.IsCloudinaryUrl | src/types/cloudinaryOptimization.ts:342-347 | a URL is Cloudinary's exactly when it contains "cloudinary.com" |
| Cloudinary.ResHostIsCloudinary | src/types/cloudinaryOptimization.ts:69 | a res.cloudinary.com URL is recognised as Cloudinary |
| Cloudinary.QualitySegment | src/types/cloudinaryOptimization.ts:101-106 | always exactly one quality segment |
| Cloudinary.DprSegment | src/types/cloudinaryOptimization.ts:109-113 | always exactly one dpr segment |
| Cloudinary.GravitySegment | src/types/cloudinaryOptimization.ts:116-120 | g_auto by default, none for "center" |
| Cloudinary.SizeSegment | src/types/cloudinaryOptimization.ts:128-134 | no size without a width; width alone when no height |
| Cloudinary.SegmentKinds | src/types/cloudinaryOptimization.ts:96-139 | each segment has its kind's prefix |
| Cloudinary.TransformationsInFixedOrder | src/types/cloudinaryOptimization.ts:96-139 | format, quality, dpr, gravity, crop, size and radius always appear in that order |
| Cloudinary.TransformationsNeverEmpty | src/types/cloudinaryOptimization.ts:101-113 | there is always at least one transformation |
| Cloudinary.OptimizedUrl | src/types/cloudinaryOptimization.ts:62-146 | empty, foreign and unsplittable URLs are unchanged; otherwise the transformations are inserted after "/upload/" |
| Cloudinary.OptimizeCloudinaryUrl | src/types/cloudinaryOptimization.ts:62-146 | the builder computes that URL |
| Cloudinary.OptimizeProfileImage | src/types/cloudinaryOptimization.ts:153-177 | a Cloudinary URL gets auto format, eco quality, auto dpr, a face thumbnail of the size's side in both dimensions and a radius of half the side; other URLs are unchanged |
| Cloudinary.ProfileIsRound | src/types/cloudinaryOptimization.ts:153-177 | a profile image is a square face-thumb with radius half its side |
| Cloudinary.OptimizeCardImage | src/types/cloudinaryOptimization.ts:251-262 | a Cloudinary URL gets auto format, eco quality, auto dpr, auto gravity, scaling and a width of at most 600 (600 by default) and no height; other URLs are unchanged |
| Cloudinary.CardWidthCapped | src/types/cloudinaryOptimization.ts:251-262 | a card image is at most 600 wide |
| Cloudinary.BlurPlaceholder | src/types/cloudinaryOptimization.ts:184-204 | "" for "", unchanged for a foreign URL |
| Cloudinary.BlurDefaults | src/types/cloudinaryOptimization.ts:184-204 | defaults give quality 5, dpr 1, a 10x10 fill |
| Cloudinary.OptimizeHeroImage | src/types/cloudinaryOptimization.ts:234-244 | a hero image is auto format, eco quality, scaled to 1200 wide |
| Cloudinary.OptimizeLogoImage | src/types/cloudinaryOptimization.ts:268-278 | a logo is eco quality, scaled to the given size, 200 by default |
| Cloudinary.SrcSetEntries | src/types/cloudinaryOptimization.ts:210-227 | one avif entry per width, with its "w" descriptor |
| Cloudinary.ResponsiveSrcSet | src/types/cloudinaryOptimization.ts:210-227 | "" for "" |
| Cloudinary.SrcSetHasOneEntryPerSize | src/types/cloudinaryOptimization.ts:210-227 | each entry ends with its width descriptor |
| Cloudinary.OptimizeUrlBatch | src/types/cloudinaryOptimization.ts:352-357 | each URL optimised in place |
| Cloudinary.BatchKeepsOtherUrls | src/types/cloudinaryOptimization.ts:352-357 | foreign URLs pass through unchanged |
| Sitemap.Replace | app/sitemap.xml/route.ts:18-25 | text without the character is unchanged, and a non-empty replacement never shortens the text |
| Sitemap.EscapeXml | app/sitemap.xml/route.ts:18-25 | text with none of & < > " ' is unchanged, and escaping never shortens a text |
| Sitemap.ReplaceAppend | app/sitemap.xml/route.ts:18-25 | replacement works piece by piece |
| Sitemap.EscapeXmlOfChar | app/sitemap.xml/route.ts:18-25 | each character escapes on its own: & < > " ' become their entities |
| Sitemap.EscapeXmlAppend | app/sitemap.xml/route.ts:18-25 | escaping works piece by piece, so an entity is never escaped twice |
| Sitemap.EscapeXmlIsEscaped | app/sitemap.xml/route.ts:18-25 | the chain of replacements is escaping character by character |
| Sitemap.EscapedHasNoMarkup | app/sitemap.xml/route.ts:18-25 | escaped text has no < > " ' |
| Sitemap.UnescapeStep | app/sitemap.xml/route.ts:18-25 | an escaped character followed by anything unescapes to that character |
| Sitemap.EscapeXmlRoundTrip | app/sitemap.xml/route.ts:18-25 | unescaping escaped text gives it back |
| Sitemap.Element | app/sitemap.xml/route.ts:38-63 | each entry's escaped URL, date, frequency and priority with the source's defaults, and its news block exactly for news |
| Sitemap.GenerateSiteMap | app/sitemap.xml/route.ts:27-68 | the site root first ("always", "1.0"), then one element per item in order |
| Sitemap.PostItem | app/sitemap.xml/route.ts:109-119 | a post is hourly news at 0.9, dated 2011-11-11 when undated |
| Sitemap.PageItem | app/sitemap.xml/route.ts:123-131 | a page is weekly at 0.8 |
| Sitemap.KeepSlugChars | app/sitemap.xml/route.ts:137 | the slug keeps only ASCII letters, digits and whitespace |
| Sitemap.SpacesToHyphens | app/sitemap.xml/route.ts:138 | each space becomes a hyphen |
| Sitemap.OldSlugShape | app/sitemap.xml/route.ts:136-139 | an old slug has no space and no capital: only lower-case letters, digits, hyphens and other whitespace |
| Sitemap.OldSlugOfPlainTitle | app/sitemap.xml/route.ts:136-139 | a plain title's slug is the lowercased title with hyphens for spaces |
| Sitemap.OldArticleItem | app/sitemap.xml/route.ts:133-147 | an old article is news that never changes |
| Sitemap.SitemapUrls | app/sitemap.xml/route.ts:82-150 | routes, pages, posts, then old articles |
| Sitemap.OldArticlesRenderAsNews | app/sitemap.xml/route.ts:38-54 | an old article renders with "never", priority 0.9 and a news block |
| Sitemap.Get | app/sitemap.xml/route.ts:70-80 | the root, then the news page first among the routes |
| Refresh.FindRecentNewsArg | app/refresh/actions.ts:79 | the first "recent-news=" argument, none exactly when there is none |
| Refresh.DigitPrefixLength | app/refresh/actions.ts:81-84 | the length of the leading digits |
| Refresh.ParseIntOfDecimal | app/refresh/actions.ts:81-84 | parsing a number's decimal text gives the number |
| Refresh.CountText | app/refresh/actions.ts:81-84 | the text after the first "=" up to the next one |
| Refresh.RecentNewsCount | app/refresh/actions.ts:78-91 | the parsed count, 3 when unparsable or 0, none without the argument |
| Refresh.Without | app/refresh/actions.ts:86-88 | every argument except the chosen one |
| Refresh.TagsOrPaths | app/refresh/actions.ts:86-88 | the arguments without the recent-news one |
| Refresh.LaterFlagBecomesTag | app/refresh/actions.ts:79-88 | a second "recent-news=" argument is treated as a tag |
| Refresh.Dispatch | app/refresh/actions.ts:44-48 | a "/" argument revalidates a path, anything else a tag |
| Refresh.MainSite | app/refresh/actions.ts:53-58 | all site tags, then all site paths |
| Refresh.Action | app/refresh/actions.ts:29-51 | no arguments refresh the main site and three news items; otherwise the news count first if given, then each argument as path or tag |
| Refresh.RecentNewsRequested | app/refresh/actions.ts:29-51 | recent news is refreshed exactly without arguments or with a recent-news argument |
| Refresh.TruthySlugs | app/refresh/actions.ts:66-69 | `filter(Boolean)` keeps exactly the present, non-empty slugs |
| Refresh.TruthySlugsAppend | app/refresh/actions.ts:66-69 | the filter keeps the order of the answer |
| Refresh.NewsPathInjective | app/refresh/actions.ts:71-75 | different slugs give different news paths |
| Refresh.NewsPaths | app/refresh/actions.ts:60-76 | one path per kept slug, each under "/nieuwsberichten/"; the path of a slug is revalidated exactly when the slug is present and non-empty |
| Refresh.NewsPathsAppend | app/refresh/actions.ts:60-76 | the paths follow the order of the answer |
| Sponsors.Pair | GlobalState/ApiCalls/fetchSponsors.ts:28-44 | the sponsor's fields, the type id (the sponsor's own when they match), the type's visibility, and order type × 10000 + priority (1000 when missing) |
| Sponsors.PairsOf | GlobalState/ApiCalls/fetchSponsors.ts:25-48 | exactly one entry per type with the sponsor's type id; none for a sponsor without a type |
| Sponsors.UnmatchedSponsorDropped | GlobalState/ApiCalls/fetchSponsors.ts:28 | a sponsor whose type id matches no type, or that has no type, is dropped |
| Sponsors.JoinedSnoc | GlobalState/ApiCalls/fetchSponsors.ts:25-48 | a sponsor added at the end adds its entries at the end |
| Sponsors.JoinedAppend | GlobalState/ApiCalls/fetchSponsors.ts:25-48 | the join works sponsor by sponsor |
| Sponsors.JoinedOnlyMatches | GlobalState/ApiCalls/fetchSponsors.ts:25-48 | every entry pairs a sponsor with a type of its id |
| Sponsors.JoinedAllMatches | GlobalState/ApiCalls/fetchSponsors.ts:25-48 | every matching pair appears |
| Sponsors.AddPairs | GlobalState/ApiCalls/fetchSponsors.ts:27-46 | the inner loop appends the sponsor's entries; it throws exactly when the sponsor has no type and there is a type to compare with |
| Sponsors.FetchSponsors | GlobalState/ApiCalls/fetchSponsors.ts:25-48 | the loops compute the join; the fetch throws exactly when a sponsor without a type meets a non-empty type list |
| Sponsors.OrderGroupsByType | GlobalState/ApiCalls/fetchSponsors.ts:42 | with priorities below 10000, a lower type order sorts first |
| PlayerSlice.PlayerState.constructor | GlobalState/features/PlayerSlice.ts:6-15 | the initial state: empty title and URL, paused, unmuted, not casting, "IDLE" |
| PlayerSlice.PlayerState.SetMuted | GlobalState/features/PlayerSlice.ts:17-19 | flips muted and nothing else |
| PlayerSlice.PlayerState.SetSongTitle | GlobalState/features/PlayerSlice.ts:20-22 | sets the title and nothing else |
| PlayerSlice.PlayerState.SetPlay | GlobalState/features/PlayerSlice.ts:23-25 | flips playing and nothing else |
| PlayerSlice.PlayerState.SetCastState | GlobalState/features/PlayerSlice.ts:26-33 | sets the cast flags and keeps the cast player state when none is given |
| PlayerSlice.PlayerState.ToggleTwice | GlobalState/features/PlayerSlice.ts:17-25 | toggling mute and play twice restores the state |
| PlayerSlice.PlayerState.CastUpdateKeepsPlayerState | GlobalState/features/PlayerSlice.ts:26-33 | an update without a cast player state keeps the earlier one |
| PlayerSlice.Dispatch | GlobalState/features/PlayerSlice.ts:16-34 | the URL never changes; the title is the last one set |
| PlayerSlice.LastTitle | GlobalState/features/PlayerSlice.ts:20-22 | the last title action's title |
| Themes.Find | themes.config.ts:103 | the first theme with the slug, none exactly when no theme has it |
| Themes.GetThemeOrDefault | themes.config.ts:99-106 | a known slug gives its theme; a missing, empty or unknown slug gives Carnaval Radio |
| Themes.ThemeBySlug | themes.config.ts:97-106 | every theme is found by its slug |
| Sidebar.NoneKeptOnlyWhenAllEmpty | components/Sidebar/SidebarLinkItem.tsx:46-47 | nothing is left exactly when every part is empty |
| Sidebar.LastKeptIsLastNonEmpty | components/Sidebar/SidebarLinkItem.tsx:45-49 | the last non-empty part is followed only by empty parts |
| Sidebar.FormatPath | components/Sidebar/SidebarLinkItem.tsx:45-49 | a slash-free path segment, "" exactly when the path has none; otherwise the last non-empty segment |
| Sidebar.FormatPathIdempotent | components/Sidebar/SidebarLinkItem.tsx:45-49 | formatting again changes nothing |
| Sidebar.RootFormatsEmpty | components/Sidebar/SidebarLinkItem.tsx:45-49 | "/" (any number of slashes) formats to "" |

## Left out

- I/O is not modelled: the file system, HTTP, Supabase, FTP, the CMS GraphQL and
  the radio feed. Their answers are inputs and their writes are state.
- JSON serialisation is not modelled, and neither are the extra fields of a song
  file (`comments`, `lyrics`, `youtube`).
- Console logging is not modelled.
- The `IStorage` interface is not modelled. Each class implementing it is modelled
  with its own contract.
- Concurrency is not modelled. `Promise.all` and the song route's
  fire-and-forget save run to completion, in order.
- Query ordering and limits are performed by the database. Their results are inputs.
- Database constraints are assumptions, stated in the predicates that use them:
  - artist names are unique;
  - `custom_song_id` is NOT NULL;
  - a bulk upsert with a repeated key fails.
- SupabaseStore.DataStorage.SaveSongs: the "Artist ID not found" exception
  (`GlobalState/Songs/SupabaseStorage.ts:133-134`) is not modelled. It cannot
  happen once the artist lookup and insert have succeeded.
- Date values are not fully modelled. NaN dates and `toISOString` formatting are
  absent; `iso` is a parameter.
- Floating point is not modelled. Cloudinary sizes, dpr and quality, and the
  upload times, are integers.
- Cloudinary.getOptimizedImageProps is left out. It only assembles the other
  presets into a props object.
- Sitemap: the XML template's whitespace is not modelled. The sitemap is a
  list of elements.
- UploadMusic.Handle: partial FTP failures and connection details are not
  modelled. The FTP outcome is one optional error message.
- UploadMusic.ParseForm: the multipart parser itself is not modelled. Its
  result is the input `RawForm`.
- Refresh.NewsPaths: the recent-news query is not modelled. Its slugs are an
  input.
- Sponsors: the renaming of the query's sponsor-type fields is the identity on
  `SponsorType`.
- Themes: the colour palettes and logos are not modelled. Only the slug and
  name matter to the lookup.
- SongId.Normalize: only ASCII lowercasing is modelled. The NFD normalisation
  is the identity.
- LikeRoute.Post: write failures are not reported. The source ignores the
  insert and delete results.
- Authentication errors from `auth()` are not modelled in the favourites route.
- The client-side 10-character minimum for comments is not modelled. It is not
  part of the API route.
- The SHA-256 digest is not modelled. It is an input (`digest`), and only its
  hex encoding is modelled.
- Randomness is an input: `crypto.randomUUID` and the `Math.random` draws.
- CommentRoute.CommentBody, CommentRoute.DeleteBody and LikeRoute.LikeBody: a
  body field that is present but not a string counts as absent, so the model
  answers 400 "Missing fields". The source goes on with such a value. A
  non-string `content` makes `trim` throw, which answers 500 "Server fout". A
  numeric `custom_song_id` or `device_id` is passed to the database queries,
  whose comparison of a number with a text column is not modelled.

## Findings

| source | as written | input that shows it | evidently intended | confidence | as-written member | corrected member |
|---|---|---|---|---|---|---|
| GlobalState/ApiCalls/updateSongs.ts:27 | songs are grouped by `song.ID`, which `fetchSongs` never sets, so every fetched song collapses to one id-less song and the save fails | any non-empty feed, e.g. one track "A - B" | give each song its `custom_song_id` (artist and title normalised) before grouping, so each distinct song is saved | medium (not executed) | UpdateSongs.UpdateSongsNeverSaves | UpdateSongs.UpdateSongsWithIds |
| app/api/songs/update/route.ts:22-29 | the fetched songs get ids but are not deduplicated before the bulk upsert | a feed that repeats one track, e.g. "A - B" twice | deduplicate by id before upserting, as `updateSongs` does | medium (not executed) | UpdateRoute.RepeatedSongNotUpsertable | UpdateRoute.PostDeduplicated |
