/**
 * `GET /api/interactions/all-comments`: the latest comments on songs, each
 * joined with its song; comments whose song is not found are dropped.
 */
module AllComments {
  import opened Wrappers
  import opened Strings
  import opened Sequences

  /** A row of the comments query; `entityId` may be null. */
  datatype CommentRow = CommentRow(id: string, content: string, createdAt: int, entityId: Option<string>)

  /** A row of the songs query, joined with its artist's name (absent when the join gives none). */
  datatype SongData = SongData(id: string, customSongId: string, title: string, coverUrl: Option<string>, artistName: Option<string>)

  /** The song part of an answer entry. */
  datatype SongSummary = SongSummary(customSongId: string, title: string, coverUrl: Option<string>, artist: string)

  datatype Entry = Entry(id: string, content: string, createdAt: int, song: SongSummary)

  /** `entity_id` values with `null` read as the falsy `""`. */
  function EntityIds(comments: seq<CommentRow>): (ids: seq<string>)
    ensures |ids| == |comments|
    ensures forall i | 0 <= i < |comments| :: ids[i] == comments[i].entityId.GetOr("")
  {
    seq(|comments|, i requires 0 <= i < |comments| => comments[i].entityId.GetOr(""))
  }

  /** The `forEach` that fills the `Set`: the non-empty entity ids, once each, in order of first appearance. */
  method UniqueSongIds(comments: seq<CommentRow>) returns (songIds: seq<string>)
    ensures songIds == Dedup(NonEmpty(EntityIds(comments)))
    ensures forall i | 0 <= i < |comments| && comments[i].entityId.Some? && comments[i].entityId.value != "" ::
              comments[i].entityId.value in songIds
    ensures forall id | id in songIds :: id != ""
  {
    var entityIds := NonEmpty(EntityIds(comments));
    var seen: set<string> := {};
    songIds := [];
    for i := 0 to |entityIds|
      invariant songIds == Dedup(entityIds[..i])
      invariant forall id :: id in seen <==> id in songIds
    {
      assert entityIds[..i + 1] == entityIds[..i] + [entityIds[i]];
      DedupSnoc(entityIds[..i], entityIds[i]);
      if entityIds[i] !in seen {
        seen := seen + {entityIds[i]};
        songIds := songIds + [entityIds[i]];
      }
    }
    assert entityIds[..|entityIds|] == entityIds;
    forall i | 0 <= i < |comments| && comments[i].entityId.Some? && comments[i].entityId.value != ""
      ensures comments[i].entityId.value in songIds
    {
      NonEmptyKeeps(EntityIds(comments), i);
    }
  }

  /** Every non-empty element survives `filter(Boolean)`. */
  lemma {:induction false} NonEmptyKeeps(parts: seq<string>, i: int)
    requires 0 <= i < |parts| && parts[i] != ""
    ensures parts[i] in NonEmpty(parts)
  {
    if i > 0 {
      NonEmptyKeeps(parts[1..], i - 1);
    }
  }

  /** The entry's song: the artist's name, `""` when missing or empty. */
  function Summary(song: SongData): (r: SongSummary)
    ensures r.artist == if song.artistName.Some? then song.artistName.value else ""
  {
    SongSummary(song.customSongId, song.title, song.coverUrl, song.artistName.GetOr(""))
  }

  /** The `Map` filled by `forEach`/`set`: a later row with the same id replaces an earlier one. */
  function SongsMap(songs: seq<SongData>): (m: map<string, SongSummary>)
    ensures forall i | 0 <= i < |songs| :: songs[i].id in m
    ensures forall id | id in m :: exists i | 0 <= i < |songs| :: songs[i].id == id && m[id] == Summary(songs[i])
    decreases |songs|
  {
    if songs == [] then map[]
    else
      var init := songs[..|songs| - 1];
      var last := songs[|songs| - 1];
      assert forall i | 0 <= i < |init| :: init[i] == songs[i];
      SongsMap(init)[last.id := Summary(last)]
  }

  /** The `forEach` over the songs query's rows that fills the `Map`. */
  method BuildSongsMap(songs: seq<SongData>) returns (m: map<string, SongSummary>)
    ensures m == SongsMap(songs)
  {
    m := map[];
    for i := 0 to |songs|
      invariant m == SongsMap(songs[..i])
    {
      assert songs[..i + 1][..i] == songs[..i];
      m := m[songs[i].id := Summary(songs[i])];
    }
    assert songs[..|songs|] == songs;
  }

  /** The comment joined with its song, when the comment names a song of the map. */
  predicate Known(c: CommentRow, m: map<string, SongSummary>) {
    c.entityId.Some? && c.entityId.value in m
  }

  function EntryFor(c: CommentRow, m: map<string, SongSummary>): Entry
    requires Known(c, m)
  {
    Entry(c.id, c.content, c.createdAt, m[c.entityId.value])
  }

  /** The final `map`/`filter`: comments in their order, each with its song, the unknown ones dropped. */
  function JoinComments(comments: seq<CommentRow>, m: map<string, SongSummary>): (r: seq<Entry>)
    ensures |r| <= |comments|
    ensures forall e | e in r :: exists c | c in comments && Known(c, m) :: e == EntryFor(c, m)
    ensures forall c | c in comments && Known(c, m) :: EntryFor(c, m) in r
  {
    if comments == [] then []
    else (if Known(comments[0], m) then [EntryFor(comments[0], m)] else []) + JoinComments(comments[1..], m)
  }
  /** With no comment's song known, the join is empty. */
  lemma JoinUnknown(comments: seq<CommentRow>, m: map<string, SongSummary>)
    requires forall c | c in comments :: !Known(c, m)
    ensures JoinComments(comments, m) == []
  {
  }


  /** When every song is found, nothing is dropped and the order is the comments' own. */
  lemma {:induction false} JoinAllKnown(comments: seq<CommentRow>, m: map<string, SongSummary>)
    requires forall i | 0 <= i < |comments| :: Known(comments[i], m)
    ensures |JoinComments(comments, m)| == |comments|
    ensures forall i | 0 <= i < |comments| :: JoinComments(comments, m)[i] == EntryFor(comments[i], m)
  {
    if comments != [] {
      JoinAllKnown(comments[1..], m);
    }
  }

  /** Joining splits over concatenation: the entries of an earlier comment come before those of a later one. */
  lemma {:induction false} JoinAppend(a: seq<CommentRow>, b: seq<CommentRow>, m: map<string, SongSummary>)
    ensures JoinComments(a + b, m) == JoinComments(a, m) + JoinComments(b, m)
  {
    if a == [] {
      assert a + b == b;
    } else {
      assert (a + b)[1..] == a[1..] + b;
      JoinAppend(a[1..], b, m);
    }
  }

  /** The rows the songs query `.in("id", ids)` returns, in table order. */
  function SongsWithin(songs: seq<SongData>, ids: seq<string>): seq<SongData> {
    Within(songs, (s: SongData) => s.id, ids)
  }

  /**
   * `GET`. The comments query's answer (newest first, at most 100, content
   * not null) is `commentsQuery`, `Err` when it fails; the songs table and a
   * failure of the songs query are given. Every fallback answers `[]`.
   */
  method Get(configured: bool, clientPresent: bool, commentsQuery: Result<seq<CommentRow>>,
             songs: seq<SongData>, songsFail: bool) returns (comments: seq<Entry>)
    ensures !configured || !clientPresent || commentsQuery.Err? || commentsQuery.value == [] || songsFail ==> comments == []
    ensures commentsQuery.Ok? ==> |comments| <= |commentsQuery.value|
    ensures comments != [] ==>
              configured && clientPresent && commentsQuery.Ok? && !songsFail
              && comments == JoinComments(commentsQuery.value, SongsMap(SongsWithin(songs, Dedup(NonEmpty(EntityIds(commentsQuery.value))))))
    ensures configured && clientPresent && commentsQuery.Ok? && !songsFail ==>
              comments == JoinComments(commentsQuery.value, SongsMap(SongsWithin(songs, Dedup(NonEmpty(EntityIds(commentsQuery.value))))))
  {
    if !configured || !clientPresent {
      return [];
    }
    if commentsQuery.Err? || |commentsQuery.value| == 0 {
      if commentsQuery.Ok? {
        JoinUnknown(commentsQuery.value, SongsMap(SongsWithin(songs, Dedup(NonEmpty(EntityIds(commentsQuery.value))))));
      }
      return [];
    }
    var rows := commentsQuery.value;
    var songIds := UniqueSongIds(rows);
    if |songIds| == 0 {
      WithinNothing(songs, (s: SongData) => s.id);
      JoinUnknown(rows, map[]);
      return [];
    }
    if songsFail {
      return [];
    }
    var songsMap := BuildSongsMap(SongsWithin(songs, songIds));
    comments := JoinComments(rows, songsMap);
  }
}
