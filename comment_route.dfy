/**
 * `/api/interactions/comment`: list a song's comments, post a comment after
 * an ordered chain of checks and a per-device rate limit, and delete one's
 * own comment.
 */
module CommentRoute {
  import opened Wrappers
  import opened Strings
  import opened SupabaseStore
  import opened RequestHelpers
  import opened InteractionsTable

  const MinLength: nat := 5
  const MaxLength: nat := 300
  /** Thirty minutes in milliseconds. */
  const CommentWindow: int := 30 * 60 * 1000

  const NotConfiguredError: string := "Not configured"
  const MissingFields: string := "Missing fields"
  const TooShort: string := "Comment moet minimaal 5 tekens bevatten"
  const TooLong: string := "Comment mag maximaal 300 tekens bevatten"
  const HasLink: string := "Links zijn niet toegestaan in comments"
  const Profane: string := "Comment bevat ongepaste taal"
  const SongNotFound: string := "Song niet gevonden"
  const RateLimited: string := "Je kunt maar 1 comment per half uur plaatsen per nummer"
  const SaveError: string := "Fout bij opslaan"
  const DeleteError: string := "Fout bij verwijderen"
  const ServerError: string := "Server fout"

  /** The JSON answer `{ok, error?}` and its status. */
  datatype Reply = Reply(status: nat, ok: bool, error: Option<string>)

  /** The parsed request body; a field that is absent or not a string is `None`. */
  datatype CommentBody = CommentBody(customSongId: Option<string>, deviceId: Option<string>, content: Option<string>)
  datatype DeleteBody = DeleteBody(commentId: Option<string>, deviceId: Option<string>)

  /** The request headers the route reads. */
  datatype Headers = Headers(forwardedFor: Option<string>, userAgent: Option<string>)

  /** Which database calls fail. */
  datatype Faults = Faults(songLookup: bool, recentQuery: bool, insert: bool)

  /** JavaScript falsiness of an optional string field. */
  predicate Missing(v: Option<string>) {
    v.None? || v.value == ""
  }

  /**
   * The content checks, on the trimmed text, in the route's order: the
   * message of the first that fails, or `None` when the content passes.
   * Lengths are JavaScript's, in UTF-16 code units.
   */
  function ContentError(content: string, isProfane: string -> bool): (r: Option<string>)
    ensures r.None? <==> MinLength <= Utf16Length(Trim(content)) <= MaxLength && !HasUrl(Trim(content)) && !isProfane(Trim(content))
    ensures Utf16Length(Trim(content)) < MinLength ==> r == Some(TooShort)
    ensures r == Some(TooLong) <==> Utf16Length(Trim(content)) > MaxLength
    ensures r == Some(HasLink) <==> MinLength <= Utf16Length(Trim(content)) <= MaxLength && HasUrl(Trim(content))
    ensures r == Some(Profane) <==> MinLength <= Utf16Length(Trim(content)) <= MaxLength && !HasUrl(Trim(content)) && isProfane(Trim(content))
  {
    var t := Trim(content);
    if Utf16Length(t) < MinLength then Some(TooShort)
    else if Utf16Length(t) > MaxLength then Some(TooLong)
    else if HasUrl(t) then Some(HasLink)
    else if isProfane(t) then Some(Profane)
    else None
  }

  /**
   * Characters outside the Basic Multilingual Plane count twice: 150 emoji
   * (each one character) already make a comment too long.
   */
  lemma SurrogatePairsCountTwice(content: string, isProfane: string -> bool)
    requires |Trim(content)| > MaxLength / 2
    requires forall i | 0 <= i < |Trim(content)| :: Trim(content)[i] as int >= 0x1_0000
    ensures ContentError(content, isProfane) == Some(TooLong)
  {
    Utf16AllAstral(Trim(content));
  }

  /** Within the Basic Multilingual Plane the limits are on the number of characters. */
  lemma PlainTextCountsCharacters(content: string, isProfane: string -> bool)
    requires forall i | 0 <= i < |Trim(content)| :: Trim(content)[i] as int < 0x1_0000
    ensures ContentError(content, isProfane).None? <==>
              MinLength <= |Trim(content)| <= MaxLength && !HasUrl(Trim(content)) && !isProfane(Trim(content))
  { }

  /** A body with all three fields present and content that passes every check. */
  predicate Acceptable(body: CommentBody, isProfane: string -> bool) {
    !Missing(body.customSongId) && !Missing(body.deviceId) && !Missing(body.content)
    && ContentError(body.content.value, isProfane).None?
  }

  /** A comment by this device on this song created at most thirty minutes before `now`. */
  predicate RecentlyCommented(rows: seq<Row>, songId: string, deviceId: string, now: int) {
    exists i | 0 <= i < |rows| ::
      rows[i].entityId == songId && rows[i].entityType == SongEntity && rows[i].kind == Comment
      && rows[i].userId == deviceId && rows[i].createdAt >= now - CommentWindow
  }

  /** A comment just stored blocks the same device on the same song for thirty minutes. */
  lemma CommentStartsWindow(rows: seq<Row>, row: Row, now: int)
    requires row.entityType == SongEntity && row.kind == Comment
    requires now <= row.createdAt + CommentWindow
    ensures RecentlyCommented(rows + [row], row.entityId, row.userId, now)
  {
    assert (rows + [row])[|rows|] == row;
  }

  /** Once every comment of the device on the song is older than thirty minutes, it may comment again. */
  lemma WindowExpires(rows: seq<Row>, songId: string, deviceId: string, now: int)
    requires forall i | 0 <= i < |rows| && rows[i].entityId == songId && rows[i].userId == deviceId && rows[i].kind == Comment ::
               rows[i].createdAt < now - CommentWindow
    ensures !RecentlyCommented(rows, songId, deviceId, now)
  { }

  /** The `ip_hash` column: the hex digest of the address and salt, `""` when digesting fails. */
  function IpHash(digest: Option<seq<byte>>): string {
    if digest.None? then "" else HexEncode(digest.value)
  }

  /** The row a successful post stores: the trimmed content, by the device, on the song. */
  function CommentRow(id: string, songId: string, body: CommentBody, headers: Headers,
                      hash: string, now: int): Row
    requires body.deviceId.Some? && body.content.Some?
  {
    Row(id, songId, SongEntity, Comment, body.deviceId.value, Some(Trim(body.content.value)),
        hash, headers.userAgent.GetOr(""), now)
  }

  /**
   * `POST`. The digest of the address and salt, the profanity filter and
   * the `custom_song_id` to `songs.id` lookup are given; `body` is `None`
   * when the request body is not JSON, which the route's `catch` answers
   * with 500; `newId` is the id the database gives a new row.
   */
  method Post(table: Interactions, configured: bool, body: Option<CommentBody>, headers: Headers, salt: string,
              digest: string -> Option<seq<byte>>, isProfane: string -> bool, songIds: map<string, string>,
              faults: Faults, newId: string, now: int) returns (reply: Reply)
    modifies table
    ensures !configured ==> reply == Reply(503, false, Some(NotConfiguredError))
    ensures configured && body.None? ==> reply == Reply(500, false, Some(ServerError))
    ensures configured && body.Some? && (Missing(body.value.customSongId) || Missing(body.value.deviceId) || Missing(body.value.content))
            ==> reply == Reply(400, false, Some(MissingFields))
    ensures configured && body.Some? && !Missing(body.value.customSongId) && !Missing(body.value.deviceId) && !Missing(body.value.content)
            && ContentError(body.value.content.value, isProfane).Some?
            ==> reply == Reply(400, false, ContentError(body.value.content.value, isProfane))
    ensures configured && body.Some? && Acceptable(body.value, isProfane)
            && (faults.songLookup || body.value.customSongId.value !in songIds)
            ==> reply == Reply(404, false, Some(SongNotFound))
    ensures configured && body.Some? && Acceptable(body.value, isProfane)
            && !faults.songLookup && body.value.customSongId.value in songIds && !faults.recentQuery
            && RecentlyCommented(old(table.rows), songIds[body.value.customSongId.value], body.value.deviceId.value, now)
            ==> reply == Reply(429, false, Some(RateLimited))
    ensures reply.status == 200 <==>
              configured && body.Some? && Acceptable(body.value, isProfane)
              && !faults.songLookup && body.value.customSongId.value in songIds
              && (faults.recentQuery || !RecentlyCommented(old(table.rows), songIds[body.value.customSongId.value], body.value.deviceId.value, now))
              && !faults.insert
    ensures configured && body.Some? && Acceptable(body.value, isProfane)
            && !faults.songLookup && body.value.customSongId.value in songIds
            && (faults.recentQuery || !RecentlyCommented(old(table.rows), songIds[body.value.customSongId.value], body.value.deviceId.value, now))
            && faults.insert
            ==> reply == Reply(500, false, Some(SaveError))
    ensures reply.status == 200 ==> reply == Reply(200, true, None)
    ensures reply.status == 200 ==>
              table.rows == old(table.rows) + [CommentRow(newId, songIds[body.value.customSongId.value], body.value, headers,
                                                          IpHash(digest(FirstIp(headers.forwardedFor) + salt)), now)]
    ensures reply.status != 200 ==> table.rows == old(table.rows) && !reply.ok
  {
    if !configured {
      return Reply(503, false, Some(NotConfiguredError));
    }
    if body.None? {
      return Reply(500, false, Some(ServerError));
    }
    var b := body.value;
    if Missing(b.customSongId) || Missing(b.deviceId) || Missing(b.content) {
      return Reply(400, false, Some(MissingFields));
    }
    var contentError := ContentError(b.content.value, isProfane);
    if contentError.Some? {
      return Reply(400, false, contentError);
    }
    var trimmed := Trim(b.content.value);
    var ip := FirstIp(headers.forwardedFor);
    var userAgent := headers.userAgent.GetOr("");
    var ipHash := Sha256Hex(digest(ip + salt));
    if faults.songLookup || b.customSongId.value !in songIds {
      return Reply(404, false, Some(SongNotFound));
    }
    var songId := songIds[b.customSongId.value];
    if !faults.recentQuery && RecentlyCommented(table.rows, songId, b.deviceId.value, now) {
      return Reply(429, false, Some(RateLimited));
    }
    if faults.insert {
      return Reply(500, false, Some(SaveError));
    }
    table.Insert(Row(newId, songId, SongEntity, Comment, b.deviceId.value, Some(trimmed), ipHash, userAgent, now));
    return Reply(200, true, None);
  }

  /**
   * `GET`: the comments of one song. The query's answer (newest first, at
   * most 50) is given as `listing`, `Err` when it fails; every fallback
   * answers an empty list.
   */
  function Get(configured: bool, customSongId: Option<string>, songIds: map<string, string>,
               listing: Result<seq<Row>>): (comments: seq<Row>)
    ensures !configured || Missing(customSongId) || customSongId.value !in songIds || listing.Err? ==> comments == []
    ensures comments != [] ==> listing.Ok? && comments == listing.value
    ensures configured && !Missing(customSongId) && customSongId.value in songIds && listing.Ok? ==> comments == listing.value
  {
    if !configured || Missing(customSongId) then []
    else if customSongId.value !in songIds then []
    else if listing.Err? then []
    else listing.value
  }

  /** The rows a delete by this device of this comment removes: only its own comment. */
  function OwnComment(commentId: string, deviceId: string): Row -> bool {
    (x: Row) => x.id == commentId && x.kind == Comment && x.userId == deviceId
  }

  /** `DELETE`: removes the comment only when it is the device's own. */
  method Delete(table: Interactions, configured: bool, body: Option<DeleteBody>, deleteFails: bool) returns (reply: Reply)
    modifies table
    ensures !configured ==> reply == Reply(503, false, None)
    ensures configured && body.None? ==> reply == Reply(500, false, Some(ServerError))
    ensures configured && body.Some? && (Missing(body.value.commentId) || Missing(body.value.deviceId))
            ==> reply == Reply(400, false, Some(MissingFields))
    ensures reply.ok <==> configured && body.Some? && !Missing(body.value.commentId) && !Missing(body.value.deviceId) && !deleteFails
    ensures reply.ok ==> reply == Reply(200, true, None)
    ensures reply.ok ==> table.rows == Without(old(table.rows), OwnComment(body.value.commentId.value, body.value.deviceId.value))
    ensures !reply.ok ==> table.rows == old(table.rows)
  {
    if !configured {
      return Reply(503, false, None);
    }
    if body.None? {
      return Reply(500, false, Some(ServerError));
    }
    var b := body.value;
    if Missing(b.commentId) || Missing(b.deviceId) {
      return Reply(400, false, Some(MissingFields));
    }
    if deleteFails {
      return Reply(500, false, Some(DeleteError));
    }
    table.Delete(OwnComment(b.commentId.value, b.deviceId.value));
    return Reply(200, true, None);
  }
}
