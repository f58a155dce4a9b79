/**
 * `POST /api/interactions/like`: record or withdraw a device's like of a
 * song. Apart from a request missing its ids, every path answers `ok`.
 */
module LikeRoute {
  import opened Wrappers
  import opened SupabaseStore
  import opened RequestHelpers
  import opened InteractionsTable
  import opened CommentRoute

  /** The parsed body; `like` is the truthiness of its `like` field. */
  datatype LikeBody = LikeBody(customSongId: Option<string>, deviceId: Option<string>, like: bool)

  /** The like rows of one device on one song: what an unlike deletes. */
  function LikeOf(songId: string, deviceId: string): Row -> bool {
    (x: Row) => x.entityId == songId && x.entityType == SongEntity && x.kind == Like && x.userId == deviceId
  }

  /** The row a like inserts: no content. */
  function LikeRow(id: string, songId: string, deviceId: string, headers: Headers, hash: string, now: int): Row {
    Row(id, songId, SongEntity, Like, deviceId, None, hash, headers.userAgent.GetOr(""), now)
  }

  /**
   * `POST`. The insert's and the delete's own errors are not checked by the
   * route: a failing write (`writeFails`) changes nothing and still answers
   * `ok`. A body that is not JSON lands in the `catch`, which answers `ok`.
   */
  method Post(table: Interactions, configured: bool, body: Option<LikeBody>, headers: Headers, salt: string,
              digest: string -> Option<seq<byte>>, songIds: map<string, string>, songLookupFails: bool,
              writeFails: bool, newId: string, now: int) returns (reply: Reply)
    modifies table
    ensures reply.status == 400 <==> configured && body.Some? && (Missing(body.value.customSongId) || Missing(body.value.deviceId))
    ensures reply.status == 400 ==> reply == Reply(400, false, None)
    ensures reply.status != 400 ==> reply == Reply(200, true, None)
    ensures (!configured || body.None? || reply.status == 400 || songLookupFails || writeFails
             || body.value.customSongId.value !in songIds) ==> table.rows == old(table.rows)
    ensures configured && body.Some? && reply.status != 400 && !songLookupFails && !writeFails
            && body.value.customSongId.value in songIds ==>
              var songId := songIds[body.value.customSongId.value];
              var deviceId := body.value.deviceId.value;
              if body.value.like
              then table.rows == old(table.rows) + [LikeRow(newId, songId, deviceId, headers,
                                                            IpHash(digest(FirstIp(headers.forwardedFor) + salt)), now)]
              else table.rows == Without(old(table.rows), LikeOf(songId, deviceId))
  {
    if !configured {
      return Reply(200, true, None);
    }
    if body.None? {
      return Reply(200, true, None);
    }
    var b := body.value;
    if Missing(b.customSongId) || Missing(b.deviceId) {
      return Reply(400, false, None);
    }
    var ip := FirstIp(headers.forwardedFor);
    var ipHash := Sha256Hex(digest(ip + salt));
    if songLookupFails || b.customSongId.value !in songIds {
      return Reply(200, true, None);
    }
    var songId := songIds[b.customSongId.value];
    if b.like {
      if !writeFails {
        table.Insert(LikeRow(newId, songId, b.deviceId.value, headers, ipHash, now));
      }
    } else {
      if !writeFails {
        table.Delete(LikeOf(songId, b.deviceId.value));
      }
    }
    return Reply(200, true, None);
  }

  /** Unliking right after a like leaves the table as the unlike alone would have. */
  lemma UnlikeUndoesLike(rows: seq<Row>, id: string, songId: string, deviceId: string, headers: Headers, hash: string, now: int)
    ensures Without(rows + [LikeRow(id, songId, deviceId, headers, hash, now)], LikeOf(songId, deviceId))
         == Without(rows, LikeOf(songId, deviceId))
  {
    var row := LikeRow(id, songId, deviceId, headers, hash, now);
    WithoutAppend(rows, [row], LikeOf(songId, deviceId));
    assert Without([row], LikeOf(songId, deviceId)) == [] + Without([], LikeOf(songId, deviceId));
  }
}
