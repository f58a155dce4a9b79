/**
 * The favourites kept in the browser under `favorite_song_custom_ids`:
 * either an array of song ids (the older form) or an object from song id to
 * the time it was added. JSON parsing is modelled by the shape of the value.
 */
module LocalFavorites {

  /**
   * The stored value: absent (also the texts "undefined" and "null", an
   * empty text, or storage that throws), unparseable, a JSON value that is
   * neither array nor object, an array of ids, or an id to timestamp object.
   */
  datatype Stored = Missing | Malformed | OtherJson | IdArray(ids: seq<string>) | IdObject(stamps: map<string, int>)

  /** `getFavoritesLocal`: the ids marked favourite. */
  function Favorites(s: Stored): (favs: set<string>)
    ensures s.IdArray? ==> forall id :: id in favs <==> id in s.ids
    ensures s.IdObject? ==> favs == s.stamps.Keys
    ensures !s.IdArray? && !s.IdObject? ==> favs == {}
  {
    match s
    case IdArray(ids) => set i | 0 <= i < |ids| :: ids[i]
    case IdObject(stamps) => stamps.Keys
    case _ => {}
  }

  /** `getFavoriteTimestamps`: an array's ids all stamped `now`; an object as stored. */
  function Timestamps(s: Stored, now: int): (ts: map<string, int>)
    ensures s.IdArray? ==> forall id | id in ts :: ts[id] == now
    ensures s.IdObject? ==> ts == s.stamps
  {
    match s
    case IdArray(ids) => map i | 0 <= i < |ids| :: ids[i] := now
    case IdObject(stamps) => stamps
    case _ => map[]
  }

  /** Both readers see the same ids: the timestamps are keyed exactly by the favourites. */
  lemma TimestampsKeyedByFavorites(s: Stored, now: int)
    ensures Timestamps(s, now).Keys == Favorites(s)
  {
    if s.IdArray? {
      forall id | id in Favorites(s) ensures id in Timestamps(s, now) {
        var i :| 0 <= i < |s.ids| && s.ids[i] == id;
      }
    }
  }

  /** The object `setFavoritesLocal` writes: exactly the given ids, keeping a non-zero stored time, else `now`. */
  function Merged(favs: set<string>, ts: map<string, int>, now: int): (m: map<string, int>)
    ensures m.Keys == favs
    ensures forall id | id in favs && id in ts && ts[id] != 0 :: m[id] == ts[id]
    ensures forall id | id in favs && (id !in ts || ts[id] == 0) :: m[id] == now
  {
    map id | id in favs :: if id in ts && ts[id] != 0 then ts[id] else now
  }

  /** The value `toggleFavoriteLocal` writes: the timestamp object without the id, or with it stamped `now`. */
  function Toggled(s: Stored, id: string, now: int): (r: Stored)
    ensures r.IdObject?
    ensures Favorites(r) == if id in Favorites(s) then Favorites(s) - {id} else Favorites(s) + {id}
    ensures id !in Favorites(s) ==> r.stamps[id] == now
    ensures forall k | k != id && k in Timestamps(s, now) :: k in r.stamps && r.stamps[k] == Timestamps(s, now)[k]
  {
    TimestampsKeyedByFavorites(s, now);
    var ts := Timestamps(s, now);
    if id in Favorites(s) then IdObject(ts - {id}) else IdObject(ts[id := now])
  }

  /** Toggling the same id twice gives back the original set of favourites. */
  lemma ToggleTwice(s: Stored, id: string, now: int, later: int)
    ensures Favorites(Toggled(Toggled(s, id, now), id, later)) == Favorites(s)
  {
    var once := Toggled(s, id, now);
    if id in Favorites(s) {
      assert id !in Favorites(once);
    } else {
      assert id in Favorites(once);
    }
  }

  /** The browser's storage slot for the favourites. */
  class LocalStore {
    var stored: Stored

    constructor(stored: Stored)
      ensures this.stored == stored
    {
      this.stored := stored;
    }

    /** `setFavoritesLocal`: the loop over the given ids builds the merged object, which replaces the value. */
    method SetFavorites(favs: set<string>, now: int)
      modifies this
      ensures stored == IdObject(Merged(favs, Timestamps(old(stored), now), now))
    {
      var ts := Timestamps(stored, now);
      var merged: map<string, int> := map[];
      var rest := favs;
      while rest != {}
        invariant rest <= favs
        invariant merged == Merged(favs - rest, ts, now)
        decreases |rest|
      {
        var id :| id in rest;
        merged := merged[id := if id in ts && ts[id] != 0 then ts[id] else now];
        rest := rest - {id};
      }
      stored := IdObject(merged);
    }

    /** `toggleFavoriteLocal`: flips one id and answers the favourites as now stored. */
    method Toggle(id: string, now: int) returns (favs: set<string>)
      modifies this
      ensures stored == Toggled(old(stored), id, now)
      ensures favs == Favorites(stored)
    {
      var current := Favorites(stored);
      var currentTs := Timestamps(stored, now);
      TimestampsKeyedByFavorites(stored, now);
      if id in current {
        currentTs := currentTs - {id};
      } else {
        currentTs := currentTs[id := now];
      }
      stored := IdObject(currentTs);
      favs := Favorites(stored);
    }
  }
}
