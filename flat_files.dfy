/**
 * The JSON files under `data/songs`, shared by the songs route and both
 * file-system stores: one list file holding `modifiedTracks`, and one file
 * per song, named after a key of the song, that is written only when absent.
 */
module FlatFiles {
  import opened Wrappers
  import opened FetchSongs

  /**
   * The list file `latest-songs.json`: absent, unparseable, or parsed. A
   * parsed file whose `modifiedTracks` field is missing reads as `Tracks([])`
   * (the source's `modifiedTracks || []`).
   */
  datatype ListFile = Absent | Malformed | Tracks(tracks: seq<RecentSong>)

  /** Reading the list: the stored tracks, `[]` when there is no file, an error when `JSON.parse` throws. */
  function ReadList(f: ListFile): (r: Result<seq<RecentSong>>)
    ensures r.Err? <==> f == Malformed
    ensures f == Absent ==> r == Ok([])
    ensures f.Tracks? ==> r == Ok(f.tracks)
    ensures r.Ok? && r.value != [] ==> f.Tracks? && r.value == f.tracks
  {
    match f
    case Absent => Ok([])
    case Malformed => Err("Unexpected token in JSON")
    case Tracks(tracks) => Ok(tracks)
  }

  /** The per-song files after writing `content` under `name` unless a file of that name exists. */
  function AddIfAbsent(files: map<string, RecentSong>, name: string, content: RecentSong): (r: map<string, RecentSong>)
    ensures r.Keys == files.Keys + {name}
    ensures forall k | k in files :: r[k] == files[k]
  {
    if name in files then files else files[name := content]
  }

  /** The per-song files after the `forEach` over `songs` has run: each song in turn is written if absent. */
  function FilesAfter(files: map<string, RecentSong>, songs: seq<RecentSong>,
                      name: RecentSong -> string, content: RecentSong -> RecentSong): map<string, RecentSong>
    decreases |songs|
  {
    if songs == [] then files
    else
      var last := songs[|songs| - 1];
      AddIfAbsent(FilesAfter(files, songs[..|songs| - 1], name, content), name(last), content(last))
  }

  /** The names of the songs' files. */
  function Names(songs: seq<RecentSong>, name: RecentSong -> string): set<string> {
    set i | 0 <= i < |songs| :: name(songs[i])
  }

  /** Existing files are never overwritten, and exactly one file exists per name afterwards. */
  lemma {:induction false} FilesAfterKeepsExisting(files: map<string, RecentSong>, songs: seq<RecentSong>,
                                                   name: RecentSong -> string, content: RecentSong -> RecentSong)
    ensures FilesAfter(files, songs, name, content).Keys == files.Keys + Names(songs, name)
    ensures forall k | k in files :: FilesAfter(files, songs, name, content)[k] == files[k]
    decreases |songs|
  {
    if songs != [] {
      var init := songs[..|songs| - 1];
      FilesAfterKeepsExisting(files, init, name, content);
      assert Names(songs, name) == Names(init, name) + {name(songs[|songs| - 1])} by {
        forall k | k in Names(songs, name) ensures k in Names(init, name) + {name(songs[|songs| - 1])} {
          var i :| 0 <= i < |songs| && name(songs[i]) == k;
          if i < |songs| - 1 {
            assert init[i] == songs[i];
          }
        }
        forall k | k in Names(init, name) ensures k in Names(songs, name) {
          var i :| 0 <= i < |init| && name(init[i]) == k;
          assert songs[i] == init[i];
        }
      }
    }
  }

  /** A new file holds the content of the first song of the batch with that name. */
  lemma {:induction false} FilesAfterFirstWins(files: map<string, RecentSong>, songs: seq<RecentSong>,
                                               name: RecentSong -> string, content: RecentSong -> RecentSong, i: int)
    requires 0 <= i < |songs| && name(songs[i]) !in files
    requires forall j | 0 <= j < i :: name(songs[j]) != name(songs[i])
    ensures name(songs[i]) in FilesAfter(files, songs, name, content)
    ensures FilesAfter(files, songs, name, content)[name(songs[i])] == content(songs[i])
    decreases |songs|
  {
    var init := songs[..|songs| - 1];
    var k := name(songs[i]);
    if i == |songs| - 1 {
      FilesAfterKeepsExisting(files, init, name, content);
      forall j | 0 <= j < |init| ensures name(init[j]) != k {
        assert init[j] == songs[j];
      }
    } else {
      assert init[i] == songs[i];
      FilesAfterFirstWins(files, init, name, content, i);
    }
  }

  /** The keys the stored songs already have. */
  function KnownKeys<K>(existing: seq<RecentSong>, key: RecentSong -> K): set<K> {
    set i | 0 <= i < |existing| :: key(existing[i])
  }

  /** The batch songs whose key is not known, in batch order; songs of the batch are not compared with each other. */
  function Unseen<K>(known: set<K>, batch: seq<RecentSong>, key: RecentSong -> K): (r: seq<RecentSong>)
    ensures |r| <= |batch|
    ensures forall s | s in r :: s in batch && key(s) !in known
    ensures forall s | s in batch && key(s) !in known :: s in r
  {
    if batch == [] then []
    else (if key(batch[0]) in known then [] else [batch[0]]) + Unseen(known, batch[1..], key)
  }

  /** The unseen songs of two runs are those of the first run followed by those of the second: batch order and repeats are kept. */
  lemma {:induction false} UnseenAppend<K>(known: set<K>, a: seq<RecentSong>, b: seq<RecentSong>, key: RecentSong -> K)
    ensures Unseen(known, a + b, key) == Unseen(known, a, key) + Unseen(known, b, key)
    decreases |a|
  {
    if a == [] {
      assert a + b == b;
    } else {
      assert (a + b)[0] == a[0];
      assert (a + b)[1..] == a[1..] + b;
      UnseenAppend(known, a[1..], b, key);
    }
  }

  /** A batch whose keys are all new is appended whole, duplicates included. */
  lemma {:induction false} UnseenKeepsDuplicates<K>(known: set<K>, batch: seq<RecentSong>, key: RecentSong -> K)
    requires forall i | 0 <= i < |batch| :: key(batch[i]) !in known
    ensures Unseen(known, batch, key) == batch
  {
    if batch != [] {
      UnseenKeepsDuplicates(known, batch[1..], key);
    }
  }

  /** A batch whose keys are all known adds nothing. */
  lemma {:induction false} UnseenOfKnown<K>(known: set<K>, batch: seq<RecentSong>, key: RecentSong -> K)
    requires forall i | 0 <= i < |batch| :: key(batch[i]) in known
    ensures Unseen(known, batch, key) == []
  {
    if batch != [] {
      UnseenOfKnown(known, batch[1..], key);
    }
  }

  /** `tag` applied to every song. */
  function Tagged(songs: seq<RecentSong>, tag: RecentSong -> RecentSong): (r: seq<RecentSong>)
    ensures |r| == |songs|
    ensures forall i | 0 <= i < |songs| :: r[i] == tag(songs[i])
  {
    seq(|songs|, i requires 0 <= i < |songs| => tag(songs[i]))
  }

  /**
   * The list written by `ensureSongList`: the stored list unchanged, followed
   * by the batch songs whose key is not among the stored ones, each passed
   * through `tag`.
   */
  function MergeList<K(==)>(existing: seq<RecentSong>, batch: seq<RecentSong>,
                        key: RecentSong -> K, tag: RecentSong -> RecentSong): (r: seq<RecentSong>)
    ensures |existing| <= |r| <= |existing| + |batch|
    ensures r[..|existing|] == existing
    ensures forall i | |existing| <= i < |r| ::
              exists s | s in batch :: key(s) !in KnownKeys(existing, key) && r[i] == tag(s)
    ensures forall s | s in batch && key(s) !in KnownKeys(existing, key) :: tag(s) in r[|existing|..]
    ensures r[|existing|..] == Tagged(Unseen(KnownKeys(existing, key), batch, key), tag)
  {
    var added := Unseen(KnownKeys(existing, key), batch, key);
    var r := existing + Tagged(added, tag);
    assert r[|existing|..] == Tagged(added, tag);
    forall i | |existing| <= i < |r|
      ensures exists s | s in batch :: key(s) !in KnownKeys(existing, key) && r[i] == tag(s)
    {
      assert added[i - |existing|] in added;
    }
    forall s | s in batch && key(s) !in KnownKeys(existing, key)
      ensures tag(s) in r[|existing|..]
    {
      var j :| 0 <= j < |added| && added[j] == s;
      assert Tagged(added, tag)[j] == tag(s);
    }
    r
  }

  /**
   * Merging the same batch a second time changes nothing, provided tagging
   * keeps the key: replaying a fetch leaves the list as it is.
   */
  lemma MergeListIdempotent<K>(existing: seq<RecentSong>, batch: seq<RecentSong>,
                               key: RecentSong -> K, tag: RecentSong -> RecentSong)
    requires forall s :: key(tag(s)) == key(s)
    ensures MergeList(MergeList(existing, batch, key, tag), batch, key, tag) == MergeList(existing, batch, key, tag)
  {
    var merged := MergeList(existing, batch, key, tag);
    var known := KnownKeys(merged, key);
    forall i | 0 <= i < |batch| ensures key(batch[i]) in known {
      var s := batch[i];
      if key(s) in KnownKeys(existing, key) {
        var j :| 0 <= j < |existing| && key(existing[j]) == key(s);
        assert merged[j] == existing[j];
      } else {
        assert tag(s) in merged[|existing|..];
        var j :| |existing| <= j < |merged| && merged[j] == tag(s);
        assert key(merged[j]) == key(s);
      }
    }
    UnseenOfKnown(known, batch, key);
    assert Tagged([], tag) == [];
    assert merged + [] == merged;
  }

  /** When no batch key is stored yet, the whole batch is appended, duplicates included. */
  lemma MergeFreshBatch<K>(existing: seq<RecentSong>, batch: seq<RecentSong>,
                           key: RecentSong -> K, tag: RecentSong -> RecentSong)
    requires forall i | 0 <= i < |batch| :: key(batch[i]) !in KnownKeys(existing, key)
    ensures MergeList(existing, batch, key, tag) == existing + Tagged(batch, tag)
  {
    UnseenKeepsDuplicates(KnownKeys(existing, key), batch, key);
  }
}
