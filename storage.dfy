/**
 * The older file store in `GlobalState/Storage.ts`: the same files and the
 * same `ID`-keyed merge as `FileSystemStore`, with a `saveSongs` that returns
 * nothing and a `loadSongs` without a limit.
 */
module LegacyStorage {
  import opened Wrappers
  import opened FetchSongs
  import opened FlatFiles
  import opened FileSystemStore

  class FileSystemStorage {
    var listFile: ListFile
    var songFiles: map<string, RecentSong>

    constructor(listFile: ListFile, songFiles: map<string, RecentSong>)
      ensures this.listFile == listFile && this.songFiles == songFiles
    {
      this.listFile := listFile;
      this.songFiles := songFiles;
    }

    /** `saveSongs`: the missing per-song files, then the merged list; it throws on an unparseable list. */
    method SaveSongs(songs: seq<RecentSong>) returns (r: Result<()>)
      modifies this
      ensures songFiles == FilesAfter(old(songFiles), songs, IdFileName, AsIs)
      ensures r.Ok? <==> old(listFile) != Malformed
      ensures r.Ok? ==> listFile == Tracks(MergeList(ReadList(old(listFile)).value, songs, IdField, AsIs))
      ensures r.Err? ==> listFile == old(listFile)
    {
      EnsureSongFiles(songs);
      r := EnsureSongList(songs);
    }

    /** `loadSongs`: the stored list, or `[]` when there is no list file. */
    method LoadSongs() returns (r: Result<seq<RecentSong>>)
      ensures r.Err? <==> listFile == Malformed
      ensures listFile.Tracks? ==> r == Ok(listFile.tracks)
      ensures listFile == Absent ==> r == Ok([])
    {
      r := ReadList(listFile);
    }

    /** `ensureSongFiles`: existing per-song files are never overwritten. */
    method EnsureSongFiles(songs: seq<RecentSong>)
      modifies this
      ensures songFiles == FilesAfter(old(songFiles), songs, IdFileName, AsIs)
      ensures listFile == old(listFile)
    {
      for i := 0 to |songs|
        invariant songFiles == FilesAfter(old(songFiles), songs[..i], IdFileName, AsIs)
        invariant listFile == old(listFile)
      {
        assert songs[..i + 1][..i] == songs[..i];
        var fileName := IdFileName(songs[i]);
        if fileName !in songFiles {
          songFiles := songFiles[fileName := songs[i]];
        }
      }
      assert songs[..|songs|] == songs;
    }

    /** `ensureSongList`: the old list kept as a prefix, then the batch songs with an unseen `ID`. */
    method EnsureSongList(songs: seq<RecentSong>) returns (r: Result<()>)
      modifies this
      ensures r.Ok? <==> old(listFile) != Malformed
      ensures r.Ok? ==> listFile == Tracks(MergeList(ReadList(old(listFile)).value, songs, IdField, AsIs))
      ensures r.Err? ==> listFile == old(listFile)
      ensures songFiles == old(songFiles)
    {
      var existing := LoadSongs();
      if existing.Err? {
        return Err(existing.message);
      }
      listFile := Tracks(MergeList(existing.value, songs, IdField, AsIs));
      return Ok(());
    }
  }
}
