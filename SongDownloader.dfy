/** The song downloader: lists a playlist, keeps the videos whose TITLE is not in the
    playlist's ledger, downloads each one's audio with a bounded retry, and then
    appends every new title to the ledger, whether its download succeeded or not. */
module SongDownloader {
  import opened Wrappers
  import opened Filenames
  import opened Selection
  import opened Ledger

  /** The default `retries` of download_song_to_directory, the one main uses. */
  const DefaultRetries: int := 3

  /** How many times `for _ in range(retries)` runs its body at most. */
  function AttemptsAllowed(retries: int): nat {
    if retries < 0 then 0 else retries
  }

  /** download_song_to_directory: up to `retries` attempts, stopping at the first one that
      completes (`attemptSucceeds(k)` tells whether attempt k raises); a failure is
      reported and retried, and the last one is swallowed. Returns the attempts made and,
      when one succeeded, the audio file name it wrote. */
  method DownloadSong(title: string, retries: int, attemptSucceeds: nat -> bool)
    returns (attempts: nat, audio: Option<string>)
    ensures attempts <= AttemptsAllowed(retries)
    ensures audio.Some? <==> exists k :: 0 <= k < retries && attemptSucceeds(k)
    ensures audio.Some? ==>
      && attempts >= 1 && attemptSucceeds(attempts - 1)
      && (forall k :: 0 <= k < attempts - 1 ==> !attemptSucceeds(k))
      && audio.value == SafeName(title, ".mp3")
    ensures audio.None? ==> attempts == AttemptsAllowed(retries)
  {
    var sanitizedTitle := SanitizeFilename(title);
    attempts, audio := 0, None;
    var k := 0;
    while k < retries
      invariant 0 <= k <= AttemptsAllowed(retries)
      invariant attempts == k && audio.None?
      invariant forall j :: 0 <= j < k ==> !attemptSucceeds(j)
    {
      attempts := attempts + 1;
      if attemptSucceeds(k) {
        audio := Some(sanitizedTitle + ".mp3");
        break;
      }
      k := k + 1;
    }
  }

  /** The test of the song downloader: the title is not among the ledger's titles. */
  function UnknownTitle(existing: seq<string>): Video -> bool {
    (v: Video) => v.title !in existing
  }

  /** `[video for video in playlist.videos if video.title not in existing_songs]`. */
  function NewSongs(videos: seq<Video>, existing: seq<string>): seq<Video> {
    Select(videos, UnknownTitle(existing))
  }

  /** `[video.title for video in new_songs]`. */
  function Titles(videos: seq<Video>): seq<string> {
    seq(|videos|, i requires 0 <= i < |videos| => videos[i].title)
  }

  /** How a run of the song downloader ends when the ledger could be read. */
  datatype SongReport =
    | NoNewSongs
    | Downloaded(folder: string, songs: seq<Video>, succeeded: seq<bool>)

  /** Whether the download of each of `count` songs succeeded, with the default retries;
      `attemptSucceeds(i, k)` tells whether attempt k for song i completes. */
  function DownloadResults(count: nat, attemptSucceeds: (nat, nat) -> bool): seq<bool> {
    seq(count, i requires 0 <= i < count => exists k :: 0 <= k < DefaultRetries && attemptSucceeds(i, k))
  }

  /** What a run of the song downloader leaves on disk and reports. */
  function SongRun(songsDirectory: string, playlistTitle: string, videos: seq<Video>, today: string,
                   disk: Disk, attemptSucceeds: (nat, nat) -> bool): (Disk, Result<SongReport, Error>)
  {
    var path := CsvPath(songsDirectory, playlistTitle);
    var (loaded, existing) := GetExistingSongs(disk, path);
    if existing.Failure? then (loaded, Failure(existing.error))
    else
      var newSongs := NewSongs(videos, existing.value);
      if newSongs == [] then (loaded, Success(NoNewSongs))
      else
        (loaded[path := loaded[path] + TitleRows(Titles(newSongs))],
         Success(Downloaded(today, newSongs, DownloadResults(|newSongs|, attemptSucceeds))))
  }

  /** main of the song downloader. The playlist's title and videos, the date-stamped folder
      name and the outcome of every download attempt are given. */
  method Run(songsDirectory: string, playlistTitle: string, videos: seq<Video>, today: string,
             disk: Disk, attemptSucceeds: (nat, nat) -> bool)
    returns (disk': Disk, report: Result<SongReport, Error>)
    ensures (disk', report) == SongRun(songsDirectory, playlistTitle, videos, today, disk, attemptSucceeds)
  {
    var sanitizedTitle := SanitizeFilename(playlistTitle);
    var csvPath := Path(songsDirectory, sanitizedTitle + ".csv");
    var loaded := GetExistingSongs(disk, csvPath);
    var existingSongs := loaded.1;
    disk' := loaded.0;
    if existingSongs.Failure? {
      report := Failure(existingSongs.error);
      return;
    }
    var newSongs := NewSongs(videos, existingSongs.value);
    if newSongs == [] {
      report := Success(NoNewSongs);
      return;
    }
    var newFolder := today;
    var succeeded: seq<bool> := [];
    for i := 0 to |newSongs|
      invariant succeeded == DownloadResults(i, attemptSucceeds)
    {
      var song: nat := i;
      var attemptOk := (k: nat) => attemptSucceeds(song, k);
      var attempts, audio := DownloadSong(newSongs[i].title, DefaultRetries, attemptOk);
      if audio.Some? {
        var k :| 0 <= k < DefaultRetries && attemptOk(k);
        assert attemptSucceeds(song, k);
      } else {
        forall k | 0 <= k < DefaultRetries ensures !attemptSucceeds(song, k) {
          assert !attemptOk(k);
        }
      }
      succeeded := succeeded + [audio.Some?];
      assert succeeded == DownloadResults(i + 1, attemptSucceeds);
    }
    disk' := disk'[csvPath := disk'[csvPath] + TitleRows(Titles(newSongs))];
    report := Success(Downloaded(newFolder, newSongs, succeeded));
  }

  /** A run changes no file but its ledger. It fails exactly when the ledger exists and
      has a blank row; when it fails or finds no new song it stops before the folder and
      before any append. */
  lemma SongRunTouchesOnlyItsLedger(songsDirectory: string, playlistTitle: string, videos: seq<Video>, today: string,
                                    disk: Disk, attemptSucceeds: (nat, nat) -> bool)
    ensures var path := CsvPath(songsDirectory, playlistTitle);
      var (disk', report) := SongRun(songsDirectory, playlistTitle, videos, today, disk, attemptSucceeds);
      var rows := if path in disk then disk[path] else [];
      && disk'.Keys == disk.Keys + {path}
      && (forall q :: q in disk && q != path ==> disk'[q] == disk[q])
      && (report.Failure? <==> path in disk && exists i :: 0 <= i < |rows| && rows[i] == [])
      && (report.Failure? || report.value.NoNewSongs? ==> disk'[path] == rows)
  {
    var path := CsvPath(songsDirectory, playlistTitle);
    if path in disk {
      FirstFieldsSpec(disk[path]);
    }
  }

  /** The ledger after appending the titles of `songs`: the old rows, then one row per song. */
  lemma AppendedTitles(rows: seq<Row>, songs: seq<Video>)
    ensures var ledger := rows + TitleRows(Titles(songs));
      && |ledger| == |rows| + |songs|
      && ledger[..|rows|] == rows
      && forall i :: 0 <= i < |songs| ==> ledger[|rows| + i] == [songs[i].title]
  {
    var added := TitleRows(Titles(songs));
    TitleRowsSpec(Titles(songs));
    assert (rows + added)[..|rows|] == rows;
    forall i | 0 <= i < |songs| ensures (rows + added)[|rows| + i] == [songs[i].title] {
      assert added[i] == [Titles(songs)[i]];
    }
  }

  /** When a run finds new songs, the ledger keeps its rows and gains one row per new
      song; reading it back yields the titles it held, then the new titles in order. */
  lemma SongRunAppendsNewTitles(songsDirectory: string, playlistTitle: string, videos: seq<Video>, today: string,
                                disk: Disk, attemptSucceeds: (nat, nat) -> bool)
    ensures var path := CsvPath(songsDirectory, playlistTitle);
      var run := SongRun(songsDirectory, playlistTitle, videos, today, disk, attemptSucceeds);
      var rows := if path in disk then disk[path] else [];
      run.1.Success? && run.1.value.Downloaded? ==>
        && |run.0[path]| == |rows| + |run.1.value.songs|
        && run.0[path][..|rows|] == rows
        && (forall i :: 0 <= i < |run.1.value.songs| ==> run.0[path][|rows| + i] == [run.1.value.songs[i].title])
        && FirstFields(run.0[path]) == Success(FirstFields(rows).value + Titles(run.1.value.songs))
  {
    var path := CsvPath(songsDirectory, playlistTitle);
    var rows := if path in disk then disk[path] else [];
    var loaded, existing := GetExistingSongs(disk, path).0, GetExistingSongs(disk, path).1;
    var run := SongRun(songsDirectory, playlistTitle, videos, today, disk, attemptSucceeds);
    if run.1.Success? && run.1.value.Downloaded? {
      var songs := run.1.value.songs;
      assert existing.Success? && songs == NewSongs(videos, existing.value);
      assert loaded[path] == rows;
      AppendedTitles(rows, songs);
      TitlesRoundTrip(rows, Titles(songs));
    }
  }

  /** The songs a run downloads, into the folder named after the date, are the videos of
      the playlist whose title is not in the ledger, in playlist order and once per
      occurrence. */
  lemma SongRunDownloadsUnknownTitles(songsDirectory: string, playlistTitle: string, videos: seq<Video>, today: string,
                                      disk: Disk, attemptSucceeds: (nat, nat) -> bool)
    ensures var path := CsvPath(songsDirectory, playlistTitle);
      var report := SongRun(songsDirectory, playlistTitle, videos, today, disk, attemptSucceeds).1;
      var rows := if path in disk then disk[path] else [];
      report.Success? && report.value.Downloaded? ==>
        && report.value.folder == today
        && |report.value.succeeded| == |report.value.songs|
        && (forall v :: v in report.value.songs <==> v in videos && v.title !in FirstFields(rows).value)
        && (var kept := KeptIndices(videos, UnknownTitle(FirstFields(rows).value));
            && |report.value.songs| == |kept|
            && (forall j :: 0 <= j < |kept| ==> report.value.songs[j] == videos[kept[j]]))
  {
    var path := CsvPath(songsDirectory, playlistTitle);
    var rows := if path in disk then disk[path] else [];
    var existing := GetExistingSongs(disk, path).1;
    if existing.Success? {
      assert existing.value == FirstFields(rows).value;
      SelectMembership(videos, UnknownTitle(existing.value));
      SelectIsKeptSubsequence(videos, UnknownTitle(existing.value));
    }
  }

  /** Whether downloads succeed has no effect on what the ledger records. */
  lemma LedgerIgnoresDownloadOutcomes(songsDirectory: string, playlistTitle: string, videos: seq<Video>, today: string,
                                      disk: Disk, f: (nat, nat) -> bool, g: (nat, nat) -> bool)
    ensures SongRun(songsDirectory, playlistTitle, videos, today, disk, f).0
         == SongRun(songsDirectory, playlistTitle, videos, today, disk, g).0
  {
  }

  /** After the titles of the new songs are added to the known titles, no song is new. */
  lemma KnowingNewTitlesLeavesNothingNew(videos: seq<Video>, existing: seq<string>)
    ensures NewSongs(videos, existing + Titles(NewSongs(videos, existing))) == []
  {
    var newSongs := NewSongs(videos, existing);
    var existing1 := existing + Titles(newSongs);
    SelectMembership(videos, UnknownTitle(existing));
    forall i | 0 <= i < |videos| ensures !UnknownTitle(existing1)(videos[i]) {
      var v := videos[i];
      if v.title !in existing {
        assert v in newSongs;
        var j :| 0 <= j < |newSongs| && newSongs[j] == v;
        assert existing1[|existing| + j] == v.title;
      }
    }
    SelectNone(videos, UnknownTitle(existing1));
  }

  /** A second run over the same playlist finds no new song and changes nothing. */
  lemma SongRerunFindsNothing(songsDirectory: string, playlistTitle: string, videos: seq<Video>, today: string,
                              disk: Disk, f: (nat, nat) -> bool, g: (nat, nat) -> bool)
    requires SongRun(songsDirectory, playlistTitle, videos, today, disk, f).1.Success?
    ensures var disk1 := SongRun(songsDirectory, playlistTitle, videos, today, disk, f).0;
      SongRun(songsDirectory, playlistTitle, videos, today, disk1, g) == (disk1, Success(NoNewSongs))
  {
    var path := CsvPath(songsDirectory, playlistTitle);
    var loaded := GetExistingSongs(disk, path).0;
    var rows := loaded[path];
    var existing := FirstFields(rows).value;
    assert GetExistingSongs(disk, path).1 == Success(existing);
    var newSongs := NewSongs(videos, existing);
    var disk1 := SongRun(songsDirectory, playlistTitle, videos, today, disk, f).0;
    KnowingNewTitlesLeavesNothingNew(videos, existing);
    if newSongs == [] {
      assert disk1 == loaded;
      assert GetExistingSongs(disk1, path) == (disk1, Success(existing));
    } else {
      var rows1 := rows + TitleRows(Titles(newSongs));
      assert disk1 == loaded[path := rows1];
      TitlesRoundTrip(rows, Titles(newSongs));
      assert GetExistingSongs(disk1, path) == (disk1, Success(existing + Titles(newSongs)));
    }
  }

  /** Keying on titles conflates videos: a video whose title is already in the ledger is
      never downloaded, even though its URL has never been seen. */
  lemma SameTitleIsNeverDownloaded(songsDirectory: string, today: string, f: (nat, nat) -> bool)
    ensures var path := CsvPath(songsDirectory, "Mix");
      var disk := map[path := [["Song"]]];
      SongRun(songsDirectory, "Mix", [Video("Song", "https://youtu.be/other")], today, disk, f)
        == (disk, Success(NoNewSongs))
  {
  }
}
