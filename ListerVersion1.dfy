/** URL_name_video_from_playlist_version1: fetches every video of the playlist first,
    collecting those whose watch URL the ledger does not hold, and only then appends
    them to the ledger, once. */
module ListerVersion1 {
  import opened Wrappers
  import opened Filenames
  import opened Selection
  import opened Ledger

  /** The fetch loop of main: for each URL of the playlist, the video `YouTube(url)`
      returned, or None when it raised (the video is then skipped). The loop is given no
      disk, so the ledger cannot change while it runs; `ledgerAtFetch[i]`, the ledger
      while the i-th URL is fetched, is `rows` by construction and only records that fact
      for comparison with version 2, where the ledger grows between fetches. */
  method CollectNewVideos(playlist: seq<Option<Video>>, existingVideos: UrlMap, rows: seq<Row>)
    returns (newVideos: seq<Video>, ledgerAtFetch: seq<seq<Row>>)
    ensures newVideos == NewByUrl(Fetched(playlist), existingVideos)
    ensures |ledgerAtFetch| == |playlist| && forall i :: 0 <= i < |playlist| ==> ledgerAtFetch[i] == rows
  {
    newVideos, ledgerAtFetch := [], [];
    for i := 0 to |playlist|
      invariant newVideos == NewByUrl(Fetched(playlist[..i]), existingVideos)
      invariant |ledgerAtFetch| == i && forall k :: 0 <= k < i ==> ledgerAtFetch[k] == rows
    {
      ledgerAtFetch := ledgerAtFetch + [rows];
      NewByUrlStep(playlist, i, existingVideos);
      match playlist[i] {
        case None =>
        case Some(video) =>
          if Some(video.url) !in existingVideos {
            newVideos := newVideos + [video];
          }
      }
    }
    assert playlist[..|playlist|] == playlist;
  }

  /** main, given the playlist title (None when get_playlist_title failed) and the outcome
      of fetching each URL of the playlist. */
  method Run(directory: string, playlistTitle: Option<string>, playlist: seq<Option<Video>>, disk: Disk)
    returns (disk': Disk, exit: RunExit, ledgerAtFetch: seq<seq<Row>>)
    ensures (disk', exit) == UrlLedgerRun(directory, playlistTitle, Fetched(playlist), disk)
    ensures !exit.Listed? ==> ledgerAtFetch == []
    ensures exit.Listed? && playlistTitle.Some? ==>
      var loaded := GetExistingVideos(disk, CsvPath(directory, playlistTitle.value)).0;
      && |ledgerAtFetch| == |playlist|
      && forall i :: 0 <= i < |playlist| ==> ledgerAtFetch[i] == loaded[CsvPath(directory, playlistTitle.value)]
  {
    disk', exit, ledgerAtFetch := disk, NoTitle, [];
    if playlistTitle.None? {
      return;
    }
    var csvPath := CsvPath(directory, playlistTitle.value);
    var loaded := GetExistingVideos(disk, csvPath);
    disk' := loaded.0;
    if loaded.1.Failure? {
      exit := LoadFailed(loaded.1.error);
      return;
    }
    var newVideos;
    newVideos, ledgerAtFetch := CollectNewVideos(playlist, loaded.1.value, disk'[csvPath]);
    if newVideos != [] {
      var rows := SaveNewVideos(disk'[csvPath], newVideos);
      disk' := disk'[csvPath := rows];
    } else {
      assert VideoRows(newVideos) == [] && disk'[csvPath] + [] == disk'[csvPath];
      assert disk'[csvPath := disk'[csvPath]] == disk';
    }
    exit := Listed(newVideos);
  }

  /** The loaded map is not updated during the loop, so a new URL that occurs twice in the
      playlist is collected, and written, twice. */
  lemma RepeatedUrlCollectedTwice(v: Video, known: UrlMap)
    requires Some(v.url) !in known
    ensures NewByUrl(Fetched([Some(v), Some(v)]), known) == [v, v]
  {
    var playlist := [Some(v), Some(v)];
    assert playlist[..0] == [];
    assert NewByUrl(Fetched(playlist[..0]), known) == [];
    NewByUrlStep(playlist, 0, known);
    assert NewByUrl(Fetched(playlist[..1]), known) == [v];
    NewByUrlStep(playlist, 1, known);
    assert playlist[..2] == playlist;
  }
}
