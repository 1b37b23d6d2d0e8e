/** URL_name_video_from_playlist_version2: fetches the playlist's videos one by one and
    appends each video whose watch URL the ledger did not hold at the start of the run to
    the ledger at once, before the next video is fetched. */
module ListerVersion2 {
  import opened Wrappers
  import opened Filenames
  import opened Selection
  import opened Ledger

  /** What the ledger holds while the i-th URL of the playlist is fetched: the rows it had
      after loading, followed by the new videos among the first i fetches. */
  function LedgerBeforeFetch(rows: seq<Row>, playlist: seq<Option<Video>>, known: UrlMap, i: nat): seq<Row>
    requires i <= |playlist|
  {
    rows + VideoRows(NewByUrl(Fetched(playlist[..i]), known))
  }

  /** Appending one video to the new ones appends its row to the ledger. */
  lemma AppendOneRow(rows: seq<Row>, added: seq<Video>, v: Video)
    ensures rows + VideoRows(added + [v]) == (rows + VideoRows(added)) + [[v.title, v.url]]
  {
    VideoRowsAppend(added, [v]);
    SingleVideoRow(v);
  }

  /** Fetching one more URL adds the row of its video to the ledger exactly when the fetch
      returned and the URL was not known before the run. */
  lemma LedgerBeforeFetchStep(rows: seq<Row>, playlist: seq<Option<Video>>, known: UrlMap, i: nat)
    requires i < |playlist|
    ensures LedgerBeforeFetch(rows, playlist, known, i + 1)
         == LedgerBeforeFetch(rows, playlist, known, i)
            + (if playlist[i].Some? && Some(playlist[i].value.url) !in known
               then [[playlist[i].value.title, playlist[i].value.url]] else [])
  {
    NewByUrlStep(playlist, i, known);
    if playlist[i].Some? && Some(playlist[i].value.url) !in known {
      AppendOneRow(rows, NewByUrl(Fetched(playlist[..i]), known), playlist[i].value);
    } else {
      var added := NewByUrl(Fetched(playlist[..i]), known);
      assert added + [] == added;
      var ledger := LedgerBeforeFetch(rows, playlist, known, i);
      assert LedgerBeforeFetch(rows, playlist, known, i + 1) == ledger;
      assert ledger + [] == ledger;
    }
  }

  /** The fetch loop of main: for each URL of the playlist, the video `YouTube(url)`
      returned, or None when it raised (the video is then skipped and the rows written
      so far stay). A video with an unknown URL is appended to the ledger at once.
      `ledgerAtFetch[i]` is the ledger's content while the i-th URL is fetched. */
  method AppendNewVideos(playlist: seq<Option<Video>>, existingVideos: UrlMap, rows: seq<Row>)
    returns (written: seq<Row>, ledgerAtFetch: seq<seq<Row>>)
    ensures written == rows + VideoRows(NewByUrl(Fetched(playlist), existingVideos))
    ensures |ledgerAtFetch| == |playlist|
    ensures forall i :: 0 <= i < |playlist| ==> ledgerAtFetch[i] == LedgerBeforeFetch(rows, playlist, existingVideos, i)
  {
    written, ledgerAtFetch := rows, [];
    assert playlist[..0] == [] && VideoRows([]) == [] && rows + [] == rows;
    for i := 0 to |playlist|
      invariant written == LedgerBeforeFetch(rows, playlist, existingVideos, i)
      invariant |ledgerAtFetch| == i
      invariant forall k :: 0 <= k < i ==> ledgerAtFetch[k] == LedgerBeforeFetch(rows, playlist, existingVideos, k)
    {
      ledgerAtFetch := ledgerAtFetch + [written];
      LedgerBeforeFetchStep(rows, playlist, existingVideos, i);
      match playlist[i] {
        case None =>
        case Some(video) =>
          if Some(video.url) !in existingVideos {
            written := SaveVideo(written, video);
            SingleVideoRow(video);
          }
      }
    }
    assert playlist[..|playlist|] == playlist;
  }

  /** main, given the playlist title (None when get_playlist_title failed) and the outcome
      of fetching each URL of the playlist. */
  method Run(directory: string, playlistTitle: Option<string>, playlist: seq<Option<Video>>, disk: Disk)
    returns (disk': Disk, exit: RunExit, ledgerAtFetch: seq<seq<Row>>)
    ensures (disk', exit) == UrlLedgerRun(directory, playlistTitle, Fetched(playlist), disk)
    ensures !exit.Listed? ==> ledgerAtFetch == []
    ensures exit.Listed? && playlistTitle.Some? ==>
      var (loaded, known) := GetExistingVideos(disk, CsvPath(directory, playlistTitle.value));
      && known.Success?
      && |ledgerAtFetch| == |playlist|
      && forall i :: 0 <= i < |playlist| ==>
           ledgerAtFetch[i] == LedgerBeforeFetch(loaded[CsvPath(directory, playlistTitle.value)], playlist, known.value, i)
  {
    disk', exit, ledgerAtFetch := disk, NoTitle, [];
    if playlistTitle.None? {
      return;
    }
    var csvPath := CsvPath(directory, playlistTitle.value);
    var loaded := GetExistingVideos(disk, csvPath);
    disk' := loaded.0;
    if loaded.1.Failure? {
      exit := LoadFailed(loaded.1.error);
      return;
    }
    var rows;
    rows, ledgerAtFetch := AppendNewVideos(playlist, loaded.1.value, disk'[csvPath]);
    disk' := disk'[csvPath := rows];
    exit := Listed(NewByUrl(Fetched(playlist), loaded.1.value));
  }

  /** Rows appended earlier in a run stay: the ledger only grows from one fetch to the next,
      by at most one row. */
  lemma LedgerGrowsByOneRowAtMost(rows: seq<Row>, playlist: seq<Option<Video>>, known: UrlMap, i: nat)
    requires i < |playlist|
    ensures var before, after := LedgerBeforeFetch(rows, playlist, known, i), LedgerBeforeFetch(rows, playlist, known, i + 1);
      && |before| <= |after|
      && after[..|before|] == before
      && |after| - |before| == (if playlist[i].Some? && Some(playlist[i].value.url) !in known then 1 else 0)
  {
    LedgerBeforeFetchStep(rows, playlist, known, i);
  }
}
