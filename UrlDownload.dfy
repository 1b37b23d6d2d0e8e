/** URL_download_of_videos_in_playlist: lists the playlist's videos in one go, keeps those
    whose watch URL the ledger does not hold, and appends them to the ledger at once. */
module UrlDownload {
  import opened Wrappers
  import opened Filenames
  import opened Ledger

  /** main, given the playlist title (None when get_playlist_title failed) and the
      playlist's videos. */
  method Run(directory: string, playlistTitle: Option<string>, videos: seq<Video>, disk: Disk)
    returns (disk': Disk, exit: RunExit)
    ensures (disk', exit) == UrlLedgerRun(directory, playlistTitle, videos, disk)
  {
    disk', exit := disk, NoTitle;
    if playlistTitle.None? {
      return;
    }
    var csvPath := CsvPath(directory, playlistTitle.value);
    var loaded := GetExistingVideos(disk, csvPath);
    disk' := loaded.0;
    if loaded.1.Failure? {
      exit := LoadFailed(loaded.1.error);
      return;
    }
    var existingVideos := loaded.1.value;
    var newVideos := NewByUrl(videos, existingVideos);
    if newVideos != [] {
      var rows := SaveNewVideos(disk'[csvPath], newVideos);
      disk' := disk'[csvPath := rows];
    } else {
      assert VideoRows(newVideos) == [] && disk'[csvPath] + [] == disk'[csvPath];
      assert disk'[csvPath := disk'[csvPath]] == disk';
    }
    exit := Listed(newVideos);
  }
}
