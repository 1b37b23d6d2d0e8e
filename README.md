# Playlist ledger scripts, modelled in Dafny

The Automation repository holds five small scripts. Each one lists a YouTube playlist and
compares it with a local record of what it has already handled. It then acts on the new
entries:

- `YT_song_download_from_playlist.py` (the song downloader) keeps a one-column CSV ledger of
  titles. It downloads the audio of every video whose title is not in the ledger, making
  at most three attempts per download. Then it appends every new title to the ledger, whether
  or not its download succeeded.
- `URL_download_of_videos_in_playlist.py` and `URL_name_video_from_playlist_version1.py` keep
  a `Title,URL` ledger keyed on the watch URL. They append the new videos once, after the
  playlist has been read. Version 1 fetches each video separately and skips one whose fetch
  raised.
- `URL_name_video_from_playlist_version2.py` keeps the same ledger but appends each new video
  as soon as it has been fetched.
- `URL_name_image_video_from_playlist_version3.py` keeps no ledger. It builds a fresh
  workbook with a `Thumbnail, Title, URL` header. It writes one row per video, with the
  thumbnail in column A when the thumbnail request answers 200, and saves after every video.
  Its row counter only advances when a video was saved.

The five identical copies of `sanitize_filename` are modelled once, in `Filenames`. That
module also builds the ledger and workbook names from the playlist title.

Modules:

- `Wrappers`: the `Option` and `Result` types.
- `Filenames`: filename sanitizing and ledger and workbook paths. `Path(dir, name)` stands
  for `os.path.join`.
- `Selection`: the order-keeping filter the comprehensions perform.
- `Ledger`: the ledger file formats.
  - Reading: `csv.reader` and `csv.DictReader`.
  - Writing: rows appended with `csv.writer`.
  - The URL-keyed run shared by the URL-keyed scripts.
- `SongDownloader`: the song downloader, its retry loop and its title-keyed run.
- `UrlDownload`, `ListerVersion1`, `ListerVersion2`: the three URL-keyed scripts.
- `ThumbnailSheet`: version 3, with the worksheet as a class whose fields the methods update.

How the world outside the scripts is represented:

- **The disk** is a map from paths to the rows `csv.reader` yields. A missing path is a
  missing file.
- **Network and library results** are inputs:
  - the playlist title, which is `None` when `get_playlist_title` failed;
  - the playlist's videos, each `None` when its fetch raised;
  - the outcome of every download attempt;
  - the thumbnail response;
  - whether the image can be read;
  - whether `workbook.save` succeeds.

Behaviours of the code that the lemmas pin down:

- **Failed downloads are still recorded.** The song downloader records every new title,
  including those whose download failed (`LedgerIgnoresDownloadOutcomes`). A failed song is
  therefore never retried on a later run.
- **Repeated URLs are appended twice.** The URL-keyed scripts never update the map they
  loaded, so a URL that occurs twice in one playlist is appended twice
  (`RepeatedUrlCollectedTwice`).
- **An empty ledger file breaks the ledger.** `csv.DictReader` takes the first appended
  row as the header of a ledger file that exists but is empty, so that video never becomes a
  key (`EmptyLedgerSwallowsFirstRow`). Once a second row has been appended, the file has a
  data row under a header without the `Title` and `URL` columns. Every later load then
  raises `KeyError`, whatever is appended after it, unless the first video's title and URL
  are literally those two column names (`EmptyLedgerFailsOnceTwoRows`).
- **A failed save in version 3 leaves a stale thumbnail.** When a video's `workbook.save`
  raises, its cells and thumbnail stay on the sheet and the row counter does not move. The
  next video overwrites the title and URL but not the thumbnail. A later save then stores
  the second video's title beside the first video's thumbnail (`StaleThumbnail`). The saved
  workbook still lists exactly the saved videos, in rows 2, 3, … in playlist order
  (`SavedWorkbookListsRecordedVideos`, `SavedWorkbookHasNoOtherCells`).
- **Load errors depend on the rows.**
  - A URL ledger whose first row lacks a `URL` or `Title` column raises `KeyError` only when
    it also has a non-blank data row (`DictRowsFailure`).
  - The song downloader's loader raises `IndexError` on any blank row (`FirstFieldsSpec`).

## Model

Paths are relative to the repository root.

| member | source | states |
|---|---|---|
| Filenames.Replace | youtube_videoInPlaylist_URL_lister/URL_name_image_video_from_playlist_version3.py:14 | `str.replace` of one character keeps the length, puts the replacement wherever the character was and leaves every other position unchanged |
| Filenames.SanitizeFilename | youtube_song_downloader/YT_song_download_from_playlist.py:31-35 | the replace loop over the nine reserved characters yields `Sanitized(filename)`: same length, `_` at every position holding one of the nine reserved characters (less-than, greater-than, colon, double quote, slash, backslash, pipe, question mark, asterisk), every other character unchanged at its position; the song downloader's literal holds the same nine (identical copies: version1.py:8-12, version2.py:7-11, version3.py:11-15, URL_download_of_videos_in_playlist.py:6-10) |
| Filenames.SanitizedIsSafe | youtube_song_downloader/YT_song_download_from_playlist.py:31-35 | a sanitized name has the original length and holds no reserved character |
| Filenames.SanitizedIdempotent | youtube_videoInPlaylist_URL_lister/URL_name_video_from_playlist_version2.py:7-11 | sanitizing twice equals sanitizing once |
| Filenames.SanitizedFixesSafeNames | youtube_videoInPlaylist_URL_lister/URL_name_video_from_playlist_version1.py:8-12 | a title comes back unchanged if and only if it holds no reserved character |
| Filenames.SanitizedConflatesTitles | youtube_videoInPlaylist_URL_lister/URL_download_of_videos_in_playlist.py:22-25 | the distinct titles `a:b` and `a?b` get the same file name `a_b` |
| Filenames.SafeName | youtube_song_downloader/YT_song_download_from_playlist.py:105-106 | sanitized title followed by the extension: no reserved character, length of title plus extension, the extension at the end, every title position sanitized |
| Filenames.CsvPath | youtube_videoInPlaylist_URL_lister/URL_name_video_from_playlist_version1.py:24-27 | `get_csv_path`: in the given directory, a name free of reserved characters that is the sanitized title followed by `.csv` (identical copies: version2.py:23-26, URL_download_of_videos_in_playlist.py:22-25; the song downloader builds the same path inline at YT_song_download_from_playlist.py:104-108) |
| Filenames.ExcelPath | youtube_videoInPlaylist_URL_lister/URL_name_image_video_from_playlist_version3.py:27-30 | `get_excel_path`: in the given directory, a name free of reserved characters that is the sanitized title followed by `.xlsx` |
| Filenames.SameLedgerIff | youtube_videoInPlaylist_URL_lister/URL_download_of_videos_in_playlist.py:22-25 | two playlist titles share a ledger in a directory if and only if they sanitize to the same name |
| Selection.SelectMembership | youtube_song_downloader/YT_song_download_from_playlist.py:111-112 | a filtering comprehension keeps exactly the elements that occur in the input and pass the condition, and never more elements than the input has |
| Selection.SelectIsKeptSubsequence | youtube_videoInPlaylist_URL_lister/URL_download_of_videos_in_playlist.py:64-65 | the filtered list is the passing elements in input order: its j-th element is the input element at the j-th passing position |
| Ledger.FirstFields | youtube_song_downloader/YT_song_download_from_playlist.py:20-22 | the only exception reading the title ledger can raise is `IndexError` |
| Ledger.FirstFieldsSpec | youtube_song_downloader/YT_song_download_from_playlist.py:20-22 | `[row[0] for row in reader]` succeeds if and only if no row is blank, and then yields the first field of every row, in file order |
| Ledger.GetExistingSongs | youtube_song_downloader/YT_song_download_from_playlist.py:14-22 | a missing ledger is created empty and yields `[]`; an existing one yields its first fields; no other file changes |
| Ledger.TitleRowsSpec | youtube_song_downloader/YT_song_download_from_playlist.py:25-28 | `writerows([song] for song in new_songs)` writes one single-field row per title, in order |
| Ledger.TitlesRoundTrip | youtube_song_downloader/YT_song_download_from_playlist.py:22 | reading back a readable ledger after appending titles yields the old titles followed by the new ones |
| Ledger.LastIndex | youtube_videoInPlaylist_URL_lister/URL_name_video_from_playlist_version1.py:38-39 | `csv.DictReader` takes a repeated field name from its last column: the index found holds the name and no later column does |
| Ledger.DictRows | youtube_videoInPlaylist_URL_lister/URL_name_video_from_playlist_version1.py:37-39 | with both `URL` and `Title` columns the map is always built; the only failure is `KeyError`; without the columns and without data rows the map is empty |
| Ledger.DictRowsFailure | youtube_videoInPlaylist_URL_lister/URL_name_video_from_playlist_version1.py:37-39 | loading fails if and only if a column is missing and some data row is not blank |
| Ledger.DictRowsKeys | youtube_videoInPlaylist_URL_lister/URL_download_of_videos_in_playlist.py:35-37 | the keys are exactly the URL fields of the non-blank data rows; the header row is not an entry |
| Ledger.LastRowWins | youtube_videoInPlaylist_URL_lister/URL_name_video_from_playlist_version2.py:36-38 | the dict comprehension keeps the title of the last row carrying a URL |
| Ledger.GetExistingVideos | youtube_videoInPlaylist_URL_lister/URL_name_video_from_playlist_version1.py:30-39 | a missing ledger is created holding only the `Title,URL` header and yields the empty map; an existing one yields its URL-to-title map; no other file changes (identical copies: version2.py:29-38, URL_download_of_videos_in_playlist.py:28-37) |
| Ledger.VideoRowsSpec | youtube_videoInPlaylist_URL_lister/URL_name_video_from_playlist_version1.py:42-46 | appended rows are one `[title, url]` row per video, in order |
| Ledger.SingleVideoRow | youtube_videoInPlaylist_URL_lister/URL_name_video_from_playlist_version2.py:41-44 | `save_video_to_csv` appends the single row `[title, url]` |
| Ledger.VideoRowsAppend | youtube_videoInPlaylist_URL_lister/URL_name_video_from_playlist_version2.py:64-74 | appending two batches one after the other writes the same rows as appending them together, so per-item and once-after-the-loop appends agree |
| Ledger.SaveNewVideos | youtube_videoInPlaylist_URL_lister/URL_name_video_from_playlist_version1.py:42-46 | the write loop leaves the old rows followed by one `[title, url]` row per video (identical copy: URL_download_of_videos_in_playlist.py:40-44) |
| Ledger.SaveVideo | youtube_videoInPlaylist_URL_lister/URL_name_video_from_playlist_version2.py:41-44 | one video appended as one row after the old ones |
| Ledger.RowUrlIsKey | youtube_videoInPlaylist_URL_lister/URL_download_of_videos_in_playlist.py:37 | the URL of every non-blank data row of a well-formed ledger is a key of the loaded map |
| Ledger.KeysSurviveAppend | youtube_videoInPlaylist_URL_lister/URL_download_of_videos_in_playlist.py:40-44 | appending rows never removes a key from the map the ledger loads to |
| Ledger.AppendedUrlIsKey | youtube_videoInPlaylist_URL_lister/URL_download_of_videos_in_playlist.py:40-44 | the URL of every video appended after the header is a key of the map the ledger reads back to |
| Ledger.ReloadKnowsAppended | youtube_videoInPlaylist_URL_lister/URL_download_of_videos_in_playlist.py:35-37 | a ledger with the header still loads after videos are appended, keeps its old keys, and knows every appended URL |
| Ledger.EmptyLedgerSwallowsFirstRow | youtube_videoInPlaylist_URL_lister/URL_name_video_from_playlist_version1.py:37-39 | for every video, an existing but empty ledger that gains its row loads to the empty map: the row is read as the header |
| Ledger.EmptyLedgerFailsOnceTwoRows | youtube_videoInPlaylist_URL_lister/URL_name_video_from_playlist_version1.py:37-39 | an existing but empty ledger that gains two or more video rows, followed by any rows, fails to load with `KeyError` exactly when the first video's title and URL are not the two column names |
| Ledger.FetchedMembership | youtube_videoInPlaylist_URL_lister/URL_name_video_from_playlist_version1.py:67-76 | the videos whose fetch raised are skipped: the fetched list holds exactly the videos that were fetched and is no longer than the playlist |
| Ledger.NewByUrlStep | youtube_videoInPlaylist_URL_lister/URL_name_video_from_playlist_version1.py:72-74 | one more playlist entry adds its video to the new videos exactly when it was fetched and its URL is not a key of the map loaded before the loop |
| Ledger.UrlLedgerRunAppendsOnly | youtube_videoInPlaylist_URL_lister/URL_download_of_videos_in_playlist.py:55-71 | without a title nothing changes; otherwise only the ledger changes, its old rows stay a prefix, a failed load writes nothing more, and a listing adds exactly as many rows as it lists videos, which are exactly the fetched videos whose URL was not known |
| Ledger.UrlLedgerRunAppendsInOrder | youtube_videoInPlaylist_URL_lister/URL_download_of_videos_in_playlist.py:60-68 | a listing keeps the rows the ledger held as its prefix (or starts with the header it creates) and appends after them one `[title, url]` row per listed video, and the listed videos are the fetched videos at the positions whose URL was not known, in playlist order |
| Ledger.ListIntoLedgerRows | youtube_videoInPlaylist_URL_lister/URL_download_of_videos_in_playlist.py:28-44 | loading a ledger and appending the new videos keeps the rows it held as a prefix (or writes the header when it was missing), then one `[title, url]` row per listed video, in order |
| Ledger.ListIntoLedgerOrder | youtube_videoInPlaylist_URL_lister/URL_download_of_videos_in_playlist.py:64-65 | the listed videos are the input videos at exactly the ascending positions whose URL the loaded map does not hold |
| Ledger.NothingNewWhenAllKnown | youtube_videoInPlaylist_URL_lister/URL_download_of_videos_in_playlist.py:64-65 | when every URL is known the new-video list is empty |
| Ledger.AppendingNewLeavesNothingNew | youtube_videoInPlaylist_URL_lister/URL_download_of_videos_in_playlist.py:64-68 | after the new videos are appended to a ledger with the header, reloading it finds none of the same videos new |
| Ledger.UrlLedgerRerunAddsNothing | youtube_videoInPlaylist_URL_lister/URL_download_of_videos_in_playlist.py:60-71 | a second run over the same videos lists and appends nothing, repeated URLs included |
| SongDownloader.DownloadSong | youtube_song_downloader/YT_song_download_from_playlist.py:51-66 | at most `retries` attempts; the audio exists exactly when some attempt within the bound succeeds; the loop stops at the first success, names the audio after the sanitized title plus `.mp3`, and after exhausted retries uses every attempt and raises nothing |
| SongDownloader.Run | youtube_song_downloader/YT_song_download_from_playlist.py:95-127 | `main` leaves the disk and report of `SongRun`, whose properties the lemmas below state |
| SongDownloader.SongRunTouchesOnlyItsLedger | youtube_song_downloader/YT_song_download_from_playlist.py:109-116 | only the playlist's ledger changes; the run fails exactly when the ledger exists with a blank row; on failure or with no new songs it stops before the folder and the ledger is left as loaded |
| SongDownloader.AppendedTitles | youtube_song_downloader/YT_song_download_from_playlist.py:127 | the appended ledger keeps its old rows and has one row `[title]` per new song after them |
| SongDownloader.SongRunAppendsNewTitles | youtube_song_downloader/YT_song_download_from_playlist.py:124-127 | after a run with new songs the ledger holds its old rows followed by one `[title]` row per reported song, in the order reported, and reads back as the old titles followed by the new titles |
| SongDownloader.SongRunDownloadsUnknownTitles | youtube_song_downloader/YT_song_download_from_playlist.py:111-112 | the songs downloaded are the playlist videos at exactly the ascending positions whose title is not in the ledger, so in playlist order and once per occurrence, into today's folder, one outcome per song |
| SongDownloader.LedgerIgnoresDownloadOutcomes | youtube_song_downloader/YT_song_download_from_playlist.py:124-127 | what the run writes does not depend on whether any download succeeded |
| SongDownloader.KnowingNewTitlesLeavesNothingNew | youtube_song_downloader/YT_song_download_from_playlist.py:111-112 | once the new titles are added to the known ones, no video of the same playlist is new |
| SongDownloader.SongRerunFindsNothing | youtube_song_downloader/YT_song_download_from_playlist.py:109-116 | a second run over the same playlist finds no new song and changes nothing, whatever the downloads did |
| SongDownloader.SameTitleIsNeverDownloaded | youtube_song_downloader/YT_song_download_from_playlist.py:111-112 | a video whose title is already in the ledger is not downloaded, even under another URL |
| UrlDownload.Run | youtube_videoInPlaylist_URL_lister/URL_download_of_videos_in_playlist.py:47-71 | `main` leaves the disk and exit of `UrlLedgerRun` over the playlist's videos |
| ListerVersion1.CollectNewVideos | youtube_videoInPlaylist_URL_lister/URL_name_video_from_playlist_version1.py:65-76 | the loop collects the fetched videos whose URL is not a key of the map loaded before it, in playlist order; the loop is given no disk, so the ledger it reports for each fetch is the loaded one by construction |
| ListerVersion1.Run | youtube_videoInPlaylist_URL_lister/URL_name_video_from_playlist_version1.py:49-82 | `main` leaves the disk and exit of `UrlLedgerRun` over the fetched videos; every fetch sees the ledger as loaded |
| ListerVersion1.RepeatedUrlCollectedTwice | youtube_videoInPlaylist_URL_lister/URL_name_video_from_playlist_version1.py:72-74 | a new URL that occurs twice in the playlist is collected twice |
| ListerVersion2.AppendOneRow | youtube_videoInPlaylist_URL_lister/URL_name_video_from_playlist_version2.py:41-44 | appending one more video adds exactly its row at the end |
| ListerVersion2.LedgerBeforeFetchStep | youtube_videoInPlaylist_URL_lister/URL_name_video_from_playlist_version2.py:69-72 | after each playlist entry the ledger has gained its row exactly when the entry was fetched and its URL was not known before the run |
| ListerVersion2.AppendNewVideos | youtube_videoInPlaylist_URL_lister/URL_name_video_from_playlist_version2.py:64-74 | the per-item loop leaves the old rows followed by the new videos' rows in playlist order; before each fetch the file holds the rows of the new videos met so far |
| ListerVersion2.Run | youtube_videoInPlaylist_URL_lister/URL_name_video_from_playlist_version2.py:47-74 | `main` ends with the same ledger as the once-after-the-loop scripts, having written it row by row |
| ListerVersion2.LedgerGrowsByOneRowAtMost | youtube_videoInPlaylist_URL_lister/URL_name_video_from_playlist_version2.py:73-74 | each entry leaves the rows written so far in place and adds at most one; a failed fetch adds none |
| ThumbnailSheet.SetValue | youtube_videoInPlaylist_URL_lister/URL_name_image_video_from_playlist_version3.py:51-52 | setting a cell gives it the value and keeps every other cell, image and dimension; the sheet's current row becomes at least the cell's row |
| ThumbnailSheet.WriteRowSpec | youtube_videoInPlaylist_URL_lister/URL_name_image_video_from_playlist_version3.py:72 | `append` writes the values into columns A, B, … of one row and keeps every other cell |
| ThumbnailSheet.HeaderSheetContents | youtube_videoInPlaylist_URL_lister/URL_name_image_video_from_playlist_version3.py:70-72 | the fresh workbook with the header appended holds exactly `Thumbnail`, `Title`, `URL` in row 1, no image, and its current row is 1 |
| ThumbnailSheet.AddVideoOutcome | youtube_videoInPlaylist_URL_lister/URL_name_image_video_from_playlist_version3.py:41-54 | `add_video_to_excel` returns normally exactly when nothing raised and the save succeeded; a failed request or unreadable image changes nothing; otherwise the title is in B and the URL in C of its row |
| ThumbnailSheet.AddVideoKeepsOtherRows | youtube_videoInPlaylist_URL_lister/URL_name_image_video_from_playlist_version3.py:51-52 | no cell of another row appears, disappears or changes, and new cells are in columns B and C |
| ThumbnailSheet.AddVideoPlacesThumbnail | youtube_videoInPlaylist_URL_lister/URL_name_image_video_from_playlist_version3.py:33-49 | a thumbnail anchored in its row is added exactly when the response is 200 and the image loads, and then the row is 90 high and column A 20 wide; otherwise images and dimensions stay as they were |
| ThumbnailSheet.StepSaves | youtube_videoInPlaylist_URL_lister/URL_name_image_video_from_playlist_version3.py:85-88 | one iteration advances the row and saves exactly when its video is recorded, and then saves the sheet it leaves |
| ThumbnailSheet.RowCountsRecorded | youtube_videoInPlaylist_URL_lister/URL_name_image_video_from_playlist_version3.py:74-88 | the row advances once per recorded video; a file has been saved exactly when some video was recorded |
| ThumbnailSheet.EarlierRowsKept | youtube_videoInPlaylist_URL_lister/URL_name_image_video_from_playlist_version3.py:74-88 | cells of the rows above the starting row are never touched |
| ThumbnailSheet.RecordedRowsHoldTheirVideos | youtube_videoInPlaylist_URL_lister/URL_name_image_video_from_playlist_version3.py:75-88 | the j-th recorded video is shown in the j-th row from the starting one, whatever failed videos wrote before it |
| ThumbnailSheet.CellsWithinRows | youtube_videoInPlaylist_URL_lister/URL_name_image_video_from_playlist_version3.py:75-88 | every cell the loop adds is in column B or C of a row between the starting row and the current row |
| ThumbnailSheet.StepImages | youtube_videoInPlaylist_URL_lister/URL_name_image_video_from_playlist_version3.py:43-49 | one iteration adds only its own placed thumbnail, in the current row; row heights of 90 and a column A width of 20 stay once set |
| ThumbnailSheet.ImagesAreThumbnails | youtube_videoInPlaylist_URL_lister/URL_name_image_video_from_playlist_version3.py:33-49 | images are only added, and the added ones come from the placed thumbnails in playlist order, whether or not their video was saved |
| ThumbnailSheet.ImagesAnchoredInVisitedRows | youtube_videoInPlaylist_URL_lister/URL_name_image_video_from_playlist_version3.py:44-49 | each added image sits in a row the loop visited, that row is 90 high, and column A is then 20 wide |
| ThumbnailSheet.SavedAtLastSave | youtube_videoInPlaylist_URL_lister/URL_name_image_video_from_playlist_version3.py:54 | the file holds the sheet as the last recorded video left it; that prefix of the playlist holds every recorded video, and there is a last save exactly when a video was recorded |
| ThumbnailSheet.SavedCellsWithinRecordedRows | youtube_videoInPlaylist_URL_lister/URL_name_image_video_from_playlist_version3.py:75-88 | right after a save, added cells lie only in columns B and C of the rows the recorded videos took |
| ThumbnailSheet.HeaderSurvives | youtube_videoInPlaylist_URL_lister/URL_name_image_video_from_playlist_version3.py:70-74 | row 1 keeps the header whatever happens to the videos |
| ThumbnailSheet.OutcomeStartsFresh | youtube_videoInPlaylist_URL_lister/URL_name_image_video_from_playlist_version3.py:70-74 | the loop starts from a sheet that holds only the header, at row 2, with nothing saved |
| ThumbnailSheet.SavedWorkbookListsRecordedVideos | youtube_videoInPlaylist_URL_lister/URL_name_image_video_from_playlist_version3.py:75-88 | from a fresh start, a workbook is saved exactly when some video is recorded; it has the header and shows the recorded videos in rows 2, 3, … in playlist order |
| ThumbnailSheet.SavedWorkbookHasNoOtherCells | youtube_videoInPlaylist_URL_lister/URL_name_image_video_from_playlist_version3.py:75-88 | the saved workbook has no cell outside the header and columns B and C of the recorded rows: failed videos' cells were overwritten before the last save |
| ThumbnailSheet.StaleThumbnail | youtube_videoInPlaylist_URL_lister/URL_name_image_video_from_playlist_version3.py:44-54 | a video whose save fails leaves its thumbnail, and the next video, whose thumbnail answers 404, is saved with the first video's thumbnail beside its title |
| ThumbnailSheet.Sheet.constructor | youtube_videoInPlaylist_URL_lister/URL_name_image_video_from_playlist_version3.py:70-71 | `Workbook().active` is an empty worksheet |
| ThumbnailSheet.Sheet.Set | youtube_videoInPlaylist_URL_lister/URL_name_image_video_from_playlist_version3.py:51-52 | assigning a cell updates the sheet as `SetValue` says |
| ThumbnailSheet.Sheet.Append | youtube_videoInPlaylist_URL_lister/URL_name_image_video_from_playlist_version3.py:72 | `ws.append` writes cell by cell and leaves the sheet as `AppendRow` says |
| ThumbnailSheet.Sheet.AddImage | youtube_videoInPlaylist_URL_lister/URL_name_image_video_from_playlist_version3.py:46 | `add_image` adds the image after the others and changes nothing else |
| ThumbnailSheet.Sheet.SetRowHeight | youtube_videoInPlaylist_URL_lister/URL_name_image_video_from_playlist_version3.py:47 | sets one row's height and changes nothing else |
| ThumbnailSheet.Sheet.SetColumnWidth | youtube_videoInPlaylist_URL_lister/URL_name_image_video_from_playlist_version3.py:48-49 | sets one column's width and changes nothing else |
| ThumbnailSheet.AddVideoToExcel | youtube_videoInPlaylist_URL_lister/URL_name_image_video_from_playlist_version3.py:41-54 | updating the worksheet object in place leaves it as `AddVideo` says, and returns the saved content exactly when it returns normally |
| ThumbnailSheet.Run | youtube_videoInPlaylist_URL_lister/URL_name_image_video_from_playlist_version3.py:57-88 | without a title, no path, workbook or file; otherwise the workbook path is `ExcelPath`, the worksheet is new, and the worksheet, row and saved file are those of the loop over the playlist from the header sheet at row 2 |

## Left out

- **Network access.**
  - Sources: `pytube` (`Playlist`, `YouTube`) and the `requests` call for thumbnails.
  - Each becomes an input: the playlist title, the list of videos, each video's details
    (absent when its fetch raised), and the thumbnail response (raised, or a status code).
- **Crashes outside a `try`.** The playlist calls below can raise outside any `try` block,
  and the script then stops with the ledger as it stands. In the model these values are
  given, so a run never stops there.
  - Song downloader: `Playlist(...)` and `.videos` at lines 103-104 and 111-112.
  - URL downloader: `Playlist(playlist_url)` at line 63, and `.videos`, `.title` and
    `.watch_url` in the comprehension at lines 64-65.
  - Version 1: `Playlist(playlist_url)` at line 64 and `.video_urls` at line 67. Both run
    after `get_existing_videos` may already have created the ledger with its header.
  - Version 2: `Playlist(playlist_url)` at line 62 and `.video_urls` at line 64, with the same
    effect.
  - Version 3: `Playlist(playlist_url).video_urls` in the loop header at line 75, after the
    workbook was built but before anything was saved.
- **Cell-value validation by openpyxl is not modelled.** Assigning a title or URL that
  holds control characters to a cell (version 3, lines 51-52) raises `IllegalCharacterError`
  after the thumbnail may already have been placed. `main` catches it and the row does not
  advance. The model has no such path: every cell assignment succeeds.
- ThumbnailSheet.AddVideoOutcome: its clause that the video is shown in its row holds only
  because cell assignments never raise in the model; with openpyxl's validation a title or
  URL holding control characters would leave the row without it.
- **Unused helper.** `get_song_names_from_playlist` (song downloader, lines 9-11) is never
  called and is not modelled.
- **Audio download and transcoding.**
  - The stream download, `AudioFileClip`, `write_audiofile` and `os.remove` become one
    success or failure per attempt.
  - The audio files and partly written files are not on the modelled disk.
  - `SongDownloader.DownloadSong` returns the audio file's name instead of creating it.
- **Timing, prompts and the date.**
  - `time.sleep`, `input()` and `print` are left out.
  - `datetime.now()` is replaced by a `today` parameter.
  - `os.makedirs` is left out. The dated folder appears only as a name in the report.
- **CSV encoding.**
  - CSV quoting, escaping, newline handling and UTF-8 encoding are not modelled.
  - A file is the list of rows `csv.reader` yields.
  - An unreadable or unwritable file is not modelled.
- **Workbook file and images.**
  - The saved workbook's file format is not modelled, nor are image bytes and sizes.
  - A save either writes the whole worksheet or raises and leaves the file as it was. A
    partly written file is not modelled.
  - The workbook a previous run saved is replaced at the first save and is not an input.
- **Dead code.** The commented-out code in the song downloader (lines 38-50 and 69-93) is
  not live and is not modelled.
- Ledger.FirstFields: its own contract only says which exception a failed read raises. The
  full meaning is `Ledger.FirstFieldsSpec`, kept apart so the solver does not unfold it at
  every use.
