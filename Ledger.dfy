/** The "already processed" ledger: a CSV file on disk that the scripts create when it
    is missing, read to learn what they have seen, and append rows to. A file is the
    list of rows that csv.reader yields for it (a blank line is the empty row). */
module Ledger {
  import opened Wrappers
  import opened Filenames
  import opened Selection

  type Row = seq<string>

  /** The files a run can see, by path; a path that is absent is a file that does not exist. */
  type Disk = map<Path, seq<Row>>

  /** The exceptions that loading a ledger can raise. */
  datatype Error = IndexError | KeyError

  /** One playlist entry: its title and its watch URL. */
  datatype Video = Video(title: string, url: string)

  /** The first row of a URL ledger. */
  const Header: Row := ["Title", "URL"]

  // ---------------------------------------------------------------------------
  // Title ledger (one title per row, no header)
  // ---------------------------------------------------------------------------

  /** `[row[0] for row in csv.reader(file)]`: the first field of every row in file
      order, or IndexError when some row is blank. */
  function FirstFields(rows: seq<Row>): (r: Result<seq<string>, Error>)
    ensures r.Failure? ==> r.error == IndexError
  {
    if rows == [] then Success([])
    else
      var front := FirstFields(rows[..|rows| - 1]);
      var last := rows[|rows| - 1];
      if front.Failure? then front
      else if last == [] then Failure(IndexError)
      else Success(front.value + [last[0]])
  }

  /** Reading succeeds exactly when no row is blank, and then yields every row's first field. */
  lemma {:induction false} FirstFieldsSpec(rows: seq<Row>)
    ensures FirstFields(rows).Success? <==> forall i :: 0 <= i < |rows| ==> rows[i] != []
    ensures FirstFields(rows).Success? ==>
      && |FirstFields(rows).value| == |rows|
      && forall i :: 0 <= i < |rows| ==> FirstFields(rows).value[i] == rows[i][0]
  {
    if rows != [] {
      var n := |rows| - 1;
      var front := rows[..n];
      FirstFieldsSpec(front);
      assert forall i :: 0 <= i < n ==> rows[i] == front[i];
    }
  }

  /** get_existing_songs: creates an empty ledger when there is none and knows no
      title; otherwise reads the titles without touching the disk. */
  function GetExistingSongs(disk: Disk, path: Path): (r: (Disk, Result<seq<string>, Error>))
    ensures r.0.Keys == disk.Keys + {path}
    ensures forall q :: q in disk ==> r.0[q] == disk[q]
    ensures path !in disk ==> r.0[path] == [] && r.1 == Success([])
    ensures path in disk ==> r.1 == FirstFields(disk[path])
  {
    if path !in disk then (disk[path := []], Success([]))
    else (disk, FirstFields(disk[path]))
  }

  /** The rows `writer.writerows([song] for song in titles)` adds: one single-field row per title. */
  function TitleRows(titles: seq<string>): seq<Row> {
    if titles == [] then [] else TitleRows(titles[..|titles| - 1]) + [[titles[|titles| - 1]]]
  }

  /** One single-field row per title, in order. */
  lemma {:induction false} TitleRowsSpec(titles: seq<string>)
    ensures |TitleRows(titles)| == |titles|
    ensures forall i :: 0 <= i < |titles| ==> TitleRows(titles)[i] == [titles[i]]
  {
    if titles != [] {
      var n := |titles| - 1;
      TitleRowsSpec(titles[..n]);
      assert forall i :: 0 <= i < n ==> titles[..n][i] == titles[i];
    }
  }

  /** Reading the ledger back after appending titles yields the old titles followed by
      the new ones. */
  lemma TitlesRoundTrip(rows: seq<Row>, titles: seq<string>)
    requires FirstFields(rows).Success?
    ensures FirstFields(rows + TitleRows(titles)) == Success(FirstFields(rows).value + titles)
  {
    var all := rows + TitleRows(titles);
    TitleRowsSpec(titles);
    FirstFieldsSpec(rows);
    FirstFieldsSpec(all);
    assert forall i :: 0 <= i < |all| ==> all[i] != [] by {
      forall i | 0 <= i < |all| ensures all[i] != [] {
        if i >= |rows| { assert all[i] == [titles[i - |rows|]]; }
      }
    }
    var r := FirstFields(all).value;
    var expected := FirstFields(rows).value + titles;
    assert |r| == |expected|;
    forall i | 0 <= i < |r| ensures r[i] == expected[i] {
      if i >= |rows| { assert all[i] == [titles[i - |rows|]]; }
    }
    assert r == expected;
  }

  // ---------------------------------------------------------------------------
  // URL ledger (header row "Title,URL", then one row per video)
  // ---------------------------------------------------------------------------

  /** The position of the last column called `key`: csv.DictReader zips field names with
      fields into a dict, so a repeated name keeps its last column. */
  function LastIndex(names: seq<string>, key: string): (i: nat)
    requires key in names
    ensures i < |names| && names[i] == key
    ensures forall j :: i < j < |names| ==> names[j] != key
  {
    var n := |names| - 1;
    if names[n] == key then n
    else
      assert names == names[..n] + [names[n]];
      LastIndex(names[..n], key)
  }

  /** `row[key]` for a row of csv.DictReader: the field under the column named `key`, or
      None (the reader's restval) when the row is too short to have one. */
  function Lookup(header: Row, row: Row, key: string): Option<string>
    requires key in header
  {
    var i := LastIndex(header, key);
    if i < |row| then Some(row[i]) else None
  }

  /** A header under which `row["URL"]` and `row["Title"]` do not raise KeyError. */
  predicate HasColumns(header: Row) {
    "URL" in header && "Title" in header
  }

  /** `{row["URL"]: row["Title"] for row in reader}`; a short row has URL None. */
  type UrlMap = map<Option<string>, Option<string>>

  /** The URL column of a data row. */
  function UrlOf(header: Row, row: Row): Option<string>
    requires HasColumns(header)
  {
    Lookup(header, row, "URL")
  }

  /** The comprehension over csv.DictReader's data rows under `header`: blank rows are
      skipped; a later row with the same URL replaces the title of an earlier one; the
      first non-blank row raises KeyError when a column is missing. */
  function DictRows(header: Row, data: seq<Row>): (r: Result<UrlMap, Error>)
    ensures HasColumns(header) ==> r.Success?
    ensures r.Failure? ==> r.error == KeyError
    ensures r.Success? && !HasColumns(header) ==> r.value == map[]
  {
    if data == [] then Success(map[])
    else
      var n := |data| - 1;
      var front := DictRows(header, data[..n]);
      var row := data[n];
      if front.Failure? || row == [] then front
      else if !HasColumns(header) then Failure(KeyError)
      else Success(front.value[UrlOf(header, row) := Lookup(header, row, "Title")])
  }

  /** Reading fails exactly when a column is missing and some data row is not blank. */
  lemma {:induction false} DictRowsFailure(header: Row, data: seq<Row>)
    ensures DictRows(header, data).Failure? <==> !HasColumns(header) && exists i :: 0 <= i < |data| && data[i] != []
  {
    if data != [] {
      var n := |data| - 1;
      assert data == data[..n] + [data[n]];
      DictRowsFailure(header, data[..n]);
      if !HasColumns(header) && DictRows(header, data[..n]).Success? && data[n] == [] {
        forall i | 0 <= i < |data| ensures data[i] == [] {
          if i < n { assert data[..n][i] == data[i]; }
        }
      }
    }
  }

  /** Under a header with both columns, the keys are the URLs of the non-blank data rows. */
  lemma {:induction false} DictRowsKeys(header: Row, data: seq<Row>)
    requires HasColumns(header)
    ensures forall k :: k in DictRows(header, data).value <==>
      exists i :: 0 <= i < |data| && data[i] != [] && UrlOf(header, data[i]) == k
  {
    if data != [] {
      var n := |data| - 1;
      var front := data[..n];
      var earlier := DictRows(header, front).value;
      DictRowsKeys(header, front);
      assert DictRows(header, data).value ==
        if data[n] == [] then earlier else earlier[UrlOf(header, data[n]) := Lookup(header, data[n], "Title")];
      forall k | k in DictRows(header, data).value
        ensures exists i :: 0 <= i < |data| && data[i] != [] && UrlOf(header, data[i]) == k
      {
        if data[n] != [] && UrlOf(header, data[n]) == k {
          assert data[n] != [] && UrlOf(header, data[n]) == k;
        } else {
          assert k in earlier;
          var i :| 0 <= i < |front| && front[i] != [] && UrlOf(header, front[i]) == k;
          assert data[i] == front[i];
        }
      }
      forall k, i | 0 <= i < |data| && data[i] != [] && UrlOf(header, data[i]) == k
        ensures k in DictRows(header, data).value
      {
        if i < n {
          assert front[i] == data[i];
          assert k in earlier;
        }
      }
    }
  }

  /** The title the map keeps for a URL is that of the last non-blank row with it. */
  lemma {:induction false} LastRowWins(header: Row, data: seq<Row>, i: nat)
    requires HasColumns(header) && i < |data| && data[i] != []
    requires forall j :: i < j < |data| && data[j] != [] ==> UrlOf(header, data[j]) != UrlOf(header, data[i])
    ensures DictRows(header, data).Success?
    ensures UrlOf(header, data[i]) in DictRows(header, data).value
    ensures DictRows(header, data).value[UrlOf(header, data[i])] == Lookup(header, data[i], "Title")
  {
    var n := |data| - 1;
    if i < n {
      assert data[..n][i] == data[i];
      forall j | i < j < |data[..n]| && data[..n][j] != []
        ensures UrlOf(header, data[..n][j]) != UrlOf(header, data[..n][i])
      {
        assert data[..n][j] == data[j];
      }
      LastRowWins(header, data[..n], i);
    }
  }

  /** csv.DictReader over a whole file: the first row names the columns and is not an
      entry; an empty file has no entries. */
  function ReadUrlMap(rows: seq<Row>): Result<UrlMap, Error> {
    if rows == [] then Success(map[]) else DictRows(rows[0], rows[1..])
  }

  /** get_existing_videos: creates a ledger holding just the header when there is none
      and knows no URL; otherwise reads the URL map without touching the disk. */
  function GetExistingVideos(disk: Disk, path: Path): (r: (Disk, Result<UrlMap, Error>))
    ensures r.0.Keys == disk.Keys + {path}
    ensures forall q :: q in disk ==> r.0[q] == disk[q]
    ensures path !in disk ==> r.0[path] == [Header] && r.1 == Success(map[])
    ensures path in disk ==> r.1 == ReadUrlMap(disk[path])
  {
    if path !in disk then (disk[path := [Header]], Success(map[]))
    else (disk, ReadUrlMap(disk[path]))
  }

  /** The rows written for videos, `[title, url]` each, in order. */
  function VideoRows(videos: seq<Video>): seq<Row> {
    if videos == [] then []
    else VideoRows(videos[..|videos| - 1]) + [[videos[|videos| - 1].title, videos[|videos| - 1].url]]
  }

  /** One row per video, holding its title and its URL. */
  lemma {:induction false} VideoRowsSpec(videos: seq<Video>)
    ensures |VideoRows(videos)| == |videos|
    ensures forall i :: 0 <= i < |videos| ==> VideoRows(videos)[i] == [videos[i].title, videos[i].url]
  {
    if videos != [] {
      var n := |videos| - 1;
      VideoRowsSpec(videos[..n]);
      assert forall i :: 0 <= i < n ==> videos[..n][i] == videos[i];
    }
  }

  /** The rows written for one video: its title and URL. */
  lemma SingleVideoRow(v: Video)
    ensures VideoRows([v]) == [[v.title, v.url]]
  {
    assert [v][..0] == [];
  }

  /** Writing rows in two batches writes the same rows as writing them in one. */
  lemma {:induction false} VideoRowsAppend(a: seq<Video>, b: seq<Video>)
    ensures VideoRows(a + b) == VideoRows(a) + VideoRows(b)
  {
    if b == [] {
      assert a + b == a;
    } else {
      var n := |b| - 1;
      assert (a + b)[..|a + b| - 1] == a + b[..n];
      VideoRowsAppend(a, b[..n]);
    }
  }

  /** save_new_videos_to_csv: one `writerow([title, url])` per video, appended in order. */
  method SaveNewVideos(rows: seq<Row>, videos: seq<Video>) returns (written: seq<Row>)
    ensures written == rows + VideoRows(videos)
  {
    written := rows;
    for i := 0 to |videos|
      invariant written == rows + VideoRows(videos[..i])
    {
      assert videos[..i + 1][..i] == videos[..i];
      written := written + [[videos[i].title, videos[i].url]];
    }
    assert videos[..|videos|] == videos;
  }

  /** save_video_to_csv: appends the row of a single video. */
  method SaveVideo(rows: seq<Row>, video: Video) returns (written: seq<Row>)
    ensures written == rows + VideoRows([video])
  {
    written := rows + [[video.title, video.url]];
  }

  /** A non-blank data row's URL is a key of the map read under a header with both columns. */
  lemma RowUrlIsKey(header: Row, data: seq<Row>, i: nat)
    requires HasColumns(header) && i < |data| && data[i] != []
    ensures DictRows(header, data).Success? && UrlOf(header, data[i]) in DictRows(header, data).value
  {
    DictRowsKeys(header, data);
  }

  /** Rows appended under a header with both columns keep every key read before. */
  lemma KeysSurviveAppend(header: Row, data: seq<Row>, more: seq<Row>)
    requires HasColumns(header)
    ensures DictRows(header, data).value.Keys <= DictRows(header, data + more).value.Keys
  {
    DictRowsKeys(header, data);
    forall k | k in DictRows(header, data).value ensures k in DictRows(header, data + more).value {
      var i :| 0 <= i < |data| && data[i] != [] && UrlOf(header, data[i]) == k;
      assert (data + more)[i] == data[i];
      RowUrlIsKey(header, data + more, i);
    }
  }

  /** The URL of every appended video is a key of the map read under the header. */
  lemma AppendedUrlIsKey(data: seq<Row>, videos: seq<Video>, j: nat)
    requires j < |videos|
    ensures DictRows(Header, data + VideoRows(videos)).Success?
    ensures Some(videos[j].url) in DictRows(Header, data + VideoRows(videos)).value
  {
    VideoRowsSpec(videos);
    var i := |data| + j;
    assert (data + VideoRows(videos))[i] == [videos[j].title, videos[j].url];
    assert LastIndex(Header, "URL") == 1;
    RowUrlIsKey(Header, data + VideoRows(videos), i);
  }

  /** Reading a ledger that starts with the header back after appending videos: every
      URL known before is still known, and every appended URL is known. */
  lemma ReloadKnowsAppended(rows: seq<Row>, videos: seq<Video>)
    requires rows != [] && rows[0] == Header
    ensures ReadUrlMap(rows + VideoRows(videos)).Success?
    ensures ReadUrlMap(rows).value.Keys <= ReadUrlMap(rows + VideoRows(videos)).value.Keys
    ensures forall v :: v in videos ==> Some(v.url) in ReadUrlMap(rows + VideoRows(videos)).value
  {
    var all := rows + VideoRows(videos);
    var data := rows[1..];
    assert all[0] == Header && all[1..] == data + VideoRows(videos);
    assert ReadUrlMap(all) == DictRows(Header, data + VideoRows(videos));
    assert ReadUrlMap(rows) == DictRows(Header, data);
    KeysSurviveAppend(Header, data, VideoRows(videos));
    forall v | v in videos ensures Some(v.url) in ReadUrlMap(all).value {
      var j :| 0 <= j < |videos| && videos[j] == v;
      AppendedUrlIsKey(data, videos, j);
    }
  }

  /** An existing but empty ledger file has no header, so the first video appended to it
      is read back as the header and is not an entry. */
  lemma EmptyLedgerSwallowsFirstRow(v: Video)
    ensures ReadUrlMap([] + VideoRows([v])) == Success(map[])
  {
    assert [] + VideoRows([v]) == [[v.title, v.url]];
  }

  /** Once an existing but empty ledger file has gained two or more video rows, it loads
      only when the first video's title and URL happen to be the two column names; in
      every other case each later load raises `KeyError`, whatever rows follow. */
  lemma EmptyLedgerFailsOnceTwoRows(videos: seq<Video>, later: seq<Row>)
    requires |videos| >= 2
    ensures ReadUrlMap([] + VideoRows(videos) + later).Failure?
        <==> !HasColumns([videos[0].title, videos[0].url])
    ensures ReadUrlMap([] + VideoRows(videos) + later).Failure?
        ==> ReadUrlMap([] + VideoRows(videos) + later).error == KeyError
  {
    var rows := [] + VideoRows(videos) + later;
    VideoRowsSpec(videos);
    assert rows[0] == [videos[0].title, videos[0].url];
    assert rows[1] == [videos[1].title, videos[1].url];
    assert rows[1..][0] == rows[1];
    DictRowsFailure(rows[0], rows[1..]);
  }

  // ---------------------------------------------------------------------------
  // The new entries of a run
  // ---------------------------------------------------------------------------

  /** The test of the URL-keyed scripts: the watch URL is not a key of the loaded map. */
  function UnknownUrl(known: UrlMap): Video -> bool {
    (v: Video) => Some(v.url) !in known
  }

  /** The videos, in playlist order, whose URL the loaded map does not hold. */
  function NewByUrl(videos: seq<Video>, known: UrlMap): seq<Video> {
    Select(videos, UnknownUrl(known))
  }

  /** The videos a loop of `YouTube(url)` calls obtained, in playlist order; an entry
      whose fetch raised is None. */
  function Fetched(playlist: seq<Option<Video>>): seq<Video> {
    if playlist == [] then []
    else
      var n := |playlist| - 1;
      Fetched(playlist[..n]) + (if playlist[n].Some? then [playlist[n].value] else [])
  }

  /** A video is fetched exactly when some URL's fetch returned it. */
  lemma {:induction false} FetchedMembership(playlist: seq<Option<Video>>)
    ensures |Fetched(playlist)| <= |playlist|
    ensures forall v :: v in Fetched(playlist) <==> Some(v) in playlist
  {
    if playlist != [] {
      var n := |playlist| - 1;
      assert playlist == playlist[..n] + [playlist[n]];
      FetchedMembership(playlist[..n]);
    }
  }

  /** One more URL fetched: the fetched videos grow by its video when the fetch returned. */
  lemma FetchedStep(playlist: seq<Option<Video>>, i: nat)
    requires i < |playlist|
    ensures Fetched(playlist[..i + 1]) == Fetched(playlist[..i]) + (if playlist[i].Some? then [playlist[i].value] else [])
  {
    assert playlist[..i + 1][..i] == playlist[..i];
  }

  /** One more URL fetched: the new videos grow by its video exactly when the fetch
      returned and the URL is not a key of the map loaded before the run. */
  lemma NewByUrlStep(playlist: seq<Option<Video>>, i: nat, known: UrlMap)
    requires i < |playlist|
    ensures NewByUrl(Fetched(playlist[..i + 1]), known)
         == NewByUrl(Fetched(playlist[..i]), known)
            + (if playlist[i].Some? && Some(playlist[i].value.url) !in known then [playlist[i].value] else [])
  {
    FetchedStep(playlist, i);
    var before := Fetched(playlist[..i]);
    if playlist[i].Some? {
      var v := playlist[i].value;
      assert Fetched(playlist[..i + 1]) == before + [v];
      SelectSnoc(before, v, UnknownUrl(known));
      assert UnknownUrl(known)(v) == (Some(v.url) !in known);
    } else {
      assert Fetched(playlist[..i + 1]) == before;
    }
  }

  /** How a run of a URL-keyed script ends. */
  datatype RunExit =
    | NoTitle                    // get_playlist_title returned None
    | LoadFailed(error: Error)   // get_existing_videos raised
    | Listed(added: seq<Video>)  // the videos appended to the ledger (possibly none)

  /** What a run of a URL-keyed script leaves on disk, given the videos it managed to
      fetch: the ledger of the playlist gains one row per fetched video whose URL it
      did not know before the run. */
  function UrlLedgerRun(directory: string, playlistTitle: Option<string>, videos: seq<Video>, disk: Disk): (Disk, RunExit) {
    if playlistTitle.None? then (disk, NoTitle)
    else
      ListIntoLedger(disk, CsvPath(directory, playlistTitle.value), videos)
  }

  /** The ledger at `path` is loaded, created with its header when missing, and gains one
      row per video whose URL it did not hold. */
  function ListIntoLedger(disk: Disk, path: Path, videos: seq<Video>): (Disk, RunExit) {
    var (loaded, known) := GetExistingVideos(disk, path);
    if known.Failure? then (loaded, LoadFailed(known.error))
    else
      var added := NewByUrl(videos, known.value);
      (loaded[path := loaded[path] + VideoRows(added)], Listed(added))
  }

  /** Rows appended after `rows` hold the videos' title and URL, one per video, in order. */
  lemma AppendedVideoRows(rows: seq<Row>, videos: seq<Video>)
    ensures |rows + VideoRows(videos)| == |rows| + |videos|
    ensures (rows + VideoRows(videos))[..|rows|] == rows
    ensures forall j :: 0 <= j < |videos| ==>
      (rows + VideoRows(videos))[|rows| + j] == [videos[j].title, videos[j].url]
  {
    VideoRowsSpec(videos);
  }

  /** A run changes no file but the ledger of its playlist, never shrinks or rewrites that
      ledger, and adds one row for each fetched video with an unknown URL; what the rows
      hold and their order is `UrlLedgerRunAppendsInOrder`. */
  lemma UrlLedgerRunAppendsOnly(directory: string, playlistTitle: Option<string>, videos: seq<Video>, disk: Disk)
    ensures var (disk', exit) := UrlLedgerRun(directory, playlistTitle, videos, disk);
      && (playlistTitle.None? ==> disk' == disk && exit == NoTitle)
      && (playlistTitle.Some? ==>
            var path := CsvPath(directory, playlistTitle.value);
            && disk'.Keys == disk.Keys + {path}
            && (forall q :: q in disk && q != path ==> disk'[q] == disk[q])
            && (path in disk ==> disk'[path][..|disk[path]|] == disk[path])
            && (exit.LoadFailed? ==> disk' == disk)
            && (exit.Listed? ==>
                  var known := GetExistingVideos(disk, path).1.value;
                  && |disk'[path]| == (if path in disk then |disk[path]| else 1) + |exit.added|
                  && (forall v :: v in exit.added <==> v in videos && Some(v.url) !in known)))
  {
    if playlistTitle.Some? {
      var path := CsvPath(directory, playlistTitle.value);
      var (loaded, known) := GetExistingVideos(disk, path);
      assert UrlLedgerRun(directory, playlistTitle, videos, disk) == ListIntoLedger(disk, path, videos);
      if known.Success? {
        var added := NewByUrl(videos, known.value);
        assert ListIntoLedger(disk, path, videos) == (loaded[path := loaded[path] + VideoRows(added)], Listed(added));
        SelectMembership(videos, UnknownUrl(known.value));
        VideoRowsSpec(added);
      }
    }
  }


  /** A listing of the ledger at `path` keeps the rows it held (or the header it creates)
      and appends one `[title, url]` row per listed video, in order. */
  lemma ListIntoLedgerRows(disk: Disk, path: Path, videos: seq<Video>)
    ensures var run := ListIntoLedger(disk, path, videos);
      var n := if path in disk then |disk[path]| else 1;
      run.1.Listed? ==>
        && path in run.0 && |run.0[path]| == n + |run.1.added|
        && (path in disk ==> run.0[path][..n] == disk[path])
        && (path !in disk ==> run.0[path][0] == Header)
        && (forall j :: 0 <= j < |run.1.added| ==>
              run.0[path][n + j] == [run.1.added[j].title, run.1.added[j].url])
  {
    var r := GetExistingVideos(disk, path);
    if r.1.Success? {
      var added := NewByUrl(videos, r.1.value);
      assert ListIntoLedger(disk, path, videos) == (r.0[path := r.0[path] + VideoRows(added)], Listed(added));
      AppendedVideoRows(r.0[path], added);
    }
  }

  /** A listing of the ledger at `path` lists the videos at the positions whose URL the
      loaded map does not hold, in playlist order. */
  lemma ListIntoLedgerOrder(disk: Disk, path: Path, videos: seq<Video>)
    ensures var known := GetExistingVideos(disk, path).1;
      var run := ListIntoLedger(disk, path, videos);
      run.1.Listed? ==>
        && known.Success?
        && (var kept := KeptIndices(videos, UnknownUrl(known.value));
            && |run.1.added| == |kept|
            && (forall j :: 0 <= j < |kept| ==> run.1.added[j] == videos[kept[j]]))
  {
    var known := GetExistingVideos(disk, path).1;
    if known.Success? {
      assert ListIntoLedger(disk, path, videos).1 == Listed(NewByUrl(videos, known.value));
      SelectIsKeptSubsequence(videos, UnknownUrl(known.value));
    }
  }


  /** What a listed run appends: a ledger that did not exist starts with the header, and
      after the rows it held come the `[title, url]` rows of the videos with an unknown
      URL, in playlist order. */
  lemma UrlLedgerRunAppendsInOrder(directory: string, playlistTitle: string, videos: seq<Video>, disk: Disk)
    ensures var path := CsvPath(directory, playlistTitle);
      var known := GetExistingVideos(disk, path).1;
      var run := UrlLedgerRun(directory, Some(playlistTitle), videos, disk);
      var n := if path in disk then |disk[path]| else 1;
      run.1.Listed? ==>
        && known.Success? && path in run.0 && |run.0[path]| == n + |run.1.added|
        && (path in disk ==> run.0[path][..n] == disk[path])
        && (path !in disk ==> run.0[path][0] == Header)
        && (var kept := KeptIndices(videos, UnknownUrl(known.value));
            && |run.1.added| == |kept|
            && (forall j :: 0 <= j < |kept| ==> run.1.added[j] == videos[kept[j]]))
        && (forall j :: 0 <= j < |run.1.added| ==>
              run.0[path][n + j] == [run.1.added[j].title, run.1.added[j].url])
  {
    var path := CsvPath(directory, playlistTitle);
    assert UrlLedgerRun(directory, Some(playlistTitle), videos, disk) == ListIntoLedger(disk, path, videos);
    ListIntoLedgerRows(disk, path, videos);
    ListIntoLedgerOrder(disk, path, videos);
  }



  /** Nothing is new when every URL is known. */
  lemma NothingNewWhenAllKnown(videos: seq<Video>, known: UrlMap)
    requires forall v :: v in videos ==> Some(v.url) in known
    ensures NewByUrl(videos, known) == []
  {
    forall i | 0 <= i < |videos| ensures !UnknownUrl(known)(videos[i]) {
      assert videos[i] in videos;
    }
    SelectNone(videos, UnknownUrl(known));
  }

  /** Appending the new videos to a ledger that starts with the header leaves no video new. */
  lemma AppendingNewLeavesNothingNew(rows: seq<Row>, videos: seq<Video>)
    requires rows != [] && rows[0] == Header
    ensures var rows1 := rows + VideoRows(NewByUrl(videos, ReadUrlMap(rows).value));
      && ReadUrlMap(rows1).Success?
      && NewByUrl(videos, ReadUrlMap(rows1).value) == []
  {
    var known := ReadUrlMap(rows).value;
    var added := NewByUrl(videos, known);
    var rows1 := rows + VideoRows(added);
    ReloadKnowsAppended(rows, added);
    var known1 := ReadUrlMap(rows1).value;
    SelectMembership(videos, UnknownUrl(known));
    forall v | v in videos ensures Some(v.url) in known1 {
      if Some(v.url) !in known {
        assert UnknownUrl(known)(v);
        assert v in added;
      }
    }
    NothingNewWhenAllKnown(videos, known1);
  }

  /** Running a URL-keyed script again over the same videos adds nothing, provided its
      ledger was missing or starts with the header. */
  lemma UrlLedgerRerunAddsNothing(directory: string, title: string, videos: seq<Video>, disk: Disk)
    requires var path := CsvPath(directory, title); path in disk ==> disk[path] != [] && disk[path][0] == Header
    ensures UrlLedgerRun(directory, Some(title), videos, disk).1.Listed?
    ensures var disk1 := UrlLedgerRun(directory, Some(title), videos, disk).0;
      UrlLedgerRun(directory, Some(title), videos, disk1) == (disk1, Listed([]))
  {
    var path := CsvPath(directory, title);
    var loaded := GetExistingVideos(disk, path).0;
    var rows := loaded[path];
    assert HasColumns(Header);
    assert rows != [] && rows[0] == Header;
    var known := ReadUrlMap(rows);
    assert GetExistingVideos(disk, path).1 == known;
    var added := NewByUrl(videos, known.value);
    var rows1 := rows + VideoRows(added);
    var disk1 := loaded[path := rows1];
    assert UrlLedgerRun(directory, Some(title), videos, disk) == (disk1, Listed(added));
    AppendingNewLeavesNothingNew(rows, videos);
    assert GetExistingVideos(disk1, path) == (disk1, ReadUrlMap(rows1));
    assert rows1 + VideoRows([]) == rows1;
    assert disk1[path := rows1] == disk1;
  }
}
