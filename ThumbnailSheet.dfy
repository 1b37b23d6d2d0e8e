/** URL_name_image_video_from_playlist_version3: lists the videos of a playlist in a fresh
    workbook, one row per video (thumbnail image anchored in column A, title in B, watch URL
    in C), saving the workbook after every video. The row only moves on when a video was
    saved, so a video that fails part-way leaves its traces in the row the next video uses. */
module ThumbnailSheet {
  import opened Wrappers
  import opened Filenames

  /** A cell of the active worksheet; rows and columns count from 1 (column A is 1). */
  datatype Cell = Cell(row: nat, column: nat)

  /** An image placed on the worksheet, anchored at `A{row}`; `source` is the thumbnail URL
      whose response body it was read from. */
  datatype Image = Image(row: nat, source: string)

  /** The active worksheet as the scripts see it: cell values, placed images in the order
      they were added, row heights and column widths that were set, and the row
      `append` writes after (openpyxl's `_current_row`). */
  datatype Snapshot = Snapshot(
    cells: map<Cell, string>,
    images: seq<Image>,
    rowHeights: map<nat, int>,
    columnWidths: map<nat, int>,
    currentRow: nat)

  /** The details the script reads from `YouTube(url)`. */
  datatype VideoDetails = VideoDetails(title: string, url: string, thumbnailUrl: string)

  /** What `requests.get(thumbnail_url)` did: it raised, or it answered with a status code. */
  datatype Response = RequestRaised | Status(code: int)

  /** Everything the outside world decides for one URL of the playlist: the video's details
      (None when `YouTube(url)` or one of its attributes raised), the thumbnail response,
      whether `Image(...)` can read the body, and whether `workbook.save` succeeds. */
  datatype Step = Step(details: Option<VideoDetails>, thumbnail: Response, imageLoads: bool, saveSucceeds: bool)

  const StatusOk := 200
  const ThumbnailRowHeight := 90
  const ThumbnailColumnWidth := 20
  const TitleColumn := 2
  const UrlColumn := 3
  const FirstVideoRow: nat := 2
  const HeaderRow: seq<string> := ["Thumbnail", "Title", "URL"]

  /** An empty worksheet, as `Workbook().active` starts. */
  const EmptySheet := Snapshot(map[], [], map[], map[], 0)

  // ---------------------------------------------------------------------------
  // Worksheet operations
  // ---------------------------------------------------------------------------

  /** `ws[cell] = value`: sets the value; touching a cell raises the current row to its row. */
  function SetValue(s: Snapshot, cell: Cell, value: string): (r: Snapshot)
    ensures r.cells.Keys == s.cells.Keys + {cell} && r.cells[cell] == value
    ensures forall c :: c in s.cells && c != cell ==> r.cells[c] == s.cells[c]
    ensures r.images == s.images && r.rowHeights == s.rowHeights && r.columnWidths == s.columnWidths
    ensures r.currentRow == if cell.row > s.currentRow then cell.row else s.currentRow
  {
    s.(cells := s.cells[cell := value], currentRow := if cell.row > s.currentRow then cell.row else s.currentRow)
  }

  /** The cells after writing `values` into `row` from column A on. */
  function WriteRow(cells: map<Cell, string>, row: nat, values: seq<string>): map<Cell, string> {
    if values == [] then cells
    else
      var n := |values| - 1;
      WriteRow(cells, row, values[..n])[Cell(row, n + 1) := values[n]]
  }

  /** Writing a row sets exactly the cells `(row, 1)` to `(row, |values|)`, to the values in
      order, and keeps every other cell. */
  lemma {:induction false} WriteRowSpec(cells: map<Cell, string>, row: nat, values: seq<string>)
    ensures WriteRow(cells, row, values).Keys == cells.Keys + set j | 1 <= j <= |values| :: Cell(row, j)
    ensures forall j :: 0 <= j < |values| ==> WriteRow(cells, row, values)[Cell(row, j + 1)] == values[j]
    ensures forall c :: c in cells && (c.row != row || c.column == 0 || c.column > |values|) ==>
      WriteRow(cells, row, values)[c] == cells[c]
  {
    if values != [] {
      var n := |values| - 1;
      WriteRowSpec(cells, row, values[..n]);
      var before := WriteRow(cells, row, values[..n]);
      assert WriteRow(cells, row, values) == before[Cell(row, n + 1) := values[n]];
      assert (set j | 1 <= j <= |values| :: Cell(row, j)) == (set j | 1 <= j <= n :: Cell(row, j)) + {Cell(row, n + 1)};
      forall j | 0 <= j < n
        ensures WriteRow(cells, row, values)[Cell(row, j + 1)] == values[j]
      {
        assert values[..n][j] == values[j];
      }
    }
  }

  /** `ws.append(values)`: writes the values into the row after the current one, which
      becomes the current row. */
  function AppendRow(s: Snapshot, values: seq<string>): Snapshot {
    s.(cells := WriteRow(s.cells, s.currentRow + 1, values), currentRow := s.currentRow + 1)
  }

  /** The worksheet main starts from: a fresh workbook with the header appended. */
  function HeaderSheet(): Snapshot {
    AppendRow(EmptySheet, HeaderRow)
  }

  /** The header sheet holds the three header cells in row 1 and nothing else. */
  lemma HeaderSheetContents()
    ensures HeaderSheet().images == [] && HeaderSheet().currentRow == 1
    ensures HeaderSheet().cells.Keys == {Cell(1, 1), Cell(1, 2), Cell(1, 3)}
    ensures HeaderSheet().cells[Cell(1, 1)] == "Thumbnail"
    ensures HeaderSheet().cells[Cell(1, 2)] == "Title"
    ensures HeaderSheet().cells[Cell(1, 3)] == "URL"
  {
    WriteRowSpec(map[], 1, HeaderRow);
    assert (set j | 1 <= j <= 3 :: Cell(1, j)) == {Cell(1, 1), Cell(1, 2), Cell(1, 3)};
  }

  // ---------------------------------------------------------------------------
  // One video, and the whole playlist
  // ---------------------------------------------------------------------------

  /** Whether `add_video_to_excel` places the thumbnail: the response was 200 (the body is
      wrapped in a BytesIO, which is always truthy). */
  predicate ThumbnailShown(response: Response) {
    response.Status? && response.code == StatusOk
  }

  /** Whether `add_video_to_excel` raises before writing anything: `requests.get` raised, or
      the 200 body is not an image `Image(...)` can read. */
  predicate FailsBeforeWriting(response: Response, imageLoads: bool) {
    response.RequestRaised? || (ThumbnailShown(response) && !imageLoads)
  }

  /** add_video_to_excel: the worksheet afterwards, and whether the workbook was saved
      (it returned normally) or an exception escaped to main. */
  function AddVideo(s: Snapshot, video: VideoDetails, row: nat, response: Response, imageLoads: bool,
                    saveSucceeds: bool): (Snapshot, bool)
  {
    if FailsBeforeWriting(response, imageLoads) then (s, false)
    else
      var placed :=
        if ThumbnailShown(response) then
          s.(images := s.images + [Image(row, video.thumbnailUrl)],
             rowHeights := s.rowHeights[row := ThumbnailRowHeight],
             columnWidths := s.columnWidths[1 := ThumbnailColumnWidth])
        else s;
      (SetValue(SetValue(placed, Cell(row, TitleColumn), video.title), Cell(row, UrlColumn), video.url), saveSucceeds)
  }

  /** Whether a step ends with the video saved, so that the row moves on. */
  predicate Recorded(step: Step) {
    step.details.Some? && !FailsBeforeWriting(step.thumbnail, step.imageLoads) && step.saveSucceeds
  }

  /** The details of the recorded videos, in playlist order. */
  function RecordedVideos(steps: seq<Step>): seq<VideoDetails> {
    if steps == [] then []
    else
      var last := steps[|steps| - 1];
      RecordedVideos(steps[..|steps| - 1]) + if Recorded(last) then [last.details.value] else []
  }

  /** The thumbnail URLs of the videos whose thumbnail `add_video_to_excel` places, in order:
      the details were read, the response was 200 and the body is an image. Whether the
      workbook was then saved plays no part. */
  function PlacedThumbnails(steps: seq<Step>): seq<string> {
    if steps == [] then []
    else
      var last := steps[|steps| - 1];
      PlacedThumbnails(steps[..|steps| - 1]) +
        if last.details.Some? && ThumbnailShown(last.thumbnail) && last.imageLoads then [last.details.value.thumbnailUrl] else []
  }

  /** The length of the shortest prefix of the playlist that holds every recorded video:
      the position just after the last successful save, 0 when there was none. */
  function LastSave(steps: seq<Step>): nat {
    if steps == [] then 0
    else if Recorded(steps[|steps| - 1]) then |steps|
    else LastSave(steps[..|steps| - 1])
  }

  /** The URLs the images on a worksheet were read from, in the order they were added. */
  function ImageSources(images: seq<Image>): seq<string> {
    if images == [] then []
    else ImageSources(images[..|images| - 1]) + [images[|images| - 1].source]
  }

  /** Whether row 1 holds the header main appends. */
  predicate ShowsHeader(sheet: Snapshot) {
    && Cell(1, 1) in sheet.cells && sheet.cells[Cell(1, 1)] == HeaderRow[0]
    && Cell(1, 2) in sheet.cells && sheet.cells[Cell(1, 2)] == HeaderRow[1]
    && Cell(1, 3) in sheet.cells && sheet.cells[Cell(1, 3)] == HeaderRow[2]
  }

  /** The state of main's loop: the worksheet, the next row to fill, and what the last
      successful `workbook.save` of this run wrote (None before the first one). */
  datatype RunState = RunState(sheet: Snapshot, row: nat, saved: Option<Snapshot>)

  /** One iteration of main's loop: a video whose details could not be read is skipped;
      otherwise it is added, and the row moves on only when no exception escaped. */
  function ProcessStep(state: RunState, step: Step): RunState {
    if step.details.None? then state
    else
      var (sheet, ok) := AddVideo(state.sheet, step.details.value, state.row, step.thumbnail, step.imageLoads,
                                  step.saveSucceeds);
      if ok then RunState(sheet, state.row + 1, Some(sheet)) else RunState(sheet, state.row, state.saved)
  }

  /** main's loop over the playlist's URLs, in order. */
  function ProcessPlaylist(state: RunState, steps: seq<Step>): RunState {
    if steps == [] then state
    else ProcessStep(ProcessPlaylist(state, steps[..|steps| - 1]), steps[|steps| - 1])
  }

  /** What a run leaves: nothing when the playlist title could not be read, otherwise the
      loop run over the header sheet from the second row. */
  function Outcome(steps: seq<Step>): RunState {
    ProcessPlaylist(RunState(HeaderSheet(), FirstVideoRow, None), steps)
  }

  // ---------------------------------------------------------------------------
  // What one video does to the worksheet
  // ---------------------------------------------------------------------------

  /** Whether a row of the worksheet shows a video: its title in column B, its URL in C. */
  predicate ShowsVideo(sheet: Snapshot, row: nat, video: VideoDetails) {
    && Cell(row, TitleColumn) in sheet.cells && sheet.cells[Cell(row, TitleColumn)] == video.title
    && Cell(row, UrlColumn) in sheet.cells && sheet.cells[Cell(row, UrlColumn)] == video.url
  }

  /** add_video_to_excel saves exactly when nothing raised; it changes nothing when it raises
      before writing, and otherwise shows the video in its row. */
  lemma AddVideoOutcome(s: Snapshot, video: VideoDetails, row: nat, response: Response, imageLoads: bool,
                        saveSucceeds: bool)
    ensures var (t, ok) := AddVideo(s, video, row, response, imageLoads, saveSucceeds);
      && (ok <==> !FailsBeforeWriting(response, imageLoads) && saveSucceeds)
      && (FailsBeforeWriting(response, imageLoads) ==> t == s)
      && (!FailsBeforeWriting(response, imageLoads) ==> ShowsVideo(t, row, video))
  {
  }

  /** add_video_to_excel leaves the cells of every other row as they were. */
  lemma AddVideoKeepsOtherRows(s: Snapshot, video: VideoDetails, row: nat, response: Response, imageLoads: bool,
                               saveSucceeds: bool)
    ensures var t := AddVideo(s, video, row, response, imageLoads, saveSucceeds).0;
      && (forall c: Cell :: c.row != row ==> (c in t.cells <==> c in s.cells))
      && (forall c :: c in s.cells && c.row != row ==> t.cells[c] == s.cells[c])
      && (forall c :: c in t.cells && c !in s.cells ==> c.column == TitleColumn || c.column == UrlColumn)
  {
  }

  /** add_video_to_excel adds the thumbnail, anchored in its row, exactly when the response
      was 200 and the body an image; it then makes that row 90 high and column A 20 wide,
      and otherwise leaves row heights and column widths alone. */
  lemma AddVideoPlacesThumbnail(s: Snapshot, video: VideoDetails, row: nat, response: Response, imageLoads: bool,
                                saveSucceeds: bool)
    ensures var t := AddVideo(s, video, row, response, imageLoads, saveSucceeds).0;
      && t.images == s.images + (if ThumbnailShown(response) && imageLoads then [Image(row, video.thumbnailUrl)] else [])
      && (forall k :: k in s.rowHeights ==> k in t.rowHeights)
      && (forall k :: k in s.rowHeights && k != row ==> t.rowHeights[k] == s.rowHeights[k])
      && (ThumbnailShown(response) && imageLoads ==>
            && row in t.rowHeights && t.rowHeights[row] == ThumbnailRowHeight
            && 1 in t.columnWidths && t.columnWidths[1] == ThumbnailColumnWidth)
      && (!(ThumbnailShown(response) && imageLoads) ==> t.rowHeights == s.rowHeights && t.columnWidths == s.columnWidths)
  {
  }

  // ---------------------------------------------------------------------------
  // What the loop does to the worksheet
  // ---------------------------------------------------------------------------

  /** One iteration of the loop moves the row on and saves exactly when its video is
      recorded; the saved content is then the worksheet as the iteration leaves it. */
  lemma StepSaves(state: RunState, step: Step)
    ensures ProcessStep(state, step).row == if Recorded(step) then state.row + 1 else state.row
    ensures ProcessStep(state, step).saved ==
      if Recorded(step) then Some(ProcessStep(state, step).sheet) else state.saved
  {
    if step.details.Some? {
      AddVideoOutcome(state.sheet, step.details.value, state.row, step.thumbnail, step.imageLoads, step.saveSucceeds);
    }
  }

  /** The row moves on once per recorded video, and a save has happened by the end exactly
      when one had happened before or some video was recorded. */
  lemma {:induction false} RowCountsRecorded(state: RunState, steps: seq<Step>)
    ensures ProcessPlaylist(state, steps).row == state.row + |RecordedVideos(steps)|
    ensures ProcessPlaylist(state, steps).saved.Some? <==> state.saved.Some? || RecordedVideos(steps) != []
  {
    if steps != [] {
      var last := steps[|steps| - 1];
      var before := ProcessPlaylist(state, steps[..|steps| - 1]);
      RowCountsRecorded(state, steps[..|steps| - 1]);
      StepSaves(before, last);
    }
  }

  /** The cells of the rows above the one the loop starts in are never changed. */
  lemma {:induction false} EarlierRowsKept(state: RunState, steps: seq<Step>)
    ensures forall c :: c in state.sheet.cells && c.row < state.row ==>
      c in ProcessPlaylist(state, steps).sheet.cells && ProcessPlaylist(state, steps).sheet.cells[c] == state.sheet.cells[c]
  {
    if steps != [] {
      var last := steps[|steps| - 1];
      var before := ProcessPlaylist(state, steps[..|steps| - 1]);
      EarlierRowsKept(state, steps[..|steps| - 1]);
      RowCountsRecorded(state, steps[..|steps| - 1]);
      if last.details.Some? {
        AddVideoKeepsOtherRows(before.sheet, last.details.value, before.row, last.thumbnail, last.imageLoads, last.saveSucceeds);
      }
    }
  }

  /** The j-th recorded video is shown in the j-th row from the one the loop starts in,
      whatever the videos that failed wrote before it. */
  lemma {:induction false} RecordedRowsHoldTheirVideos(state: RunState, steps: seq<Step>)
    ensures forall j :: 0 <= j < |RecordedVideos(steps)| ==>
      ShowsVideo(ProcessPlaylist(state, steps).sheet, state.row + j, RecordedVideos(steps)[j])
  {
    if steps != [] {
      var init := steps[..|steps| - 1];
      var last := steps[|steps| - 1];
      var before := ProcessPlaylist(state, init);
      RecordedRowsHoldTheirVideos(state, init);
      RowCountsRecorded(state, init);
      var recorded, earlier := RecordedVideos(steps), RecordedVideos(init);
      if last.details.Some? {
        AddVideoOutcome(before.sheet, last.details.value, before.row, last.thumbnail, last.imageLoads, last.saveSucceeds);
        AddVideoKeepsOtherRows(before.sheet, last.details.value, before.row, last.thumbnail, last.imageLoads, last.saveSucceeds);
      }
      forall j | 0 <= j < |recorded|
        ensures ShowsVideo(ProcessPlaylist(state, steps).sheet, state.row + j, recorded[j])
      {
        if j < |earlier| {
          assert recorded[j] == earlier[j];
        }
      }
    }
  }

  /** Cells the loop adds lie in columns B and C of the rows from the one it starts in to
      the one it ends in. */
  lemma {:induction false} CellsWithinRows(state: RunState, steps: seq<Step>)
    ensures forall c :: c in ProcessPlaylist(state, steps).sheet.cells ==>
      c in state.sheet.cells ||
      (state.row <= c.row <= ProcessPlaylist(state, steps).row && (c.column == TitleColumn || c.column == UrlColumn))
  {
    if steps != [] {
      var init := steps[..|steps| - 1];
      var last := steps[|steps| - 1];
      var before := ProcessPlaylist(state, init);
      CellsWithinRows(state, init);
      RowCountsRecorded(state, init);
      RowCountsRecorded(state, steps);
      assert |RecordedVideos(steps)| >= |RecordedVideos(init)|;
      if last.details.Some? {
        AddVideoKeepsOtherRows(before.sheet, last.details.value, before.row, last.thumbnail, last.imageLoads, last.saveSucceeds);
      }
    }
  }

  /** One iteration of the loop adds at most the one thumbnail it places, anchored in the
      current row; heights of rows stay 90 once set, and the row never goes back. */
  lemma StepImages(state: RunState, step: Step)
    ensures var after := ProcessStep(state, step);
      && after.sheet.images == state.sheet.images +
           (if step.details.Some? && ThumbnailShown(step.thumbnail) && step.imageLoads
            then [Image(state.row, step.details.value.thumbnailUrl)] else [])
      && state.row <= after.row
      && (forall k :: k in state.sheet.rowHeights && state.sheet.rowHeights[k] == ThumbnailRowHeight ==>
            k in after.sheet.rowHeights && after.sheet.rowHeights[k] == ThumbnailRowHeight)
      && (1 in state.sheet.columnWidths && state.sheet.columnWidths[1] == ThumbnailColumnWidth ==>
            1 in after.sheet.columnWidths && after.sheet.columnWidths[1] == ThumbnailColumnWidth)
      && (step.details.Some? && ThumbnailShown(step.thumbnail) && step.imageLoads ==>
            && state.row in after.sheet.rowHeights && after.sheet.rowHeights[state.row] == ThumbnailRowHeight
            && 1 in after.sheet.columnWidths && after.sheet.columnWidths[1] == ThumbnailColumnWidth)
  {
    if step.details.Some? {
      AddVideoPlacesThumbnail(state.sheet, step.details.value, state.row, step.thumbnail, step.imageLoads,
                              step.saveSucceeds);
    }
  }

  /** Images are only ever added, and those the loop adds were read from the placed
      thumbnails, in order. */
  lemma {:induction false} ImagesAreThumbnails(state: RunState, steps: seq<Step>)
    ensures state.sheet.images <= ProcessPlaylist(state, steps).sheet.images
    ensures ImageSources(ProcessPlaylist(state, steps).sheet.images) ==
      ImageSources(state.sheet.images) + PlacedThumbnails(steps)
  {
    if steps == [] {
      assert ImageSources(state.sheet.images) + [] == ImageSources(state.sheet.images);
    } else {
      var init := steps[..|steps| - 1];
      var last := steps[|steps| - 1];
      var before := ProcessPlaylist(state, init);
      var images := ProcessStep(before, last).sheet.images;
      ImagesAreThumbnails(state, init);
      StepImages(before, last);
      if last.details.Some? && ThumbnailShown(last.thumbnail) && last.imageLoads {
        assert images[..|images| - 1] == before.sheet.images;
      } else {
        assert images == before.sheet.images;
        assert PlacedThumbnails(steps) == PlacedThumbnails(init) + [];
      }
    }
  }

  /** Each image the loop adds is anchored in a row the loop visited, that row is 90 high,
      and column A is then 20 wide. */
  lemma {:induction false} ImagesAnchoredInVisitedRows(state: RunState, steps: seq<Step>)
    ensures |state.sheet.images| <= |ProcessPlaylist(state, steps).sheet.images|
    ensures forall i :: |state.sheet.images| <= i < |ProcessPlaylist(state, steps).sheet.images| ==>
      var row := ProcessPlaylist(state, steps).sheet.images[i].row;
      && state.row <= row <= ProcessPlaylist(state, steps).row
      && row in ProcessPlaylist(state, steps).sheet.rowHeights
      && ProcessPlaylist(state, steps).sheet.rowHeights[row] == ThumbnailRowHeight
    ensures |ProcessPlaylist(state, steps).sheet.images| > |state.sheet.images| ==>
      1 in ProcessPlaylist(state, steps).sheet.columnWidths &&
      ProcessPlaylist(state, steps).sheet.columnWidths[1] == ThumbnailColumnWidth
  {
    if steps != [] {
      var init := steps[..|steps| - 1];
      var last := steps[|steps| - 1];
      var before := ProcessPlaylist(state, init);
      var after := ProcessStep(before, last);
      ImagesAnchoredInVisitedRows(state, init);
      RowCountsRecorded(state, init);
      StepImages(before, last);
      forall i | |state.sheet.images| <= i < |after.sheet.images|
        ensures state.row <= after.sheet.images[i].row <= after.row
        ensures after.sheet.images[i].row in after.sheet.rowHeights
        ensures after.sheet.rowHeights[after.sheet.images[i].row] == ThumbnailRowHeight
      {
        if i < |before.sheet.images| {
          assert after.sheet.images[i] == before.sheet.images[i];
        }
      }
    }
  }

  /** What the file holds is what the worksheet held at the last successful save: the
      prefix of the playlist up to it holds every recorded video, and there is a last save
      exactly when some video was recorded. */
  lemma {:induction false} SavedAtLastSave(state: RunState, steps: seq<Step>)
    ensures LastSave(steps) <= |steps|
    ensures RecordedVideos(steps[..LastSave(steps)]) == RecordedVideos(steps)
    ensures LastSave(steps) == 0 <==> RecordedVideos(steps) == []
    ensures LastSave(steps) > 0 ==> Recorded(steps[LastSave(steps) - 1])
    ensures ProcessPlaylist(state, steps).saved ==
      if LastSave(steps) == 0 then state.saved else Some(ProcessPlaylist(state, steps[..LastSave(steps)]).sheet)
  {
    if steps == [] {
      assert steps[..0] == steps;
    } else {
      var init := steps[..|steps| - 1];
      var last := steps[|steps| - 1];
      var before := ProcessPlaylist(state, init);
      StepSaves(before, last);
      if Recorded(last) {
        assert steps[..|steps|] == steps;
      } else {
        SavedAtLastSave(state, init);
        assert init[..LastSave(init)] == steps[..LastSave(init)];
        assert RecordedVideos(steps) == RecordedVideos(init) + [];
      }
    }
  }

  /** When the last iteration saved, the cells added lie in columns B and C of the rows
      the recorded videos took. */
  lemma SavedCellsWithinRecordedRows(state: RunState, steps: seq<Step>)
    requires steps != [] && Recorded(steps[|steps| - 1])
    ensures forall c :: c in ProcessPlaylist(state, steps).sheet.cells ==>
      c in state.sheet.cells ||
      (state.row <= c.row < state.row + |RecordedVideos(steps)| && (c.column == TitleColumn || c.column == UrlColumn))
  {
    var init := steps[..|steps| - 1];
    var last := steps[|steps| - 1];
    var before := ProcessPlaylist(state, init);
    CellsWithinRows(state, init);
    RowCountsRecorded(state, init);
    AddVideoKeepsOtherRows(before.sheet, last.details.value, before.row, last.thumbnail, last.imageLoads,
                           last.saveSucceeds);
  }

  /** The header main appends stays in row 1 whatever happens to the videos. */
  lemma HeaderSurvives(start: RunState, steps: seq<Step>)
    requires FreshStart(start)
    ensures ShowsHeader(ProcessPlaylist(start, steps).sheet)
  {
    EarlierRowsKept(start, steps);
  }

  /** Whether a run starts as main's loop does: the header alone in a fresh worksheet, the
      first video due in row 2, and nothing saved yet. */
  predicate FreshStart(state: RunState) {
    && ShowsHeader(state.sheet)
    && (forall c :: c in state.sheet.cells ==> c.row == 1 && 1 <= c.column <= 3)
    && state.row == FirstVideoRow && state.saved.None?
  }

  /** main's loop starts fresh. */
  lemma OutcomeStartsFresh()
    ensures FreshStart(RunState(HeaderSheet(), FirstVideoRow, None))
  {
    HeaderSheetContents();
  }

  /** The workbook file a run from a fresh start leaves: none when no video was recorded;
      otherwise the header in row 1 and the recorded videos in rows 2, 3, ... in playlist
      order. */
  lemma SavedWorkbookListsRecordedVideos(start: RunState, steps: seq<Step>)
    requires FreshStart(start)
    ensures ProcessPlaylist(start, steps).saved.Some? <==> RecordedVideos(steps) != []
    ensures ProcessPlaylist(start, steps).saved.Some? ==> ShowsHeader(ProcessPlaylist(start, steps).saved.value)
    ensures ProcessPlaylist(start, steps).saved.Some? ==> forall j :: 0 <= j < |RecordedVideos(steps)| ==>
      ShowsVideo(ProcessPlaylist(start, steps).saved.value, FirstVideoRow + j, RecordedVideos(steps)[j])
  {
    var k := LastSave(steps);
    SavedAtLastSave(start, steps);
    if k > 0 {
      EarlierRowsKept(start, steps[..k]);
      RecordedRowsHoldTheirVideos(start, steps[..k]);
    }
  }

  /** The saved workbook holds no cell besides the header and the recorded videos' titles
      and URLs: what a failed video wrote was overwritten before the last save. */
  lemma SavedWorkbookHasNoOtherCells(start: RunState, steps: seq<Step>)
    requires FreshStart(start)
    ensures ProcessPlaylist(start, steps).saved.Some? ==> forall c :: c in ProcessPlaylist(start, steps).saved.value.cells ==>
      || (c.row == 1 && 1 <= c.column <= 3)
      || (FirstVideoRow <= c.row < FirstVideoRow + |RecordedVideos(steps)| && (c.column == TitleColumn || c.column == UrlColumn))
  {
    var k := LastSave(steps);
    SavedAtLastSave(start, steps);
    if k > 0 {
      SavedCellsWithinRecordedRows(start, steps[..k]);
    }
  }

  /** A failed video's cells are overwritten by the next video, but its thumbnail is not:
      when the save of a video with a thumbnail fails and the next video's thumbnail answers
      404, the saved workbook shows the second video's title and URL beside the first
      video's thumbnail. */
  lemma StaleThumbnail(first: VideoDetails, second: VideoDetails)
    requires first.thumbnailUrl != second.thumbnailUrl
    ensures var run := Outcome([Step(Some(first), Status(200), true, false), Step(Some(second), Status(404), true, true)]);
      && run.saved.Some?
      && ShowsVideo(run.saved.value, FirstVideoRow, second)
      && run.saved.value.images == [Image(FirstVideoRow, first.thumbnailUrl)]
  {
    var steps := [Step(Some(first), Status(200), true, false), Step(Some(second), Status(404), true, true)];
    var start := RunState(HeaderSheet(), FirstVideoRow, None);
    AddVideoOutcome(start.sheet, first, FirstVideoRow, Status(200), true, false);
    AddVideoKeepsOtherRows(start.sheet, first, FirstVideoRow, Status(200), true, false);
    AddVideoPlacesThumbnail(start.sheet, first, FirstVideoRow, Status(200), true, false);
    var afterFirst := ProcessStep(start, steps[0]);
    assert afterFirst.row == FirstVideoRow;
    AddVideoOutcome(afterFirst.sheet, second, FirstVideoRow, Status(404), true, true);
    AddVideoKeepsOtherRows(afterFirst.sheet, second, FirstVideoRow, Status(404), true, true);
    AddVideoPlacesThumbnail(afterFirst.sheet, second, FirstVideoRow, Status(404), true, true);
    assert steps[..1] == [steps[0]];
    assert steps[..1][..0] == [];
    assert ProcessPlaylist(start, steps[..1]) == afterFirst;
  }

  // ---------------------------------------------------------------------------
  // The workbook as an object
  // ---------------------------------------------------------------------------

  /** The active worksheet of the workbook main creates. */
  class Sheet {
    var cells: map<Cell, string>
    var images: seq<Image>
    var rowHeights: map<nat, int>
    var columnWidths: map<nat, int>
    var currentRow: nat

    function Value(): Snapshot
      reads this
    {
      Snapshot(cells, images, rowHeights, columnWidths, currentRow)
    }

    /** `Workbook().active`: an empty worksheet. */
    constructor ()
      ensures Value() == EmptySheet
    {
      cells, images, rowHeights, columnWidths, currentRow := map[], [], map[], map[], 0;
    }

    /** `ws[cell] = value`. */
    method Set(cell: Cell, value: string)
      modifies this
      ensures Value() == SetValue(old(Value()), cell, value)
    {
      cells := cells[cell := value];
      if cell.row > currentRow {
        currentRow := cell.row;
      }
    }

    /** `ws.append(values)`: one cell per value, from column A, in the row after the current one. */
    method Append(values: seq<string>)
      modifies this
      ensures Value() == AppendRow(old(Value()), values)
    {
      var row := currentRow + 1;
      for j := 0 to |values|
        invariant cells == WriteRow(old(cells), row, values[..j])
        invariant images == old(images) && rowHeights == old(rowHeights) && columnWidths == old(columnWidths)
        invariant currentRow == old(currentRow)
      {
        assert values[..j + 1][..j] == values[..j];
        cells := cells[Cell(row, j + 1) := values[j]];
      }
      assert values[..|values|] == values;
      currentRow := row;
    }

    /** `ws.add_image(img, f'A{row}')`. */
    method AddImage(image: Image)
      modifies this
      ensures Value() == old(Value()).(images := old(images) + [image])
    {
      images := images + [image];
    }

    /** `ws.row_dimensions[row].height = height`. */
    method SetRowHeight(row: nat, height: int)
      modifies this
      ensures Value() == old(Value()).(rowHeights := old(rowHeights)[row := height])
    {
      rowHeights := rowHeights[row := height];
    }

    /** `ws.column_dimensions[letter].width = width`. */
    method SetColumnWidth(column: nat, width: int)
      modifies this
      ensures Value() == old(Value()).(columnWidths := old(columnWidths)[column := width])
    {
      columnWidths := columnWidths[column := width];
    }
  }

  /** add_video_to_excel on the workbook: returns the content `workbook.save` wrote, or None
      when an exception escaped (a failed request, an unreadable image, a failed save). */
  method AddVideoToExcel(sheet: Sheet, video: VideoDetails, row: nat, response: Response, imageLoads: bool,
                         saveSucceeds: bool)
    returns (saved: Option<Snapshot>)
    modifies sheet
    ensures (sheet.Value(), saved.Some?) == AddVideo(old(sheet.Value()), video, row, response, imageLoads, saveSucceeds)
    ensures saved.Some? ==> saved.value == sheet.Value()
  {
    saved := None;
    if response.RequestRaised? {
      return;
    }
    if response.code == StatusOk {
      if !imageLoads {
        return;
      }
      sheet.AddImage(Image(row, video.thumbnailUrl));
      sheet.SetRowHeight(row, ThumbnailRowHeight);
      sheet.SetColumnWidth(1, ThumbnailColumnWidth);
    }
    sheet.Set(Cell(row, TitleColumn), video.title);
    sheet.Set(Cell(row, UrlColumn), video.url);
    if saveSucceeds {
      saved := Some(sheet.Value());
    }
  }

  /** main, given the playlist title (None when get_playlist_title failed) and what happens
      for each URL of the playlist. Returns the workbook path, the worksheet, the next row
      and what the last successful save wrote. */
  method Run(directory: string, playlistTitle: Option<string>, steps: seq<Step>)
    returns (excelPath: Option<Path>, sheet: Sheet?, row: nat, saved: Option<Snapshot>)
    ensures playlistTitle.None? ==> excelPath.None? && sheet == null && saved.None?
    ensures playlistTitle.Some? ==>
      && excelPath == Some(ExcelPath(directory, playlistTitle.value))
      && sheet != null && fresh(sheet)
      && RunState(sheet.Value(), row, saved) == Outcome(steps)
  {
    excelPath, sheet, row, saved := None, null, 0, None;
    if playlistTitle.None? {
      return;
    }
    var sanitizedTitle := SanitizeFilename(playlistTitle.value);
    excelPath := Some(Path(directory, sanitizedTitle + ".xlsx"));
    sheet := new Sheet();
    sheet.Append(HeaderRow);
    row := FirstVideoRow;
    assert steps[..0] == [];
    for i := 0 to |steps|
      invariant fresh(sheet)
      invariant RunState(sheet.Value(), row, saved) == ProcessPlaylist(RunState(HeaderSheet(), FirstVideoRow, None), steps[..i])
    {
      assert steps[..i + 1][..i] == steps[..i];
      var step := steps[i];
      if step.details.Some? {
        var result := AddVideoToExcel(sheet, step.details.value, row, step.thumbnail, step.imageLoads,
                                      step.saveSucceeds);
        if result.Some? {
          row := row + 1;
          saved := result;
        }
      }
    }
    assert steps[..|steps|] == steps;
  }
}
