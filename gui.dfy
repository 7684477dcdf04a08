/** The Tkinter front end `YouTubeDownloaderGUI`, reduced to the state its
    event handlers keep: the loaded catalog, the rows shown for it, the
    selected record, whether the download button is enabled, and the
    status line. Widgets, dialogs and the worker threads are not modelled;
    the download a worker performs is `RunDownload`. */
module Gui {
  import opened Common
  import opened Catalog
  import opened Menu
  import opened Resolver
  import opened Service

  /** One row of the format table: Type, Quality, Extension, Codec, Size. */
  datatype Row = Row(kind: string, quality: string, ext: string, codec: string, size: string)

  /** The row `display_formats` inserts for a record. */
  function RowOf(f: Format): Row {
    Row(KindLabel(f.kind), f.quality, f.ext,
        if f.codec != "" then Take(f.codec, 15) else "",
        if f.sizeMb > 0 then IntToString(f.sizeMb) else "")
  }

  /** The codec cell is the codec cut to 15 characters; the size cell is
      empty for a size of 0 MB or less and otherwise reads back as the
      size. */
  lemma RowCells(f: Format)
    ensures var r := RowOf(f);
      && r.kind == KindLabel(f.kind) && r.quality == f.quality && r.ext == f.ext
      && r.codec <= f.codec && |r.codec| == (if |f.codec| < 15 then |f.codec| else 15)
      && (r.size == "" <==> f.sizeMb <= 0)
      && (f.sizeMb > 0 ==> |r.size| >= 1 && ParseInt(r.size) == f.sizeMb)
  {
    ParseIntOfIntToString(f.sizeMb);
  }

  // ---------------------------------------------------------------------
  // URL guards

  /** What a button press does with the URL field. */
  datatype UrlCheck =
    | MissingUrl      // warning: no URL entered
    | NotYouTube      // error: not a YouTube URL
    | Proceed(url: string)

  /** `get_video_info`: the trimmed URL must be non-empty and mention a
      YouTube host before any request is made. */
  function InfoRequest(urlText: string): UrlCheck {
    var url := Strip(urlText);
    if url == "" then MissingUrl
    else if !MentionsYouTube(url) then NotYouTube
    else Proceed(url)
  }

  /** `load_formats`: only an empty URL is refused; the host is left to the
      service. */
  function FormatsRequest(urlText: string): UrlCheck {
    var url := Strip(urlText);
    if url == "" then MissingUrl else Proceed(url)
  }

  /** Video information is requested exactly for URLs the service accepts,
      after trimming. */
  lemma InfoRequestIff(urlText: string)
    ensures InfoRequest(urlText).Proceed? <==> ValidUrl(Strip(urlText))
    ensures InfoRequest(urlText).Proceed? ==> InfoRequest(urlText).url == Strip(urlText)
  {
    ValidUrlIff(Strip(urlText));
  }

  /** Loading formats for a non-YouTube URL reaches the service, which
      refuses it before calling the extractor. */
  lemma FormatsRequestDefersToService(urlText: string, extraction: Extraction)
    requires FormatsRequest(urlText).Proceed? && !ValidUrl(Strip(urlText))
    ensures AvailableFormats(FormatsRequest(urlText).url, extraction)
         == Failure("Error getting available formats: " + InvalidUrlMessage)
  {
  }

  // ---------------------------------------------------------------------
  // From a selected record to download parameters

  datatype Params = Params(quality: string, audioOnly: bool, outputFormat: Option<string>)

  /** The mapping in `start_download`: an Audio Only record downloads its
      best audio in its own extension; any other record downloads video at
      its height, or at the best quality when it has none. */
  function ParamsOf(f: Format): Params {
    if KindLabel(f.kind) == "Audio Only" then Params("best", true, Some(f.ext))
    else Params(if IntTruthy(f.height) then IntToString(f.height.value) else "best", false, None)
  }

  /** The GUI asks for the same download as the menu option built from the
      same record. */
  lemma ParamsAgreeWithMenu(f: Format, num: int)
    ensures f.kind == AudioOnly ==>
      var o := AudioEntry(num, f);
      ParamsOf(f) == Params(o.quality, o.audioOnly, o.outputFormat)
    ensures IsVideo(f.kind) && IntTruthy(f.height) ==>
      var o := VideoEntry(num, f);
      ParamsOf(f) == Params(o.quality, o.audioOnly, o.outputFormat)
  {
  }

  /** The options that result: audio is extracted to the record's
      extension (mp3 if it has none); video is capped at the record's
      height with no conversion, or is `best` without a height. */
  lemma ParamsOptions(outputDir: string, f: Format)
    ensures var p := ParamsOf(f);
      var o := DownloadOptions(outputDir, p.quality, p.audioOnly, p.outputFormat);
      && (f.kind == AudioOnly ==>
            o.format == "bestaudio/best"
            && o.postprocessors == Some([ExtractAudio(if f.ext != "" then f.ext else "mp3", "192")]))
      && (IsVideo(f.kind) && IntTruthy(f.height) ==>
            o.format == Capped(IntToString(f.height.value)) && o.postprocessors.None?)
      && (IsVideo(f.kind) && !IntTruthy(f.height) ==> o.format == BestSelector && o.postprocessors.None?)
  {
    if IsVideo(f.kind) && IntTruthy(f.height) {
      HeightTokenCaps(f.height.value);
    }
  }

  /** What the information pane shows: nothing yet, the text "Loading video
      information...", the information, or an error message. The layout of
      the video information text is not modelled, only which information
      it shows. */
  datatype InfoPane = Blank | LoadingInfo | ShowingInfo(info: VideoInfo) | ShowingError(message: string)

  /** A download the handler has cleared to start. */
  datatype DownloadRequest = DownloadRequest(url: string, outputDir: string, params: Params)

  /** What pressing Download does: warn, or start a download. */
  datatype StartOutcome = Warned(message: string) | Started(request: DownloadRequest)

  /** The guards of `start_download`, in order: a selection, then a URL,
      then an output directory, each after trimming. */
  function StartCheck(selected: Option<Format>, urlText: string, outputDirText: string): StartOutcome {
    if selected.None? then Warned("Please select a format first")
    else
      var url := Strip(urlText);
      var outputDir := Strip(outputDirText);
      if url == "" then Warned("Please enter a YouTube URL")
      else if outputDir == "" then Warned("Please specify an output directory")
      else Started(DownloadRequest(url, outputDir, ParamsOf(selected.value)))
  }

  /** A download starts exactly when a record is selected and both fields
      hold more than white space; it then uses the trimmed fields and the
      parameters of the selected record. */
  lemma StartCheckIff(selected: Option<Format>, urlText: string, outputDirText: string)
    ensures StartCheck(selected, urlText, outputDirText).Started? <==>
      selected.Some? && Strip(urlText) != "" && Strip(outputDirText) != ""
    ensures StartCheck(selected, urlText, outputDirText).Started? ==>
      StartCheck(selected, urlText, outputDirText).request
        == DownloadRequest(Strip(urlText), Strip(outputDirText), ParamsOf(selected.value))
    ensures selected.None? ==> StartCheck(selected, urlText, outputDirText) == Warned("Please select a format first")
    ensures selected.Some? && Strip(urlText) == "" ==>
      StartCheck(selected, urlText, outputDirText) == Warned("Please enter a YouTube URL")
    ensures selected.Some? && Strip(urlText) != "" && Strip(outputDirText) == "" ==>
      StartCheck(selected, urlText, outputDirText) == Warned("Please specify an output directory")
  {
  }

  // ---------------------------------------------------------------------
  // Completions scheduled by the workers

  /* Each worker thread hands its result to the Tk loop with
     `root.after(0, lambda: ...)`. On failure that lambda reads the name `e`
     bound by `except Exception as e`, and Python unbinds that name when the
     clause ends. The callback runs on the Tk loop after the worker has left
     the clause, so it raises NameError before it reaches `show_error` or
     `download_error`. The functions below give the outcome as written and
     the outcome the handlers were evidently meant to have. */

  /** The pane once `get_video_info`'s worker is done, as written: the
      information, or still the loading text. */
  function InfoPaneAfter(r: Result<VideoInfo, string>): InfoPane {
    if r.Success? then ShowingInfo(r.value) else LoadingInfo
  }

  /** The pane `get_video_info` was meant to leave: the error is shown. */
  function InfoPaneIntended(r: Result<VideoInfo, string>): InfoPane {
    if r.Success? then ShowingInfo(r.value) else ShowingError("Error getting video info: " + r.error)
  }

  /** As written, no failure ever reaches the pane; as intended, every
      failure of the extractor is shown there, wrapped twice. */
  lemma InfoErrorLost(url: string, message: string)
    ensures forall r :: !InfoPaneAfter(r).ShowingError?
    ensures ValidUrl(url) ==>
      var r := VideoInfoOf(url, ExtractFailed(message));
      && InfoPaneAfter(r) == LoadingInfo
      && InfoPaneIntended(r) == ShowingError("Error getting video info: " + ("Error getting video info: " + message))
  {
  }

  /** The pane once `load_formats`' worker is done, as written: a failure
      leaves it as it was. */
  function FormatsPaneAfter(before: InfoPane, r: Result<seq<Format>, string>): InfoPane {
    before
  }

  /** The pane `load_formats` was meant to leave: a failure is shown. */
  function FormatsPaneIntended(before: InfoPane, r: Result<seq<Format>, string>): InfoPane {
    if r.Success? then before else ShowingError("Error loading formats: " + r.error)
  }

  /** A failed load is invisible in the pane as written, and shown as
      intended; an extractor failure always fails the load. */
  lemma FormatsErrorLost(before: InfoPane, url: string, message: string)
    ensures var r := AvailableFormats(url, ExtractFailed(message));
      && r.Failure?
      && FormatsPaneAfter(before, r) == before
      && FormatsPaneIntended(before, r) == ShowingError("Error loading formats: " + r.error)
  {
  }

  /** The download button's state and the status once a download has
      ended. */
  datatype DownloadEnd = DownloadEnd(enabled: bool, status: string)

  /** As written: a failed download leaves the button disabled and the
      status at "Downloading...". */
  function DownloadEndAfter(result: Result<DownloadReport, string>): DownloadEnd {
    if result.Success? then DownloadEnd(true, "Download completed successfully!")
    else DownloadEnd(false, "Downloading...")
  }

  /** As intended: `download_error` enables the button and says so. */
  function DownloadEndIntended(result: Result<DownloadReport, string>): DownloadEnd {
    if result.Success? then DownloadEnd(true, "Download completed successfully!")
    else DownloadEnd(true, "Download failed")
  }

  /** As written the button comes back exactly after a success; a failure
      of the extractor, of the download or of the URL leaves it disabled,
      where the intended handler would have enabled it. */
  lemma DownloadErrorLost(outputDir: string, url: string, params: Params, extraction: Extraction,
                          download: YdlOptions -> DownloadOutcome)
    ensures var result := DownloadResult(outputDir, url, params.quality, params.audioOnly,
                                         params.outputFormat, extraction, download);
      && (DownloadEndAfter(result).enabled <==> result.Success?)
      && DownloadEndIntended(result).enabled
      && (result.Failure? ==> DownloadEndAfter(result) != DownloadEndIntended(result))
      && (!ValidUrl(url) ==> DownloadEndAfter(result) == DownloadEnd(false, "Downloading..."))
  {
  }

  // ---------------------------------------------------------------------
  // The window state

  class DownloaderGui {
    /** The catalog last loaded. */
    var formatsData: seq<Format>
    /** The rows of the format table. */
    var rows: seq<Row>
    var selectedFormat: Option<Format>
    var downloadEnabled: bool
    /** The status line under the table. */
    var status: string
    var infoPane: InfoPane
    /** Whether the Refresh button is enabled. */
    var refreshEnabled: bool
    /** The Video / Audio Only radio setting, `video` or `audio`. */
    var downloadMode: string
    const service: DownloaderService

    /** Row `i` of the table shows record `i` of the catalog. */
    predicate Valid()
      reads this
    {
      |rows| == |formatsData| && forall i :: 0 <= i < |rows| ==> rows[i] == RowOf(formatsData[i])
    }

    constructor()
      ensures Valid() && formatsData == [] && rows == []
      ensures selectedFormat == None && !downloadEnabled && status == "Ready to download"
      ensures infoPane == Blank && !refreshEnabled && downloadMode == "video"
      ensures fresh(service) && service.outputDir == "downloads"
    {
      formatsData := [];
      rows := [];
      selectedFormat := None;
      downloadEnabled := false;
      status := "Ready to download";
      infoPane := Blank;
      refreshEnabled := false;
      downloadMode := "video";
      service := new DownloaderService("downloads");
    }

    /** `display_formats`: the table is cleared and refilled with one row per
        record, in order. The selection and the button are left as they
        were. */
    method DisplayFormats(formats: seq<Format>)
      modifies this
      ensures Valid() && formatsData == formats && |rows| == |formats|
      ensures status == "Found " + IntToString(|formats|) + " available formats"
      ensures selectedFormat == old(selectedFormat) && downloadEnabled == old(downloadEnabled)
      ensures infoPane == old(infoPane) && refreshEnabled == old(refreshEnabled)
      ensures downloadMode == old(downloadMode)
    {
      var shown: seq<Row> := [];
      for i := 0 to |formats|
        invariant |shown| == i && forall j :: 0 <= j < i ==> shown[j] == RowOf(formats[j])
      {
        shown := shown + [RowOf(formats[i])];
      }
      formatsData := formats;
      rows := shown;
      status := "Found " + IntToString(|formats|) + " available formats";
    }

    /** `get_video_info` and its completion: after the URL checks the pane
        shows the loading text and the service is asked for the
        information, which the pane then shows (enabling Refresh). A
        failure's callback is lost, so the loading text stays. */
    method GetVideoInfo(urlText: string, extraction: Extraction) returns (check: UrlCheck)
      modifies this
      ensures check == InfoRequest(urlText)
      ensures check.Proceed? ==> var r := VideoInfoOf(check.url, extraction);
        && infoPane == InfoPaneAfter(r)
        && refreshEnabled == (r.Success? || old(refreshEnabled))
      ensures !check.Proceed? ==> infoPane == old(infoPane) && refreshEnabled == old(refreshEnabled)
      ensures status == old(status) && selectedFormat == old(selectedFormat)
      ensures downloadEnabled == old(downloadEnabled)
      ensures formatsData == old(formatsData) && rows == old(rows)
      ensures downloadMode == old(downloadMode)
    {
      check := InfoRequest(urlText);
      if !check.Proceed? {
        return;
      }
      ShowLoadingInfo();
      var r := VideoInfoOf(check.url, extraction);
      if r.Success? {
        DisplayVideoInfo(r.value);
      }
    }

    /** `get_video_info` as it was meant to complete: a failure is shown in
        the pane by `show_error`. */
    method GetVideoInfoReported(urlText: string, extraction: Extraction) returns (check: UrlCheck)
      modifies this
      ensures check == InfoRequest(urlText)
      ensures check.Proceed? ==> var r := VideoInfoOf(check.url, extraction);
        && infoPane == InfoPaneIntended(r)
        && refreshEnabled == (r.Success? || old(refreshEnabled))
      ensures !check.Proceed? ==> infoPane == old(infoPane) && refreshEnabled == old(refreshEnabled)
      ensures status == old(status) && selectedFormat == old(selectedFormat)
      ensures downloadEnabled == old(downloadEnabled)
      ensures formatsData == old(formatsData) && rows == old(rows)
      ensures downloadMode == old(downloadMode)
    {
      check := InfoRequest(urlText);
      if !check.Proceed? {
        return;
      }
      ShowLoadingInfo();
      var r := VideoInfoOf(check.url, extraction);
      if r.Success? {
        DisplayVideoInfo(r.value);
      } else {
        ShowError("Error getting video info: " + r.error);
      }
    }

    /** The pane is cleared to "Loading video information...". */
    method ShowLoadingInfo()
      modifies this
      ensures infoPane == LoadingInfo && refreshEnabled == old(refreshEnabled)
      ensures status == old(status) && selectedFormat == old(selectedFormat)
      ensures downloadEnabled == old(downloadEnabled)
      ensures formatsData == old(formatsData) && rows == old(rows)
      ensures downloadMode == old(downloadMode)
    {
      infoPane := LoadingInfo;
    }

    /** `display_video_info`: the pane shows the information and Refresh
        is enabled. */
    method DisplayVideoInfo(info: VideoInfo)
      modifies this
      ensures infoPane == ShowingInfo(info) && refreshEnabled
      ensures status == old(status) && selectedFormat == old(selectedFormat)
      ensures downloadEnabled == old(downloadEnabled)
      ensures formatsData == old(formatsData) && rows == old(rows)
      ensures downloadMode == old(downloadMode)
    {
      infoPane := ShowingInfo(info);
      refreshEnabled := true;
    }

    /** `show_error`: the pane shows the message. */
    method ShowError(message: string)
      modifies this
      ensures infoPane == ShowingError(message) && refreshEnabled == old(refreshEnabled)
      ensures status == old(status) && selectedFormat == old(selectedFormat)
      ensures downloadEnabled == old(downloadEnabled)
      ensures formatsData == old(formatsData) && rows == old(rows)
      ensures downloadMode == old(downloadMode)
    {
      infoPane := ShowingError(message);
    }

    /** `load_formats` and its completion: the status announces the load
        and the catalog is then displayed. A failure's callback is lost, so
        the pane is untouched and the status keeps announcing the load. */
    method LoadFormats(urlText: string, extraction: Extraction) returns (check: UrlCheck)
      modifies this
      ensures check == FormatsRequest(urlText)
      ensures check.Proceed? ==> var r := AvailableFormats(check.url, extraction);
        && infoPane == FormatsPaneAfter(old(infoPane), r)
        && (r.Success? ==>
              Valid() && formatsData == r.value
              && status == "Found " + IntToString(|r.value|) + " available formats")
        && (r.Failure? ==>
              status == "Loading available formats..."
              && formatsData == old(formatsData) && rows == old(rows))
      ensures !check.Proceed? ==>
        status == old(status) && infoPane == old(infoPane) && formatsData == old(formatsData) && rows == old(rows)
      ensures selectedFormat == old(selectedFormat) && downloadEnabled == old(downloadEnabled)
      ensures refreshEnabled == old(refreshEnabled)
      ensures downloadMode == old(downloadMode)
    {
      check := FormatsRequest(urlText);
      if !check.Proceed? {
        return;
      }
      AnnounceLoading();
      var r := service.GetAvailableFormats(check.url, extraction);
      if r.Success? {
        DisplayFormats(r.value);
      }
    }

    /** `load_formats` as it was meant to complete: a failure is shown in
        the pane by `show_error`. */
    method LoadFormatsReported(urlText: string, extraction: Extraction) returns (check: UrlCheck)
      modifies this
      ensures check == FormatsRequest(urlText)
      ensures check.Proceed? ==> var r := AvailableFormats(check.url, extraction);
        && infoPane == FormatsPaneIntended(old(infoPane), r)
        && (r.Success? ==>
              Valid() && formatsData == r.value
              && status == "Found " + IntToString(|r.value|) + " available formats")
        && (r.Failure? ==>
              status == "Loading available formats..."
              && formatsData == old(formatsData) && rows == old(rows))
      ensures !check.Proceed? ==>
        status == old(status) && infoPane == old(infoPane) && formatsData == old(formatsData) && rows == old(rows)
      ensures selectedFormat == old(selectedFormat) && downloadEnabled == old(downloadEnabled)
      ensures refreshEnabled == old(refreshEnabled)
      ensures downloadMode == old(downloadMode)
    {
      check := FormatsRequest(urlText);
      if !check.Proceed? {
        return;
      }
      AnnounceLoading();
      var r := service.GetAvailableFormats(check.url, extraction);
      if r.Success? {
        DisplayFormats(r.value);
      } else {
        ShowError("Error loading formats: " + r.error);
      }
    }

    /** The status announces that formats are loading. */
    method AnnounceLoading()
      modifies this
      ensures status == "Loading available formats..."
      ensures selectedFormat == old(selectedFormat) && downloadEnabled == old(downloadEnabled)
      ensures formatsData == old(formatsData) && rows == old(rows)
      ensures infoPane == old(infoPane) && refreshEnabled == old(refreshEnabled)
      ensures downloadMode == old(downloadMode)
    {
      status := "Loading available formats...";
    }

    /** `on_format_select`: the first selected row's record becomes the
        selection and the download button is enabled; an empty selection
        changes nothing. */
    method OnFormatSelect(selection: seq<nat>)
      requires Valid()
      requires forall k :: 0 <= k < |selection| ==> selection[k] < |rows|
      modifies this
      ensures Valid() && formatsData == old(formatsData) && rows == old(rows)
      ensures selection != [] ==>
        && selectedFormat == Some(formatsData[selection[0]])
        && downloadEnabled
        && status == "Selected: " + KindLabel(formatsData[selection[0]].kind) + " - "
                     + formatsData[selection[0]].quality
      ensures selection == [] ==>
        selectedFormat == old(selectedFormat) && downloadEnabled == old(downloadEnabled) && status == old(status)
      ensures infoPane == old(infoPane) && refreshEnabled == old(refreshEnabled)
      ensures downloadMode == old(downloadMode)
    {
      if selection != [] {
        var index := selection[0];
        selectedFormat := Some(formatsData[index]);
        downloadEnabled := true;
        status := "Selected: " + KindLabel(formatsData[index].kind) + " - " + formatsData[index].quality;
      }
    }

    /** `on_mode_change`, run after the radio buttons set the mode: the
        selection is dropped and the button disabled. */
    method OnModeChange(mode: string)
      modifies this
      ensures downloadMode == mode
      ensures selectedFormat == None && !downloadEnabled
      ensures status == "Mode changed - please select a format"
      ensures formatsData == old(formatsData) && rows == old(rows)
      ensures infoPane == old(infoPane) && refreshEnabled == old(refreshEnabled)
    {
      downloadMode := mode;
      selectedFormat := None;
      downloadEnabled := false;
      status := "Mode changed - please select a format";
    }

    /** `start_download`: the guards decide (see `StartCheck`); a warning
        changes nothing, a start disables the button and announces the
        download. */
    method StartDownload(urlText: string, outputDirText: string) returns (outcome: StartOutcome)
      modifies this
      ensures outcome == StartCheck(selectedFormat, urlText, outputDirText)
      ensures outcome.Warned? ==> downloadEnabled == old(downloadEnabled) && status == old(status)
      ensures outcome.Started? ==> !downloadEnabled && status == "Downloading..."
      ensures selectedFormat == old(selectedFormat)
      ensures formatsData == old(formatsData) && rows == old(rows)
      ensures infoPane == old(infoPane) && refreshEnabled == old(refreshEnabled)
      ensures downloadMode == old(downloadMode)
    {
      outcome := StartCheck(selectedFormat, urlText, outputDirText);
      if outcome.Started? {
        BeginDownload();
      }
    }

    /** The button is disabled and the status announces the download. */
    method BeginDownload()
      modifies this
      ensures !downloadEnabled && status == "Downloading..."
      ensures selectedFormat == old(selectedFormat)
      ensures formatsData == old(formatsData) && rows == old(rows)
      ensures infoPane == old(infoPane) && refreshEnabled == old(refreshEnabled)
      ensures downloadMode == old(downloadMode)
    {
      downloadEnabled := false;
      status := "Downloading...";
    }

    /** The worker of `start_download` and its completion: the service's
        directory is set and the download runs. A success enables the
        button again with a status saying so; a failure's callback is
        lost, so the button stays disabled and the status at
        "Downloading...". */
    method RunDownload(request: DownloadRequest, extraction: Extraction, download: YdlOptions -> DownloadOutcome)
      returns (result: Result<DownloadReport, string>)
      modifies this, service
      ensures service.outputDir == request.outputDir
      ensures result == DownloadResult(request.outputDir, request.url, request.params.quality,
                                       request.params.audioOnly, request.params.outputFormat,
                                       extraction, download)
      ensures result.Success? ==> DownloadEnd(downloadEnabled, status) == DownloadEndAfter(result)
      ensures result.Failure? ==> downloadEnabled == old(downloadEnabled) && status == old(status)
      ensures selectedFormat == old(selectedFormat)
      ensures formatsData == old(formatsData) && rows == old(rows)
      ensures infoPane == old(infoPane) && refreshEnabled == old(refreshEnabled)
      ensures downloadMode == old(downloadMode)
    {
      service.SetOutputDirectory(request.outputDir);
      var p := request.params;
      result := service.DownloadVideo(request.url, p.quality, p.audioOnly, p.outputFormat, extraction, download);
      if result.Success? {
        DownloadComplete();
      }
    }

    /** The worker of `start_download` as it was meant to complete: the
        button is enabled again with a status saying how the download
        ended. */
    method RunDownloadReported(request: DownloadRequest, extraction: Extraction,
                               download: YdlOptions -> DownloadOutcome)
      returns (result: Result<DownloadReport, string>)
      modifies this, service
      ensures service.outputDir == request.outputDir
      ensures result == DownloadResult(request.outputDir, request.url, request.params.quality,
                                       request.params.audioOnly, request.params.outputFormat,
                                       extraction, download)
      ensures DownloadEnd(downloadEnabled, status) == DownloadEndIntended(result)
      ensures selectedFormat == old(selectedFormat)
      ensures formatsData == old(formatsData) && rows == old(rows)
      ensures infoPane == old(infoPane) && refreshEnabled == old(refreshEnabled)
      ensures downloadMode == old(downloadMode)
    {
      service.SetOutputDirectory(request.outputDir);
      var p := request.params;
      result := service.DownloadVideo(request.url, p.quality, p.audioOnly, p.outputFormat, extraction, download);
      if result.Success? {
        DownloadComplete();
      } else {
        DownloadError();
      }
    }

    /** `download_complete`. */
    method DownloadComplete()
      modifies this
      ensures downloadEnabled && status == "Download completed successfully!"
      ensures selectedFormat == old(selectedFormat)
      ensures formatsData == old(formatsData) && rows == old(rows)
      ensures infoPane == old(infoPane) && refreshEnabled == old(refreshEnabled)
      ensures downloadMode == old(downloadMode)
    {
      downloadEnabled := true;
      status := "Download completed successfully!";
    }

    /** `download_error`. */
    method DownloadError()
      modifies this
      ensures downloadEnabled && status == "Download failed"
      ensures selectedFormat == old(selectedFormat)
      ensures formatsData == old(formatsData) && rows == old(rows)
      ensures infoPane == old(infoPane) && refreshEnabled == old(refreshEnabled)
      ensures downloadMode == old(downloadMode)
    {
      downloadEnabled := true;
      status := "Download failed";
    }
  }
}
