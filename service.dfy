/** `YouTubeDownloaderService`: URL validation, the video-information guard,
    and the operations that chain the extractor, the catalog normaliser,
    the menu builder and the quality resolver. The extractor and the
    download itself are inputs: an `Extraction` is what `extract_info`
    returned (or the message it failed with), and `download` maps the
    options handed to yt-dlp to how the download ended. Exceptions become
    `Failure` values carrying the message `str(e)` would give. */
module Service {
  import opened Common
  import opened Catalog
  import opened Menu
  import opened Resolver

  // ---------------------------------------------------------------------
  // URL validation

  /** `validate_url`: non-empty and mentioning one of the two YouTube hosts. */
  predicate ValidUrl(url: string) {
    url != "" && (Contains(url, "youtube.com") || Contains(url, "youtu.be"))
  }

  /** The host test on its own, as the command-line front ends and the GUI
      repeat it. */
  predicate MentionsYouTube(url: string) {
    Contains(url, "youtube.com") || Contains(url, "youtu.be")
  }

  /** A URL is valid exactly when one of the host names occurs in it at
      some position; the emptiness test adds nothing. */
  lemma ValidUrlIff(url: string)
    ensures ValidUrl(url) <==>
      (exists i :: OccursAt(url, "youtube.com", i)) || (exists i :: OccursAt(url, "youtu.be", i))
    ensures ValidUrl(url) <==> MentionsYouTube(url)
  {
    if url == "" {
      NotInEmpty("youtube.com");
      NotInEmpty("youtu.be");
    }
  }

  // ---------------------------------------------------------------------
  // Command-line entry points

  /** What a command-line `main` does once its arguments are parsed: exit
      with a status, or build a downloader on the output directory and run
      the command. */
  datatype Start<C> = ExitWith(code: int) | Run(outputDir: string, command: C)

  /** The `main` of both command-line front ends: a URL mentioning neither
      YouTube host exits with status 1 before any downloader is built. */
  function EntryCheck<C>(url: string, outputDir: string, command: C): (r: Start<C>)
    ensures r.Run? ==> r == Run(outputDir, command)
    ensures r.ExitWith? ==> r.code == 1
  {
    if !MentionsYouTube(url) then ExitWith(1) else Run(outputDir, command)
  }

  /** The entry check accepts exactly the URLs the service accepts. */
  lemma EntryCheckAgreesWithService<C>(url: string, outputDir: string, command: C)
    ensures EntryCheck(url, outputDir, command).Run? <==> ValidUrl(url)
    ensures !ValidUrl(url) ==> EntryCheck(url, outputDir, command) == ExitWith(1)
  {
    ValidUrlIff(url);
  }

  // ---------------------------------------------------------------------
  // Video information

  /** The extractor's information dictionary; `None` is a missing key. */
  datatype RawInfo = RawInfo(
    title: Option<string>,
    uploader: Option<string>,
    duration: Option<int>,
    viewCount: Option<int>,
    uploadDate: Option<string>,
    description: Option<string>,
    thumbnail: Option<string>,
    webpageUrl: Option<string>,
    id: Option<string>,
    formats: Option<seq<RawFormat>>)

  /** What the extractor did: returned information, or raised. */
  datatype Extraction = Extracted(info: RawInfo) | ExtractFailed(message: string)

  /** The dictionary `get_video_info` returns, every key defaulted. */
  datatype VideoInfo = VideoInfo(
    title: string,
    uploader: string,
    duration: int,
    viewCount: int,
    uploadDate: string,
    description: string,
    thumbnail: string,
    webpageUrl: string,
    id: string,
    formats: seq<RawFormat>)

  const InvalidUrlMessage := "Invalid YouTube URL"

  function IntGetOr(x: Option<int>, default: int): int {
    if x.Some? then x.value else default
  }

  /** `get_video_info(url)`. */
  function VideoInfoOf(url: string, extraction: Extraction): (r: Result<VideoInfo, string>)
    ensures !ValidUrl(url) ==> r == Failure(InvalidUrlMessage)
    ensures r.Success? <==> ValidUrl(url) && extraction.Extracted?
    ensures r.Success? ==> r.value.webpageUrl == GetOr(extraction.info.webpageUrl, url)
  {
    if !ValidUrl(url) then Failure(InvalidUrlMessage)
    else match extraction
      case ExtractFailed(m) => Failure("Error getting video info: " + m)
      case Extracted(i) =>
        Success(VideoInfo(
          GetOr(i.title, "N/A"), GetOr(i.uploader, "N/A"), IntGetOr(i.duration, 0),
          IntGetOr(i.viewCount, 0), GetOr(i.uploadDate, "N/A"), GetOr(i.description, "N/A"),
          GetOr(i.thumbnail, ""), GetOr(i.webpageUrl, url), GetOr(i.id, ""),
          if i.formats.Some? then i.formats.value else []))
  }

  /** `get_available_formats(url)`: the catalog of the extracted descriptors. */
  function AvailableFormats(url: string, extraction: Extraction): Result<seq<Format>, string> {
    match VideoInfoOf(url, extraction)
    case Failure(m) => Failure("Error getting available formats: " + m)
    case Success(info) => Success(Catalog.Catalog(info.formats))
  }

  /** `get_format_selection_options(url)`: the menu over that catalog. */
  function SelectionOptions(url: string, extraction: Extraction): Result<seq<SelectionOption>, string> {
    match AvailableFormats(url, extraction)
    case Failure(m) => Failure("Error getting format selection options: " + m)
    case Success(formats) => Success(MenuOptions(formats))
  }

  // ---------------------------------------------------------------------
  // Downloading and previewing

  /** How the library's download call ended. */
  datatype DownloadOutcome =
    | Downloaded
    | DownloadFailed(message: string)   // yt-dlp's `DownloadError`
    | Crashed(message: string)          // any other exception

  /** The dictionary a successful `download_video` returns. */
  datatype DownloadReport = DownloadReport(
    title: string,
    uploader: string,
    duration: int,
    outputDir: string,
    quality: string,
    audioOnly: bool,
    message: string)

  /** `download_video` for a service whose output directory is `outputDir`. */
  function DownloadResult(outputDir: string, url: string, quality: string, audioOnly: bool,
                          outputFormat: Option<string>, extraction: Extraction,
                          download: YdlOptions -> DownloadOutcome): Result<DownloadReport, string>
  {
    if !ValidUrl(url) then Failure(InvalidUrlMessage)
    else
      var opts := DownloadOptions(outputDir, quality, audioOnly, outputFormat);
      match VideoInfoOf(url, extraction)
      case Failure(m) => Failure("Unexpected Error: " + m)
      case Success(info) =>
        match download(opts)
        case Downloaded =>
          Success(DownloadReport(info.title, info.uploader, info.duration, outputDir, quality,
                                 audioOnly, "Download completed successfully!"))
        case DownloadFailed(m) => Failure("Download Error: " + m)
        case Crashed(m) => Failure("Unexpected Error: " + m)
  }

  /** The dictionary `preview_download` returns. */
  datatype Preview = Preview(
    title: string,
    uploader: string,
    duration: int,
    outputDir: string,
    qualitySetting: string,
    audioOnly: bool,
    formatString: string,
    estimatedFilename: string)

  /** `preview_download` for a service whose output directory is `outputDir`. */
  function PreviewOf(outputDir: string, url: string, quality: string, audioOnly: bool,
                     extraction: Extraction): Result<Preview, string>
  {
    match VideoInfoOf(url, extraction)
    case Failure(m) => Failure("Error previewing download: " + m)
    case Success(info) =>
      var opts := DownloadOptions(outputDir, quality, audioOnly, None);
      Success(Preview(info.title, info.uploader, info.duration, outputDir, quality, audioOnly,
                      opts.format, info.title + "." + (if audioOnly then "mp3" else "mp4")))
  }

  // ---------------------------------------------------------------------
  // The service object

  class DownloaderService {
    /** The directory downloads go to. */
    var outputDir: string

    constructor(outputDir: string)
      ensures this.outputDir == outputDir
    {
      this.outputDir := outputDir;
    }

    /** `set_output_directory`: later downloads go to `dir`. */
    method SetOutputDirectory(dir: string)
      modifies this
      ensures outputDir == dir
    {
      outputDir := dir;
    }

    /** `get_available_formats`: extract, then run the normaliser. */
    method GetAvailableFormats(url: string, extraction: Extraction) returns (r: Result<seq<Format>, string>)
      ensures r == AvailableFormats(url, extraction)
      ensures r.Success? <==> ValidUrl(url) && extraction.Extracted?
      ensures !ValidUrl(url) ==> r == Failure("Error getting available formats: " + InvalidUrlMessage)
    {
      var info := VideoInfoOf(url, extraction);
      if info.Failure? {
        return Failure("Error getting available formats: " + info.error);
      }
      var formats := ProcessFormats(info.value.formats);
      return Success(formats);
    }

    /** `get_format_selection_options`: the catalog, then the menu loop. */
    method GetFormatSelectionOptions(url: string, extraction: Extraction)
      returns (r: Result<seq<SelectionOption>, string>)
      ensures r == SelectionOptions(url, extraction)
      ensures r.Success? <==> ValidUrl(url) && extraction.Extracted?
    {
      var formats := GetAvailableFormats(url, extraction);
      if formats.Failure? {
        return Failure("Error getting format selection options: " + formats.error);
      }
      var options := BuildOptions(formats.value);
      return Success(options);
    }

    /** `download_video`: validates the URL before anything else, resolves
        the options for this service's directory, extracts the information
        and downloads. */
    method DownloadVideo(url: string, quality: string, audioOnly: bool, outputFormat: Option<string>,
                         extraction: Extraction, download: YdlOptions -> DownloadOutcome)
      returns (r: Result<DownloadReport, string>)
      ensures r == DownloadResult(outputDir, url, quality, audioOnly, outputFormat, extraction, download)
      ensures !ValidUrl(url) ==> r == Failure(InvalidUrlMessage)
      ensures r.Success? ==> r.value.outputDir == outputDir && r.value.quality == quality
    {
      if !ValidUrl(url) {
        return Failure(InvalidUrlMessage);
      }
      var opts := DownloadOptions(outputDir, quality, audioOnly, outputFormat);
      var info := VideoInfoOf(url, extraction);
      if info.Failure? {
        return Failure("Unexpected Error: " + info.error);
      }
      var outcome := download(opts);
      match outcome
      case Downloaded =>
        r := Success(DownloadReport(info.value.title, info.value.uploader, info.value.duration,
                                    outputDir, quality, audioOnly, "Download completed successfully!"));
      case DownloadFailed(m) =>
        r := Failure("Download Error: " + m);
      case Crashed(m) =>
        r := Failure("Unexpected Error: " + m);
    }

    /** `preview_download`. */
    method PreviewDownload(url: string, quality: string, audioOnly: bool, extraction: Extraction)
      returns (r: Result<Preview, string>)
      ensures r == PreviewOf(outputDir, url, quality, audioOnly, extraction)
      ensures !ValidUrl(url) ==> r == Failure("Error previewing download: " + InvalidUrlMessage)
    {
      var info := VideoInfoOf(url, extraction);
      if info.Failure? {
        return Failure("Error previewing download: " + info.error);
      }
      var opts := DownloadOptions(outputDir, quality, audioOnly, None);
      var ext := if audioOnly then "mp3" else "mp4";
      return Success(Preview(info.value.title, info.value.uploader, info.value.duration, outputDir,
                             quality, audioOnly, opts.format, info.value.title + "." + ext));
    }
  }

  // ---------------------------------------------------------------------
  // Properties

  /** An invalid URL is turned away before the extractor or the download
      is consulted: every operation fails the same way whatever they would
      have done. */
  lemma InvalidUrlShortCircuits(outputDir: string, url: string, quality: string, audioOnly: bool,
                                outputFormat: Option<string>, e1: Extraction, e2: Extraction,
                                d1: YdlOptions -> DownloadOutcome, d2: YdlOptions -> DownloadOutcome)
    requires !ValidUrl(url)
    ensures VideoInfoOf(url, e1) == VideoInfoOf(url, e2) == Failure(InvalidUrlMessage)
    ensures AvailableFormats(url, e1) == AvailableFormats(url, e2)
    ensures SelectionOptions(url, e1) == SelectionOptions(url, e2)
    ensures DownloadResult(outputDir, url, quality, audioOnly, outputFormat, e1, d1)
         == DownloadResult(outputDir, url, quality, audioOnly, outputFormat, e2, d2)
         == Failure(InvalidUrlMessage)
    ensures PreviewOf(outputDir, url, quality, audioOnly, e1) == PreviewOf(outputDir, url, quality, audioOnly, e2)
  {
  }

  /** The download is handed exactly the resolved options: two download
      functions that agree on those options give the same result. */
  lemma DownloadUsesResolvedOptions(outputDir: string, url: string, quality: string, audioOnly: bool,
                                    outputFormat: Option<string>, extraction: Extraction,
                                    d1: YdlOptions -> DownloadOutcome, d2: YdlOptions -> DownloadOutcome)
    requires d1(DownloadOptions(outputDir, quality, audioOnly, outputFormat))
          == d2(DownloadOptions(outputDir, quality, audioOnly, outputFormat))
    ensures DownloadResult(outputDir, url, quality, audioOnly, outputFormat, extraction, d1)
         == DownloadResult(outputDir, url, quality, audioOnly, outputFormat, extraction, d2)
  {
  }

  /** A download succeeds exactly when the URL is valid, the extractor
      returns and the library reports no error; the report echoes the
      request and the video's title. */
  lemma DownloadSucceeds(outputDir: string, url: string, quality: string, audioOnly: bool,
                         outputFormat: Option<string>, extraction: Extraction,
                         download: YdlOptions -> DownloadOutcome)
    ensures var r := DownloadResult(outputDir, url, quality, audioOnly, outputFormat, extraction, download);
      && (r.Success? <==> ValidUrl(url) && extraction.Extracted?
                          && download(DownloadOptions(outputDir, quality, audioOnly, outputFormat)).Downloaded?)
      && (r.Success? ==> r.value.title == GetOr(extraction.info.title, "N/A")
                         && r.value.quality == quality && r.value.audioOnly == audioOnly)
  {
  }

  /** The preview shows the format string the download would use, whatever
      output format the download is later given. */
  lemma PreviewMatchesDownload(outputDir: string, url: string, quality: string, audioOnly: bool,
                               extraction: Extraction, outputFormat: Option<string>)
    requires PreviewOf(outputDir, url, quality, audioOnly, extraction).Success?
    ensures PreviewOf(outputDir, url, quality, audioOnly, extraction).value.formatString
         == DownloadOptions(outputDir, quality, audioOnly, outputFormat).format
  {
  }

  /** The estimated file name always assumes mp3 or mp4: an audio download
      converted to another codec is still previewed as `.mp3`. */
  lemma PreviewAssumesDefaultExtension(outputDir: string, url: string, quality: string,
                                       extraction: Extraction)
    requires ValidUrl(url) && extraction.Extracted?
    ensures var p := PreviewOf(outputDir, url, quality, true, extraction);
      && p.Success?
      && p.value.estimatedFilename == GetOr(extraction.info.title, "N/A") + ".mp3"
      && DownloadOptions(outputDir, quality, true, Some("m4a")).postprocessors
         == Some([ExtractAudio("m4a", "192")])
  {
  }

  /** Moving the output directory changes only the output template of the
      options. */
  lemma OutputDirectoryOnlyMovesTemplate(d1: string, d2: string, quality: string, audioOnly: bool,
                                         outputFormat: Option<string>)
    ensures DownloadOptions(d2, quality, audioOnly, outputFormat)
         == DownloadOptions(d1, quality, audioOnly, outputFormat).(outtmpl := OutputTemplate(d2))
  {
  }
}
