# YTDownloader decision layer in Dafny

YTDownloader wraps yt-dlp behind three front ends: a command-line tool
(`cli.py`), a Tkinter window (`gui.py`) and an older stand-alone script
(`app.py`). The first two share `YouTubeDownloaderService`
(`downloader_service.py`). This project models what these programs decide,
not what they print or download:

- **URL validation.** A URL is accepted when it is non-empty and contains
  `youtube.com` or `youtu.be`.
- **Format catalog.** The extractor's format descriptors become normalised
  records: kind, quality label, codec and size in MiB. Descriptors with
  neither codec are dropped. The rest are sorted stably by kind and then by
  height, highest first.
- **Selection menu.** One numbered option per distinct video height, in
  catalog order. Then one option per distinct audio key among the first
  three audio-only records.
- **Quality resolver.** A quality token, an audio-only flag and an optional
  output format become the yt-dlp options record. The service and the
  legacy script each have their own resolver.
- **Command line.** It covers:
  - which listed format is marked as selected;
  - the interactive prompt loop;
  - the yes/no confirmation;
  - the order choose, preview, confirm, download;
  - the listing limits (15 video and 5 audio lines);
  - the URL check of `main`.
- **Window state.** The table rows, the selected record, the download
  button, the status line and the information pane. It also covers how a
  selected record becomes download parameters.

The extractor and the download are inputs. The extractor is an
`Extraction`: either information or a failure message. The download is a
function from the options record to an outcome. Exceptions become
`Failure` values that carry the message the source builds with `str(e)`.

Modules, one file each: `Common` (Python truthiness, substring test,
integer printing, trimming, lower-casing), `StableSort` (the stable
insertion sort used for Python's `sort`), `FirstSeen` (first-occurrence
de-duplication by a key, as the menu builder's `seen` sets do), `Catalog`,
`Menu`, `Resolver`, `Service`, `Cli`, `LegacyApp`, `Gui`.

Behaviour the proofs make explicit:

- **The audio menu key can collide** (`Menu.AudioKeyCollision`). It joins
  codec, extension and bitrate with `_`. So codec `a_b` with extension `c`
  hides codec `a` with extension `b_c`.
- **The preview assumes the default extension**
  (`Service.PreviewAssumesDefaultExtension`). It names an audio download
  `.mp3` even when the download extracts to another codec.
- **The legacy resolver lacks one fallback**
  (`LegacyApp.LegacyLacksSingleFileFallback`). It has no third
  alternative `best[height<=h]`.
- **The legacy grouping differs on a missing codec**
  (`LegacyApp.MissingVideoCodecDiverges`). It treats a missing codec key
  as present, so a descriptor without `vcodec` is listed as video+audio,
  while the service catalogs it as Audio Only.
- **In the window, the Video / Audio Only setting does not change the
  download parameters.** `Gui.DownloaderGui.StartDownload` derives them
  from the selected record alone.
- **Reloading the formats keeps a stale selection.**
  `Gui.DownloaderGui.DisplayFormats` leaves the selection and the button
  as they were.
- **A failed format load leaves the status line saying the load is in
  progress** (`Gui.DownloaderGui.LoadFormats`).
- **The window never shows a worker's error** (see Findings). Each
  worker's failure callback reads the name bound by `except ... as e`
  after Python has unbound it, so the callback raises NameError. A
  failed information fetch keeps "Loading video information...", a
  failed format load leaves the pane as it was, and a failed download
  leaves the button disabled with "Downloading...".

## Model

| member | source | states |
|---|---|---|
| Common.Contains | downloader_service.py:44 | `sub in s` holds exactly when `sub` occurs at some index of `s` |
| Common.IntOrZero | downloader_service.py:154 | `x or 0`: the value when truthy, otherwise 0 |
| Common.ParseIntOfIntToString | downloader_service.py:194 | `str(n)` reads back as `n`, so the printed height identifies the height |
| Common.IntToStringInjective | downloader_service.py:187-194 | distinct heights print as distinct quality strings |
| Common.Take | downloader_service.py:206 | a slice `[:n]` is the prefix of length `min(n, len)` |
| Common.Lower | cli.py:68 | ASCII lower-casing keeps the length and maps each character |
| Common.Strip | gui.py:219 | the result is a slice of the text that neither starts nor ends with white space, and everything cut from either end is white space (space, tab, line breaks, vertical tab, form feed and the separators 0x1C to 0x1F) |
| Common.StripLeftDrops | gui.py:219 | everything removed from the front is white space |
| Common.StripRightDrops | gui.py:219 | everything removed from the back is white space |
| StableSort.SortPermutes | downloader_service.py:151-157 | the sort returns a permutation of its input |
| StableSort.SortSorted | downloader_service.py:151-157 | the result is ordered by the key |
| StableSort.SortStable | downloader_service.py:151-157 | records with equal keys keep their relative order |
| StableSort.SortIsUnique | app.py:139 | any sorted arrangement that keeps equal-key order is the sort's result |
| StableSort.SortIdempotent | app.py:139 | sorting a sorted list changes nothing |
| FirstSeen.KeysIff | downloader_service.py:184-189 | the seen set holds exactly the keys of the records visited |
| FirstSeen.PicksMembers | downloader_service.py:184-189 | every record kept has a key and comes from the input, and no more records are kept than given |
| FirstSeen.PicksDistinct | downloader_service.py:204-209 | kept records have pairwise distinct keys |
| FirstSeen.PicksKeys | downloader_service.py:204-209 | the kept records cover every key of the input |
| FirstSeen.PicksFirst | downloader_service.py:186-189 | each kept record is the first one with its key |
| FirstSeen.PicksInOrder | downloader_service.py:184-189 | the kept records appear in the order they have in the input: each is at a position of the input, and the positions increase |
| FirstSeen.KeyWitness | downloader_service.py:184-189 | a key in the seen set was produced by some visited record |
| FirstSeen.PickOf | downloader_service.py:204-209 | every keyed input record has a kept record with the same key |
| Catalog.GetOr | downloader_service.py:103-113 | `dict.get(key, default)`: the value when present, else the default |
| Catalog.ProcessFormats | downloader_service.py:99-157 | the normalising loop followed by the sort yields the catalog |
| Catalog.NormalizeKind | downloader_service.py:117-125 | Video+Audio, Video Only or Audio Only by which codecs are not `none`; dropped when both are `none` |
| Catalog.NormalizeLabels | downloader_service.py:102-141 | the copied fields, with format_note and url defaulting to the empty string; quality is `<h>p`, `<h>p <fps>fps`, `<abr>kbps` or `Unknown` by truthiness; the codec is acodec for audio, else vcodec |
| Catalog.SizeMbIsMebibytes | downloader_service.py:143-147 | a truthy size gives the floor of size / 2^20; otherwise 0 |
| Catalog.KeptExactly | downloader_service.py:101-149 | the kept records are exactly the normalisations of input descriptors, no more than the input |
| Catalog.CatalogKinds | downloader_service.py:117-125 | every catalog record has a codec and its kind matches its codecs |
| Catalog.CatalogOrder | downloader_service.py:151-157 | the catalog permutes the kept records; it is ordered by kind, then height descending; equal-rank records keep extractor order |
| Menu.BuildOptions | downloader_service.py:177-223 | the loops produce the video entries and then the audio entries numbered on from the counter |
| Menu.BuildVideoOptions | downloader_service.py:180-200 | one entry per first-seen height among video records, numbered from 1 |
| Menu.BuildAudioOptions | downloader_service.py:202-221 | one entry per first-seen audio key, numbered from the running counter |
| Menu.VideoEntriesAppend | downloader_service.py:190-200 | appending a pick appends the entry with the next number |
| Menu.AudioEntriesAppend | downloader_service.py:210-221 | appending a pick appends the entry with the next number |
| Menu.AudioStep | downloader_service.py:206-221 | one more audio record adds itself to the picks and its key to the seen keys when its key is new, and leaves the picks as they are otherwise |
| Menu.AudioTurn | downloader_service.py:210-221 | the entry built for a new pick with the running counter is the next entry of the audio part |
| Menu.VideoFormatsMembers | downloader_service.py:181-183 | the video list is exactly the catalog's Video+Audio and Video Only records |
| Menu.AudioFormatsMembers | downloader_service.py:203 | the audio list is exactly the catalog's Audio Only records |
| Menu.VideoPicksFacts | downloader_service.py:186-189 | every picked video record has a truthy height and is a video record of the catalog |
| Menu.AudioPicksFacts | downloader_service.py:203-209 | at most three audio picks, each among the first three Audio Only records |
| Menu.EntriesLayout | downloader_service.py:177-223 | entry i is the i-th video pick numbered i+1, followed by the audio picks numbered on |
| Menu.MenuLayout | downloader_service.py:177-223 | the same layout for the menu of a catalog |
| Menu.MenuNumbering | downloader_service.py:178-221 | options are numbered 1..n consecutively; there are at most three more options than video picks |
| Menu.MenuVideoOptions | downloader_service.py:186-199 | a video option has type video, quality `str(height)`, no audio-only flag, no output format, and a video record of the catalog |
| Menu.MenuVideoDistinct | downloader_service.py:184-189 | no two video options share a height or a quality string |
| Menu.MenuVideoComplete | downloader_service.py:186-189 | every video height present in the catalog has an option |
| Menu.MenuVideoFirstSeen | downloader_service.py:186-189 | each video option carries the first video record of its height |
| Menu.MenuAudioOptions | downloader_service.py:206-219 | an audio option has quality `best`, the audio-only flag and the record's extension as output format |
| Menu.MenuAudioDistinct | downloader_service.py:204-209 | no two audio options share an audio key |
| Menu.MenuAudioComplete | downloader_service.py:206-209 | every audio key among the first three audio records has an option |
| Menu.AudioKeyCollision | downloader_service.py:207 | two different records can share an audio key, and then only the first is offered |
| Resolver.OutputTemplate | downloader_service.py:245-246 | the template lies under the output directory |
| Resolver.DownloadOptions | downloader_service.py:245-249 | every options record has the template, `noplaylist` and mp4 merging |
| Resolver.AudioOnlyOptions | downloader_service.py:251-263 | audio-only uses `bestaudio/best` and extracts to the output format (mp3 when absent or empty) at 192; the quality is irrelevant |
| Resolver.VideoSelectorCapped | downloader_service.py:272-300 | every token except best/worst gets the three-alternative template at its cap height (`4k` caps at 2160) |
| Resolver.CappedInjective | downloader_service.py:272-300 | different cap heights give different format strings |
| Resolver.CappedEnd | downloader_service.py:272-300 | capped templates end in `]`, so none equals the best or worst selector |
| Resolver.VideoSelectorInjective | downloader_service.py:266-300 | two tokens select the same format only if equal or both in {4k, 2160} |
| Resolver.VideoOptions | downloader_service.py:302-309 | video downloads get a convertor exactly when a non-empty output format is given |
| Resolver.HeightTokenCaps | downloader_service.py:296-300 | a printed height, as the menu and the window pass it, caps the download at that height |
| Service.ValidUrlIff | downloader_service.py:44 | a URL is valid exactly when a YouTube host occurs in it; the emptiness test is implied |
| Service.VideoInfoOf | downloader_service.py:46-80 | invalid URLs fail with the bare message; success exactly for valid URLs the extractor answers; the page URL defaults to the input URL |
| Service.DownloaderService.constructor | downloader_service.py:19-27 | the service starts with the given output directory |
| Service.DownloaderService.SetOutputDirectory | downloader_service.py:29-32 | the output directory becomes the given one |
| Service.DownloaderService.GetAvailableFormats | downloader_service.py:82-163 | the catalog of the extracted descriptors; success exactly for a valid URL the extractor answers; the wrapped invalid-URL message otherwise |
| Service.DownloaderService.GetFormatSelectionOptions | downloader_service.py:164-226 | the menu of that catalog, with the same success condition |
| Service.DownloaderService.DownloadVideo | downloader_service.py:313-369 | the invalid URL fails unwrapped; the report carries the directory and quality; the result is the download outcome for the resolved options |
| Service.DownloaderService.PreviewDownload | downloader_service.py:371-401 | the preview, or the wrapped error, for a valid or invalid URL |
| Service.InvalidUrlShortCircuits | downloader_service.py:59-60 | for an invalid URL neither the extractor nor the download affects any operation's result |
| Service.DownloadUsesResolvedOptions | downloader_service.py:342-353 | the download sees only the options the resolver builds |
| Service.DownloadSucceeds | downloader_service.py:337-369 | success exactly for a valid URL, answered extraction and completed download; the report's title defaults to N/A |
| Service.PreviewMatchesDownload | downloader_service.py:386-396 | the previewed format string is the one the download uses, whatever output format is given |
| Service.PreviewAssumesDefaultExtension | downloader_service.py:397 | an audio preview names an `.mp3` file even when the download extracts to m4a |
| Service.OutputDirectoryOnlyMovesTemplate | downloader_service.py:29-32 | changing the output directory changes only the output template |
| Cli.WouldSelectBest | cli.py:246-251 | with no quality or `best`, exactly the Video+Audio records of positive height are marked |
| Cli.TargetText | cli.py:257-267 | each mapped height prints as the token's cap height |
| Cli.WouldSelectMapped | cli.py:253-272 | a mapped token marks exactly the video records of that height, the height the resolver caps at |
| Cli.WouldSelectUnmapped | cli.py:267-274 | any other non-empty token marks nothing |
| Cli.FirstWithNum | cli.py:156-158 | the `next(...)` scan: a found option is one of the options, bears the number and no earlier option does; nothing is found exactly when no option bears the number |
| Cli.SelectOption | cli.py:141-174 | the prompt loop returns what the answers select |
| Cli.ChooseFirstAnswer | cli.py:153-163 | the cancel number or Ctrl-C selects nothing; a number in range selects that option |
| Cli.ChooseSkipsIgnored | cli.py:164-169 | non-numbers and out-of-range numbers are ignored |
| Cli.ChooseIsAnOption | cli.py:145-174 | whatever is selected is one of the options |
| Cli.OnlyIgnoredSelectsNothing | cli.py:145-178 | running out of input after only ignored answers selects nothing |
| Cli.ConfirmedIff | cli.py:65-70 | the confirmation accepts exactly y and yes in any letter case |
| Cli.DownloaderCli.constructor | cli.py:18-19 | the command line builds a fresh service for its output directory |
| Cli.DownloaderCli.InteractiveFormatSelection | cli.py:110-178 | the fetched menu, then the prompt; a failure selects nothing |
| Cli.DownloaderCli.DownloadVideo | cli.py:22-108 | choose (when interactive), preview, confirm, download, in that order, with the chosen settings |
| Cli.CancelAndDeclineDownloadNothing | cli.py:35-39 | a cancelled choice or a declined confirmation never reaches the download |
| Cli.ChosenOptionDrivesDownload | cli.py:35-43 | a chosen video option caps at its own height with no conversion; an audio option extracts to its own extension |
| Cli.ListingVideo | cli.py:198-222 | at most 15 video lines, none in audio-only mode, in catalog order, marked exactly when the quality would select them |
| Cli.ListingAudio | cli.py:224-239 | at most 5 audio lines in catalog order; in audio-only mode the first is marked |
| Cli.MarkerShown | cli.py:214-235 | a marked line ends with the selection marker |
| Service.EntryCheck | cli.py:350-368 | when `main` (here and at app.py:232-249) goes on, it builds the downloader on the given directory and runs the parsed command; otherwise it exits with status 1 |
| Service.EntryCheckAgreesWithService | app.py:233-235 | the URL check of either `main` (also cli.py:351-353) accepts exactly the URLs the service accepts, and exits with status 1 otherwise |
| LegacyApp.LegacyDownloadOptions | app.py:34-40 | the legacy options have the template, `noplaylist` and mp4 merging |
| LegacyApp.LegacyAgreesWithService | app.py:42-61 | audio, best and worst resolve exactly as in the service |
| LegacyApp.LegacyLacksSingleFileFallback | app.py:62-76 | other tokens get the merged pair only; the service adds `/best[height<=h]` and nothing else differs |
| LegacyApp.LegacyConvertorIff | app.py:78-84 | a convertor exactly for video with a non-empty output format |
| LegacyApp.GroupFormats | app.py:127-139 | the grouping loop and the height sort |
| LegacyApp.GroupVideoExactly | app.py:130-134 | the video group is exactly the descriptors whose video codec is not `none`, tagged by the audio codec |
| LegacyApp.GroupAudioExactly | app.py:135-136 | the audio group is exactly the descriptors whose video codec is `none` and whose audio codec is not |
| LegacyApp.GroupedVideoOrder | app.py:139 | the sorted video group permutes the group, runs from the highest down and keeps extractor order among equal heights |
| LegacyApp.MissingVideoCodecDiverges | app.py:131-132 | a descriptor without a video codec key is listed as video+audio but cataloged by the service as Audio Only |
| LegacyApp.LegacyListingBounds | app.py:141-156 | exactly min(n, 15) video lines, the i-th showing the i-th format of the height-sorted video group, and exactly min(n, 5) audio lines in extractor order |
| LegacyApp.LegacySizeAgrees | app.py:147 | the size column uses the service's MiB size and is absent for a falsy size |
| Gui.RowCells | gui.py:306-319 | the row copies type, quality and extension; the codec is cut to 15 characters; the size is empty for a size of 0 or less, else reads back as the size |
| Gui.InfoRequestIff | gui.py:217-226 | information is requested exactly for trimmed URLs the service accepts |
| Gui.FormatsRequestDefersToService | gui.py:270-283 | loading formats checks only emptiness; the service then refuses a non-YouTube URL |
| Gui.ParamsAgreeWithMenu | gui.py:386-397 | a selected record asks for the download the menu entry for that record would |
| Gui.ParamsOptions | gui.py:386-421 | audio extracts to the record's extension; video caps at its height, or is `best` without one |
| Gui.DownloaderGui.constructor | gui.py:26-32 | no formats, no selection, download disabled, status "Ready to download", a fresh service |
| Gui.DownloaderGui.DisplayFormats | gui.py:297-321 | row i shows record i; the status counts the formats; the selection and button are untouched |
| Gui.InfoErrorLost | gui.py:238-242 | the pane after `get_video_info` as written never shows an error; for an extractor failure it keeps the loading text, where the intended handler shows the doubly wrapped message |
| Gui.FormatsErrorLost | gui.py:285-289 | an extractor failure fails the load; as written the pane stays as it was, as intended it shows "Error loading formats: " and the message |
| Gui.DownloadErrorLost | gui.py:426-427 | as written the download button comes back exactly after a success; any failure leaves it disabled with "Downloading...", which the intended handler would replace by an enabled button |
| Gui.DownloaderGui.GetVideoInfo | gui.py:217-246 | after the URL checks the pane shows the loading text; the information then replaces it and Refresh is enabled; a failure leaves the loading text, because its callback reads the unbound `e` |
| Gui.DownloaderGui.GetVideoInfoReported | gui.py:232-246 | the intended completion: the pane shows the information or "Error getting video info: " and the error |
| Gui.DownloaderGui.ShowLoadingInfo | gui.py:228-229 | the pane shows "Loading video information..."; nothing else changes |
| Gui.DownloaderGui.DisplayVideoInfo | gui.py:248-268 | the pane shows the information and Refresh is enabled |
| Gui.DownloaderGui.ShowError | gui.py:446-450 | the pane shows the message |
| Gui.DownloaderGui.AnnounceLoading | gui.py:277 | the status says "Loading available formats..."; nothing else changes |
| Gui.DownloaderGui.LoadFormats | gui.py:270-295 | the catalog is displayed; on a failure the pane is untouched (the callback reads the unbound `e`) and the status still announces the load |
| Gui.DownloaderGui.LoadFormatsReported | gui.py:279-292 | the intended completion: on a failure the pane shows "Error loading formats: " and the error |
| Gui.DownloaderGui.OnFormatSelect | gui.py:332-342 | the first selected row's record is selected, the button enabled and the status names it; an empty selection changes nothing |
| Gui.DownloaderGui.OnModeChange | gui.py:344-350 | the mode is recorded, the selection dropped and the button disabled |
| Gui.StartCheckIff | gui.py:358-373 | a download starts exactly when a record is selected and the trimmed URL and directory are non-empty, with the request built from them; otherwise the first failing check's warning, in the order selection, URL, directory |
| Gui.DownloaderGui.StartDownload | gui.py:358-378 | the outcome is the checks' verdict; after a warning the button and status are unchanged; once started the button is disabled and the status says "Downloading..."; the selection and the other widgets are untouched |
| Gui.DownloaderGui.BeginDownload | gui.py:376-378 | the button is disabled and the status says "Downloading..."; nothing else changes |
| Gui.DownloaderGui.RunDownload | gui.py:380-427 | the service's directory is set and the download runs with the request; a success re-enables the button with the success status; a failure changes neither, because its callback reads the unbound `e` |
| Gui.DownloaderGui.RunDownloadReported | gui.py:380-427 | the intended completion: the button is re-enabled and the status says whether the download succeeded or failed |
| Gui.DownloaderGui.DownloadComplete | gui.py:432-437 | button enabled, status "Download completed successfully!" |
| Gui.DownloaderGui.DownloadError | gui.py:439-444 | button enabled, status "Download failed" |

## Findings

| source | as written | input that shows it | evidently intended | confidence | as-written member | corrected member |
|---|---|---|---|---|---|---|
| gui.py:238-242 | the failure callback reads `e` after the `except` clause has unbound it, so `show_error` never runs and the pane keeps "Loading video information..." | a valid URL with an extractor failure (`ExtractFailed(m)`) | the pane shows "Error getting video info: " and the message | not executed; follows from Python's unbinding of `except ... as` names | Gui.InfoErrorLost | Gui.DownloaderGui.GetVideoInfoReported |
| gui.py:285-289 | the same for `load_formats`: the pane is left as it was | any URL with an extractor failure | the pane shows "Error loading formats: " and the message | not executed; follows from Python's unbinding of `except ... as` names | Gui.FormatsErrorLost | Gui.DownloaderGui.LoadFormatsReported |
| gui.py:426-427 | the same for the download worker: `download_error` never runs, so the button stays disabled and the status "Downloading..." | an invalid URL, or a download that fails | the button is enabled and the status says "Download failed" | not executed; follows from Python's unbinding of `except ... as` names | Gui.DownloadErrorLost | Gui.DownloaderGui.RunDownloadReported |

## Left out

- Printing, colours, progress hooks, progress bars, message boxes and
  Tkinter widgets are not modelled. The window keeps only the state its
  handlers read and write.
- yt-dlp itself is not modelled. Extraction is an input and the download
  is a function of the options record. The `progress_hooks` key the
  service adds is not part of the options record.
- Worker threads and `root.after` scheduling are not modelled. Each handler
  and its completion run as one sequential method, with a failure callback
  running after its worker has left the `except` clause. A thread switch
  that ran the callback while the worker was still inside the clause would
  show the error, as the `...Reported` methods do.
- The Get Info and Load Formats buttons, which the workers' `finally`
  callbacks re-enable, are not modelled.
- Gui.DownloaderGui.RunDownload: takes the selected record at the click.
  The source's worker reads the selection when it runs, so a mode change
  in between makes the source fail where the model does not.
- Resolver.OutputTemplate: joins the directory with `/` as text. `pathlib`
  normalisation (a trailing slash, `.` components) is not modelled.
- Service.DownloadResult: the report's directory is the configured
  directory as given. The source makes it absolute, which depends on the
  process's working directory.
- Creating the output directory (`mkdir`) is not modelled, and neither is
  its failure.
- The window's default directory under the current working directory is
  not modelled.
- `launcher.py` is not part of this model.
- The branch `main` takes after its URL check (`--info`, then
  `--list-formats`, then a download with the parsed options) is not
  modelled: Service.EntryCheck carries the parsed command as an
  uninterpreted value. The operations each branch calls are modelled.
- Cli.SelectOption: answers arrive already parsed (`Entered`,
  `NotANumber`, `Interrupted`). Python's `int()` text parsing (signs,
  surrounding spaces, underscores) is not modelled.
- Cli.DownloaderCli.DownloadVideo: end of input or Ctrl-C at the
  confirmation prompt is not modelled. The confirmation is a given
  string.
- Every extractor call made for one user action is assumed to give the
  same answer. One `Extraction` serves the command line's information
  fetch before its menu, the listing's title fetch, and the download's
  information fetch.
- `fps` and `abr` are kept as their printed text plus a truthiness flag.
  Float formatting is not modelled.
- A descriptor key that is present with the value `None` is modelled as a
  missing key.
- Lower-casing and white-space stripping are ASCII only: non-ASCII white space such as U+0085 or U+00A0, which `str.strip()` also removes, is kept.
- The window's information text layout (minutes:seconds, thousands
  separators) is not modelled. The pane records which information it
  shows.
- Not modelled in the legacy script: its download routine (`download_video`
  printing and calling yt-dlp) and `get_video_info`, which only print. The
  legacy options record and its entry check are modelled.
- The `QUALITY_OPTIONS` and `SUPPORTED_FORMATS` tables are not modelled;
  nothing in the core reads them. The `argparse` choices of `--quality` are
  not modelled either. The resolver is modelled for every token, including
  the custom path the command lines cannot reach.
