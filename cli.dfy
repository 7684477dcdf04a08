/** The command-line front end `YouTubeDownloaderCLI`: which listed format
    is marked as the one a quality setting would pick, the interactive menu
    choice, the yes/no confirmation, the order in which a download is
    previewed, confirmed and run, and the format listing. Keyboard input is
    a given sequence of responses; printing is not modelled except for the
    listing lines. */
module Cli {
  import opened Common
  import opened Catalog
  import opened Menu
  import opened Resolver
  import opened Service

  // ---------------------------------------------------------------------
  // `_would_select_format`

  /** The exact height each known quality token stands for. */
  function QualityTarget(quality: string): Option<int> {
    if quality == "4k" || quality == "2160" then Some(2160)
    else if quality == "1440" then Some(1440)
    else if quality == "1080" then Some(1080)
    else if quality == "720" then Some(720)
    else if quality == "480" then Some(480)
    else if quality == "360" then Some(360)
    else None
  }

  /** Whether the listing marks `f` as selected under `quality` (`None` is
      no quality given). */
  predicate WouldSelect(f: Format, quality: Option<string>) {
    if !StrTruthy(quality) || quality.value == "best" then
      f.kind == VideoAudio && IntTruthy(f.height) && f.height.value > 0
    else if !IntTruthy(f.height) then false
    else match QualityTarget(quality.value)
      case None => false
      case Some(target) => f.height.value == target && IsVideo(f.kind)
  }

  /** With no quality or `best`, exactly the Video+Audio records of
      positive height are marked. */
  lemma WouldSelectBest(f: Format, quality: Option<string>)
    requires quality.None? || quality == Some("") || quality == Some("best")
    ensures WouldSelect(f, quality) <==> f.kind == VideoAudio && f.height.Some? && f.height.value > 0
  {
  }

  /** The heights of the known tokens print back as the tokens themselves
      (`4k` as 2160). */
  lemma TargetText(quality: string)
    requires QualityTarget(quality).Some?
    ensures IntToString(QualityTarget(quality).value) == CapHeight(quality)
  {
    if quality == "4k" || quality == "2160" {
      assert IntToString(2160) == "2160";
    } else if quality == "1440" {
      assert IntToString(1440) == "1440";
    } else if quality == "1080" {
      assert IntToString(1080) == "1080";
    } else if quality == "720" {
      assert IntToString(720) == "720";
    } else if quality == "480" {
      assert IntToString(480) == "480";
    } else {
      assert IntToString(360) == "360";
    }
  }

  /** A known token marks exactly the video records (with or without
      audio) of precisely its height; the token caps the download at the
      same height. */
  lemma WouldSelectMapped(f: Format, quality: string, target: int)
    requires QualityTarget(quality) == Some(target)
    ensures WouldSelect(f, Some(quality)) <==> f.height == Some(target) && IsVideo(f.kind)
    ensures VideoSelector(quality) == Capped(IntToString(target))
  {
    TargetText(quality);
    VideoSelectorCapped(quality);
  }

  /** Any other token (such as `worst` or a custom height) marks nothing. */
  lemma WouldSelectUnmapped(f: Format, quality: string)
    requires quality != "" && quality != "best" && QualityTarget(quality).None?
    ensures !WouldSelect(f, Some(quality))
  {
  }

  // ---------------------------------------------------------------------
  // The interactive menu choice

  /** One answer to the menu prompt: a number `int()` accepts, text it
      rejects, or Ctrl-C. */
  datatype Response = Entered(n: int) | NotANumber | Interrupted

  /** The first option numbered `n`, or `None` when no option has that
      number. */
  function FirstWithNum(options: seq<SelectionOption>, n: int): (r: Option<SelectionOption>)
    ensures r.Some? ==> r.value in options && r.value.num == n
    ensures r.None? <==> forall o :: o in options ==> o.num != n
    ensures r.Some? ==> exists i :: 0 <= i < |options| && options[i] == r.value
                                   && forall j :: 0 <= j < i ==> options[j].num != n
  {
    if options == [] then None
    else if options[0].num == n then Some(options[0])
    else FirstWithNum(options[1..], n)
  }

  /** The option the prompt loop returns for the given answers; `None` is
      a cancel, an interrupt, or running out of input (which ends the
      selection through its outer error handler). */
  function Choose(options: seq<SelectionOption>, responses: seq<Response>): Option<SelectionOption>
    decreases |responses|
  {
    if responses == [] then None
    else match responses[0]
      case Interrupted => None
      case NotANumber => Choose(options, responses[1..])
      case Entered(n) =>
        if n == |options| + 1 then None
        else if 1 <= n <= |options| && FirstWithNum(options, n).Some? then FirstWithNum(options, n)
        else Choose(options, responses[1..])
  }

  /** The prompt loop of `interactive_format_selection`. */
  method SelectOption(options: seq<SelectionOption>, responses: seq<Response>)
    returns (selected: Option<SelectionOption>)
    ensures selected == Choose(options, responses)
  {
    var cancelNum := |options| + 1;
    var i := 0;
    while i < |responses|
      invariant 0 <= i <= |responses|
      invariant Choose(options, responses[i..]) == Choose(options, responses)
      decreases |responses| - i
    {
      assert responses[i..][1..] == responses[i + 1..];
      match responses[i] {
        case Interrupted =>
          return None;
        case NotANumber =>
        case Entered(choice) =>
          if choice == cancelNum {
            return None;
          } else if 1 <= choice <= |options| {
            var found := FirstWithNum(options, choice);
            if found.Some? {
              return found;
            }
          }
      }
      i := i + 1;
    }
    return None;
  }

  /** Options numbered consecutively from 1, as the menu builder makes them. */
  predicate Numbered(options: seq<SelectionOption>) {
    forall i :: 0 <= i < |options| ==> options[i].num == i + 1
  }

  lemma {:induction false} FirstWithNumNumbered(options: seq<SelectionOption>, n: int, offset: int)
    requires forall i :: 0 <= i < |options| ==> options[i].num == i + 1 + offset
    requires 1 + offset <= n <= |options| + offset
    ensures FirstWithNum(options, n) == Some(options[n - 1 - offset])
    decreases |options|
  {
    if options[0].num != n {
      FirstWithNumNumbered(options[1..], n, offset + 1);
    }
  }

  /** Entering the cancel number `len(options) + 1` or pressing Ctrl-C
      returns nothing; entering `k` in 1..len(options) returns option
      `k`. */
  lemma ChooseFirstAnswer(options: seq<SelectionOption>, r: Response, rest: seq<Response>)
    requires Numbered(options)
    ensures r == Entered(|options| + 1) || r == Interrupted ==> Choose(options, [r] + rest) == None
    ensures r.Entered? && 1 <= r.n <= |options| ==> Choose(options, [r] + rest) == Some(options[r.n - 1])
  {
    assert ([r] + rest)[0] == r;
    if r.Entered? && 1 <= r.n <= |options| {
      FirstWithNumNumbered(options, r.n, 0);
    }
  }

  /** An answer that is not a number, or a number outside 1..len+1, is
      ignored and the prompt repeats. */
  predicate Ignored(options: seq<SelectionOption>, r: Response) {
    r.NotANumber? || (r.Entered? && (r.n < 1 || r.n > |options| + 1))
  }

  /** Any run of ignored answers can be dropped. */
  lemma {:induction false} ChooseSkipsIgnored(options: seq<SelectionOption>, bad: seq<Response>, rest: seq<Response>)
    requires forall i :: 0 <= i < |bad| ==> Ignored(options, bad[i])
    ensures Choose(options, bad + rest) == Choose(options, rest)
  {
    if bad != [] {
      assert (bad + rest)[0] == bad[0];
      assert (bad + rest)[1..] == bad[1..] + rest;
      assert Ignored(options, bad[0]);
      assert Choose(options, bad + rest) == Choose(options, bad[1..] + rest);
      assert forall i :: 0 <= i < |bad[1..]| ==> bad[1..][i] == bad[i + 1];
      ChooseSkipsIgnored(options, bad[1..], rest);
    } else {
      assert bad + rest == rest;
    }
  }

  /** Whatever is chosen is one of the options. */
  lemma {:induction false} ChooseIsAnOption(options: seq<SelectionOption>, responses: seq<Response>)
    ensures Choose(options, responses).Some? ==> Choose(options, responses).value in options
    decreases |responses|
  {
    if responses != [] {
      ChooseIsAnOption(options, responses[1..]);
    }
  }

  /** Out of input without a valid answer: nothing is selected. */
  lemma OnlyIgnoredSelectsNothing(options: seq<SelectionOption>, bad: seq<Response>)
    requires forall i :: 0 <= i < |bad| ==> Ignored(options, bad[i])
    ensures Choose(options, bad) == None
  {
    ChooseSkipsIgnored(options, bad, []);
    assert bad + [] == bad;
  }

  // ---------------------------------------------------------------------
  // Confirmation

  /** The download proceeds when the answer, lower-cased, is `y` or `yes`. */
  predicate Confirmed(response: string) {
    Lower(response) == "y" || Lower(response) == "yes"
  }

  /** Case does not matter, and nothing else — not even surrounding
      spaces — is accepted. */
  lemma ConfirmedIff(response: string)
    ensures Confirmed(response) <==>
      (|response| == 1 && response[0] in {'y', 'Y'})
      || (|response| == 3 && response[0] in {'y', 'Y'} && response[1] in {'e', 'E'} && response[2] in {'s', 'S'})
  {
    var l := Lower(response);
    if |response| == 1 {
      assert l == "y" <==> l[0] == 'y';
    } else if |response| == 3 {
      assert l == "yes" <==> l[0] == 'y' && l[1] == 'e' && l[2] == 's';
    }
  }

  // ---------------------------------------------------------------------
  // The download flow

  /** `interactive_format_selection(url)`: fetch the menu, then prompt.
      Any failure fetching information or options selects nothing. */
  function InteractiveSelection(url: string, extraction: Extraction, responses: seq<Response>)
    : Option<SelectionOption>
  {
    match SelectionOptions(url, extraction)
    case Failure(_) => None
    case Success(options) => Choose(options, responses)
  }

  /** How `download_video` ends. */
  datatype CliOutcome =
    | Cancelled                 // no option chosen
    | Declined                  // the confirmation was not y/yes
    | Errored(message: string)
    | Completed(message: string)

  /** The settings the download runs with: the command line's, or in
      interactive mode the chosen option's (no output format for a video
      option). */
  datatype Settings = Settings(quality: string, audioOnly: bool, outputFormat: Option<string>)

  function SettingsOf(o: SelectionOption): Settings {
    Settings(o.quality, o.audioOnly, o.outputFormat)
  }

  /** `download_video` of the CLI for a service writing to `outputDir`. */
  function CliDownload(outputDir: string, url: string, given: Settings, interactive: bool,
                       extraction: Extraction, responses: seq<Response>, confirmation: string,
                       download: YdlOptions -> DownloadOutcome): CliOutcome
  {
    var sel := InteractiveSelection(url, extraction, responses);
    if interactive && sel.None? then Cancelled
    else
      var s := if interactive then SettingsOf(sel.value) else given;
      match PreviewOf(outputDir, url, s.quality, s.audioOnly, extraction)
      case Failure(m) => Errored(m)
      case Success(_) =>
        if !Confirmed(confirmation) then Declined
        else match DownloadResult(outputDir, url, s.quality, s.audioOnly, s.outputFormat, extraction, download)
          case Failure(m) => Errored(m)
          case Success(report) => Completed(report.message)
  }

  class DownloaderCli {
    const service: DownloaderService

    constructor(outputDir: string)
      ensures fresh(service) && service.outputDir == outputDir
    {
      service := new DownloaderService(outputDir);
    }

    /** `interactive_format_selection`. */
    method InteractiveFormatSelection(url: string, extraction: Extraction, responses: seq<Response>)
      returns (selected: Option<SelectionOption>)
      ensures selected == InteractiveSelection(url, extraction, responses)
    {
      var info := VideoInfoOf(url, extraction);
      if info.Failure? {
        return None;
      }
      var options := service.GetFormatSelectionOptions(url, extraction);
      if options.Failure? {
        return None;
      }
      selected := SelectOption(options.value, responses);
    }

    /** `download_video`: choose (in interactive mode), preview, confirm,
        download. */
    method DownloadVideo(url: string, quality: string, audioOnly: bool, outputFormat: Option<string>,
                         interactive: bool, extraction: Extraction, responses: seq<Response>,
                         confirmation: string, download: YdlOptions -> DownloadOutcome)
      returns (outcome: CliOutcome)
      ensures outcome == CliDownload(service.outputDir, url, Settings(quality, audioOnly, outputFormat),
                                     interactive, extraction, responses, confirmation, download)
    {
      var quality, audioOnly, outputFormat := quality, audioOnly, outputFormat;
      if interactive {
        var selected := InteractiveFormatSelection(url, extraction, responses);
        if selected.None? {
          return Cancelled;
        }
        quality := selected.value.quality;
        audioOnly := selected.value.audioOnly;
        outputFormat := selected.value.outputFormat;
      }
      var preview := service.PreviewDownload(url, quality, audioOnly, extraction);
      if preview.Failure? {
        return Errored(preview.error);
      }
      if !Confirmed(confirmation) {
        return Declined;
      }
      var result := service.DownloadVideo(url, quality, audioOnly, outputFormat, extraction, download);
      if result.Failure? {
        return Errored(result.error);
      }
      return Completed(result.value.message);
    }
  }

  /** Without a choice nothing is previewed or downloaded; without a y/yes
      nothing is downloaded. */
  lemma CancelAndDeclineDownloadNothing(outputDir: string, url: string, given: Settings, interactive: bool,
                                        extraction: Extraction, responses: seq<Response>,
                                        confirmation: string, d1: YdlOptions -> DownloadOutcome,
                                        d2: YdlOptions -> DownloadOutcome)
    requires (interactive && InteractiveSelection(url, extraction, responses).None?) || !Confirmed(confirmation)
    ensures CliDownload(outputDir, url, given, interactive, extraction, responses, confirmation, d1)
         == CliDownload(outputDir, url, given, interactive, extraction, responses, confirmation, d2)
    ensures interactive && InteractiveSelection(url, extraction, responses).None? ==>
      CliDownload(outputDir, url, given, interactive, extraction, responses, confirmation, d1) == Cancelled
  {
  }

  /** A chosen video option downloads at most at its own height, with no
      conversion; a chosen audio option extracts audio in its own
      container format. */
  lemma ChosenOptionDrivesDownload(outputDir: string, formats: seq<Format>, i: nat)
    requires i < |MenuOptions(formats)|
    ensures var o := MenuOptions(formats)[i];
      var opts := DownloadOptions(outputDir, o.quality, o.audioOnly, o.outputFormat);
      && (o.optType == VideoOption ==>
            o.format.height.Some?
            && opts.format == Capped(IntToString(o.format.height.value)) && opts.postprocessors.None?)
      && (o.optType == AudioOption ==>
            opts.format == "bestaudio/best"
            && opts.postprocessors == Some([ExtractAudio(if o.format.ext != "" then o.format.ext else "mp3", "192")]))
  {
    var options := MenuOptions(formats);
    var nv := |VideoPicks(formats)|;
    MenuLayout(formats);
    if i < nv {
      MenuVideoOptions(formats);
      HeightTokenCaps(options[i].format.height.value);
    } else {
      MenuAudioOptions(formats);
    }
  }

  // ---------------------------------------------------------------------
  // The format listing

  const SelectedMarker := " \U{2190} SELECTED"

  /** One printed line of the listing and whether it carries the marker. */
  datatype ListedFormat = ListedFormat(format: Format, text: string, selected: bool)

  /** The listing: its title, the mode line, and the two groups. */
  datatype Listing = Listing(title: string, mode: string, video: seq<ListedFormat>, audio: seq<ListedFormat>)

  function SizeText(f: Format): string {
    if f.sizeMb > 0 then " (" + IntToString(f.sizeMb) + "MB)" else ""
  }

  function VideoLine(f: Format, selected: bool): ListedFormat {
    var height := if IntTruthy(f.height) then IntToString(f.height.value) else "unknown";
    var fps := if NumTruthy(f.fps) then " " + NumText(f.fps) + "fps" else "";
    var text := GetOr(f.id, "None") + ": " + height + "p " + f.ext + " " + f.codec + fps
                + " [" + KindLabel(f.kind) + "]" + SizeText(f) + (if selected then SelectedMarker else "");
    ListedFormat(f, text, selected)
  }

  function AudioLine(f: Format, selected: bool): ListedFormat {
    var abr := if NumTruthy(f.abr) then " " + NumText(f.abr) + "kbps" else "";
    var text := GetOr(f.id, "None") + ": " + f.ext + " " + f.codec + abr + SizeText(f)
                + (if selected then SelectedMarker else "");
    ListedFormat(f, text, selected)
  }

  /** The listing of `list_available_formats` for a catalog. */
  function ListingOf(title: string, formats: seq<Format>, selectedQuality: Option<string>, audioOnly: bool)
    : Listing
  {
    var vs := VideoFormats(formats);
    var shownVideo := if audioOnly then [] else Take(vs, 15);
    var shownAudio := Take(AudioFormats(formats), 5);
    Listing(
      title,
      if audioOnly then "Mode: Audio Only"
      else "Selected Quality: " + (if StrTruthy(selectedQuality) then selectedQuality.value else "best"),
      VideoLines(shownVideo, selectedQuality),
      AudioLines(shownAudio, audioOnly))
  }

  /** The video lines, each marked when the quality would pick it. */
  function VideoLines(shown: seq<Format>, selectedQuality: Option<string>): seq<ListedFormat> {
    seq(|shown|, i requires 0 <= i < |shown| => VideoLine(shown[i], WouldSelect(shown[i], selectedQuality)))
  }

  /** The audio lines; in audio-only mode a line is marked when its record
      equals the first audio record. */
  function AudioLines(shown: seq<Format>, audioOnly: bool): seq<ListedFormat> {
    seq(|shown|, i requires 0 <= i < |shown| => AudioLine(shown[i], audioOnly && shown[i] == shown[0]))
  }

  /** `list_available_formats(url, selected_quality, audio_only)`; a
      failure is the message printed after "Error listing formats". */
  function ListFormats(url: string, extraction: Extraction, selectedQuality: Option<string>, audioOnly: bool)
    : Result<Listing, string>
  {
    match AvailableFormats(url, extraction)
    case Failure(m) => Failure(m)
    case Success(formats) =>
      Success(ListingOf(VideoInfoOf(url, extraction).value.title, formats, selectedQuality, audioOnly))
  }

  /** At most 15 video lines, none in audio-only mode, each the next video
      record in catalog order; the marker sits on the lines the quality
      would pick. */
  lemma ListingVideo(title: string, formats: seq<Format>, selectedQuality: Option<string>, audioOnly: bool)
    ensures var l := ListingOf(title, formats, selectedQuality, audioOnly);
      var vs := VideoFormats(formats);
      && (audioOnly ==> l.video == [])
      && (!audioOnly ==> |l.video| == if |vs| < 15 then |vs| else 15)
      && (forall i :: 0 <= i < |l.video| ==>
            l.video[i].format == vs[i] && IsVideo(vs[i].kind)
            && (l.video[i].selected <==> WouldSelect(vs[i], selectedQuality)))
  {
    VideoFormatsMembers(formats);
    var vs := VideoFormats(formats);
    var shown := if audioOnly then [] else Take(vs, 15);
    assert ListingOf(title, formats, selectedQuality, audioOnly).video == VideoLines(shown, selectedQuality);
    forall i | 0 <= i < |shown| ensures shown[i] == vs[i] && IsVideo(vs[i].kind) {
      assert vs[i] in vs;
    }
  }

  /** At most 5 audio lines, each the next Audio Only record; the marker
      appears only in audio-only mode, on the first audio record (and on
      any later record equal to it). */
  lemma ListingAudio(title: string, formats: seq<Format>, selectedQuality: Option<string>, audioOnly: bool)
    ensures var l := ListingOf(title, formats, selectedQuality, audioOnly);
      var aus := AudioFormats(formats);
      && |l.audio| == (if |aus| < 5 then |aus| else 5)
      && (forall i :: 0 <= i < |l.audio| ==>
            l.audio[i].format == aus[i] && aus[i].kind == AudioOnly
            && (l.audio[i].selected <==> audioOnly && aus[i] == aus[0]))
      && (audioOnly && aus != [] ==> l.audio[0].selected)
  {
    AudioFormatsMembers(formats);
    var aus := AudioFormats(formats);
    assert ListingOf(title, formats, selectedQuality, audioOnly).audio == AudioLines(Take(aus, 5), audioOnly);
    forall i | 0 <= i < |aus| ensures aus[i].kind == AudioOnly {
      assert aus[i] in aus;
    }
  }

  /** A selected line ends with the marker. A video line ends with the
      marker exactly when it is selected, since otherwise it ends with the
      type bracket or the size; an audio line without a size or bitrate
      ends with the codec text, which could itself end like the marker. */
  lemma MarkerShown(f: Format, selected: bool)
    ensures selected ==> IsSuffix(SelectedMarker, VideoLine(f, selected).text)
    ensures selected ==> IsSuffix(SelectedMarker, AudioLine(f, selected).text)
    ensures !selected ==> !IsSuffix(SelectedMarker, VideoLine(f, selected).text)
  {
    if !selected {
      var text := VideoLine(f, false).text;
      var last := text[|text| - 1];
      assert last == ']' || last == ')';
    }
  }

  predicate IsSuffix(p: string, s: string) {
    |p| <= |s| && s[|s| - |p|..] == p
  }
}
