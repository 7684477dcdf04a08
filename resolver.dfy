/** The quality resolver of `YouTubeDownloaderService.get_download_options`:
    a quality token, an audio-only flag and an optional output format become
    the yt-dlp options record — fixed base keys, a format selection string
    and the post-processor list. The selection string is produced, never
    interpreted. */
module Resolver {
  import opened Common

  datatype PostProcessor =
    | ExtractAudio(preferredCodec: string, preferredQuality: string)
    | VideoConvertor(preferredFormat: string)

  /** The options dictionary handed to yt-dlp. `postprocessors` is `None`
      when the key is not set at all. */
  datatype YdlOptions = YdlOptions(
    outtmpl: string,
    noplaylist: bool,
    mergeOutputFormat: string,
    format: string,
    postprocessors: Option<seq<PostProcessor>>)

  /** The output template: the video title and extension under the output
      directory. */
  function OutputTemplate(outputDir: string): (r: string)
    ensures IsPrefix(outputDir + "/", r)
  {
    outputDir + "/" + "%(title)s.%(ext)s"
  }

  const AudioSelector := "bestaudio/best"

  /** Best video and best audio merged, or the best single file, both at
      most `h` lines high. */
  function MergedCap(h: string): string {
    "bestvideo[height<=" + h + "]+bestaudio/best[height<=" + h + "]"
  }

  /** `MergedCap(h)` with one more fallback: any single file at most `h` high. */
  function Capped(h: string): string {
    MergedCap(h) + "/best[height<=" + h + "]"
  }

  /** `best`: a merged download capped at 2160 lines first, then the
      uncapped best merge or single file. */
  const BestSelector := MergedCap("2160") + "/bestvideo+bestaudio/best"

  /** The height a token caps at: `4k` stands for 2160, any other token
      (numeric or not) is used verbatim. */
  function CapHeight(quality: string): string {
    if quality == "4k" then "2160" else quality
  }

  /** The format string chosen for a video download, branch by branch. The
      source spells each named height out as a literal; each literal is the
      three-alternative template at that height, written here as `Capped`. */
  function VideoSelector(quality: string): string {
    if quality == "best" then BestSelector
    else if quality == "worst" then "worst"
    else if quality == "4k" || quality == "2160" then Capped("2160")
    else if quality == "1440" then Capped("1440")
    else if quality == "1080" then Capped("1080")
    else if quality == "720" then Capped("720")
    else if quality == "480" then Capped("480")
    else if quality == "360" then Capped("360")
    else Capped(quality)
  }

  /** `get_download_options(quality, audio_only, output_format)` for a
      service whose output directory is `outputDir`. */
  function DownloadOptions(outputDir: string, quality: string, audioOnly: bool,
                           outputFormat: Option<string>): (r: YdlOptions)
    ensures r.outtmpl == OutputTemplate(outputDir)
    ensures r.noplaylist && r.mergeOutputFormat == "mp4"
  {
    var tmpl := OutputTemplate(outputDir);
    if audioOnly then
      var codec := if StrTruthy(outputFormat) then outputFormat.value else "mp3";
      YdlOptions(tmpl, true, "mp4", AudioSelector, Some([ExtractAudio(codec, "192")]))
    else
      var post := if StrTruthy(outputFormat) then Some([VideoConvertor(outputFormat.value)]) else None;
      YdlOptions(tmpl, true, "mp4", VideoSelector(quality), post)
  }

  // ---------------------------------------------------------------------
  // Properties

  /** Audio-only downloads take the best audio stream and extract it to the
      requested codec (mp3 when none, or an empty one, is given) at 192
      kbps; the quality token plays no part. */
  lemma AudioOnlyOptions(outputDir: string, quality: string, other: string, outputFormat: Option<string>)
    ensures var r := DownloadOptions(outputDir, quality, true, outputFormat);
      && r.format == "bestaudio/best"
      && r.postprocessors == Some([ExtractAudio(if StrTruthy(outputFormat) then outputFormat.value else "mp3", "192")])
      && r == DownloadOptions(outputDir, other, true, outputFormat)
  {
  }

  /** Every video token other than `best` and `worst` — the named heights,
      `4k`, and any custom token passed through unchecked — yields the
      three-alternative template at the height it caps at. */
  lemma VideoSelectorCapped(quality: string)
    requires quality != "best" && quality != "worst"
    ensures VideoSelector(quality) == Capped(CapHeight(quality))
  {
  }

  /** The height occurs verbatim in the capped template, so distinct
      heights give distinct strings. */
  lemma {:induction false} CappedInjective(a: string, b: string)
    requires Capped(a) == Capped(b)
    ensures a == b
  {
    var prefix := "bestvideo[height<=";
    assert |prefix| == 18;
    assert |Capped(a)| == 3 * |a| + |Capped("")|;
    assert |Capped(b)| == 3 * |b| + |Capped("")|;
    assert Capped(a)[18..18 + |a|] == a;
    assert Capped(b)[18..18 + |b|] == b;
  }

  /** The capped templates all end in `]`, unlike `best` and `worst`. */
  lemma CappedEnd(h: string)
    ensures |Capped(h)| > 5 && Capped(h)[|Capped(h)| - 1] == ']'
  {
  }

  /** The only two tokens that select the same format string are `4k` and
      `2160`. */
  lemma VideoSelectorInjective(q1: string, q2: string)
    requires VideoSelector(q1) == VideoSelector(q2)
    ensures q1 == q2 || (q1 in {"4k", "2160"} && q2 in {"4k", "2160"})
  {
    if q1 == "best" || q1 == "worst" || q2 == "best" || q2 == "worst" {
      if q1 != "best" && q1 != "worst" {
        VideoSelectorCapped(q1);
        CappedEnd(CapHeight(q1));
      }
      if q2 != "best" && q2 != "worst" {
        VideoSelectorCapped(q2);
        CappedEnd(CapHeight(q2));
      }
    } else {
      VideoSelectorCapped(q1);
      VideoSelectorCapped(q2);
      CappedInjective(CapHeight(q1), CapHeight(q2));
    }
  }

  /** A video download gets a converter to the output format exactly when
      one (non-empty) is given, and no post-processor otherwise. */
  lemma VideoOptions(outputDir: string, quality: string, outputFormat: Option<string>)
    ensures var r := DownloadOptions(outputDir, quality, false, outputFormat);
      && r.format == VideoSelector(quality)
      && (r.postprocessors.Some? <==> StrTruthy(outputFormat))
      && (StrTruthy(outputFormat) ==> r.postprocessors == Some([VideoConvertor(outputFormat.value)]))
  {
  }

  /** A numeric height, as the menu and GUI pass it, caps the download at
      that height. */
  lemma HeightTokenCaps(h: int)
    ensures VideoSelector(IntToString(h)) == Capped(IntToString(h))
  {
    var q := IntToString(h);
    assert q != "best" && q != "worst" && q != "4k" by {
      assert IsDigit(q[0]) || q[0] == '-';
      if |q| == 2 {
        assert IsDigit(q[1]);
      }
    }
    VideoSelectorCapped(q);
  }
}
