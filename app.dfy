/** The older stand-alone downloader `app.py` (`YouTubeDownloader`): its
    own quality resolver, its own grouping and sorting of the extractor's
    descriptors for the format listing, and the URL check of its entry
    point. Where it differs from the service, the lemmas here say how. */
module LegacyApp {
  import opened Common
  import opened Catalog
  import opened Resolver
  import opened Service
  import StableSort

  // ---------------------------------------------------------------------
  // The quality resolver of `download_video`

  /** The format string of the legacy resolver: the named heights and any
      other token get only the merged alternative and the capped best single
      file, without the service's third fallback. */
  function LegacyVideoSelector(quality: string): string {
    if quality == "best" then BestSelector
    else if quality == "worst" then "worst"
    else if quality == "4k" || quality == "2160" then MergedCap("2160")
    else if quality == "1440" then MergedCap("1440")
    else if quality == "1080" then MergedCap("1080")
    else if quality == "720" then MergedCap("720")
    else if quality == "480" then MergedCap("480")
    else if quality == "360" then MergedCap("360")
    else MergedCap(quality)
  }

  /** The options `download_video` hands to yt-dlp. */
  function LegacyDownloadOptions(outputDir: string, quality: string, audioOnly: bool,
                                 outputFormat: Option<string>): (r: YdlOptions)
    ensures r.outtmpl == OutputTemplate(outputDir)
    ensures r.noplaylist && r.mergeOutputFormat == "mp4"
  {
    var tmpl := OutputTemplate(outputDir);
    if audioOnly then
      var codec := if StrTruthy(outputFormat) then outputFormat.value else "mp3";
      YdlOptions(tmpl, true, "mp4", AudioSelector, Some([ExtractAudio(codec, "192")]))
    else
      var post := if StrTruthy(outputFormat) then Some([VideoConvertor(outputFormat.value)]) else None;
      YdlOptions(tmpl, true, "mp4", LegacyVideoSelector(quality), post)
  }

  /** For audio-only downloads, and for `best` and `worst`, the legacy
      resolver produces exactly the service's options. */
  lemma LegacyAgreesWithService(outputDir: string, quality: string, audioOnly: bool, outputFormat: Option<string>)
    requires audioOnly || quality == "best" || quality == "worst"
    ensures LegacyDownloadOptions(outputDir, quality, audioOnly, outputFormat)
         == DownloadOptions(outputDir, quality, audioOnly, outputFormat)
  {
  }

  /** For every other token the two differ only in the format string: the
      service's is the legacy one followed by a capped single-file
      fallback. */
  lemma LegacyLacksSingleFileFallback(outputDir: string, quality: string, outputFormat: Option<string>)
    requires quality != "best" && quality != "worst"
    ensures var legacy := LegacyDownloadOptions(outputDir, quality, false, outputFormat);
      var service := DownloadOptions(outputDir, quality, false, outputFormat);
      && legacy.format == MergedCap(CapHeight(quality))
      && service.format == legacy.format + "/best[height<=" + CapHeight(quality) + "]"
      && service == legacy.(format := service.format)
  {
    VideoSelectorCapped(quality);
  }

  /** A converter is attached exactly for a video download with a
      (non-empty) output format. */
  lemma LegacyConvertorIff(outputDir: string, quality: string, audioOnly: bool, outputFormat: Option<string>)
    ensures var r := LegacyDownloadOptions(outputDir, quality, audioOnly, outputFormat);
      (exists p: PostProcessor :: r.postprocessors == Some([p]) && p.VideoConvertor?) <==> !audioOnly && StrTruthy(outputFormat)
  {
    var r := LegacyDownloadOptions(outputDir, quality, audioOnly, outputFormat);
    if !audioOnly && StrTruthy(outputFormat) {
      assert r.postprocessors == Some([VideoConvertor(outputFormat.value)]);
    }
  }

  // ---------------------------------------------------------------------
  // Grouping and sorting for the listing

  /** A descriptor with the label the listing prints for it. */
  datatype Tagged = Tagged(f: RawFormat, tag: string)

  datatype Group = VideoGroup(tag: string) | AudioGroup | NoGroup

  /** A codec counts as present unless it is literally `none`: a missing
      codec key counts as present. */
  predicate HasCodec(codec: Option<string>) {
    codec != Some("none")
  }

  function LegacyClassify(f: RawFormat): Group {
    if HasCodec(f.vcodec) && HasCodec(f.acodec) then VideoGroup("video+audio")
    else if HasCodec(f.vcodec) then VideoGroup("video-only")
    else if HasCodec(f.acodec) then AudioGroup
    else NoGroup
  }

  /** The video list the loop builds, in extractor order. */
  function GroupVideo(raws: seq<RawFormat>): seq<Tagged> {
    if raws == [] then []
    else
      var f := raws[|raws| - 1];
      var prev := GroupVideo(raws[..|raws| - 1]);
      match LegacyClassify(f)
      case VideoGroup(tag) => prev + [Tagged(f, tag)]
      case _ => prev
  }

  /** The audio list the loop builds, in extractor order. */
  function GroupAudio(raws: seq<RawFormat>): seq<Tagged> {
    if raws == [] then []
    else
      var f := raws[|raws| - 1];
      var prev := GroupAudio(raws[..|raws| - 1]);
      if LegacyClassify(f).AudioGroup? then prev + [Tagged(f, "audio-only")] else prev
  }

  /** The height the sort compares: a missing or zero height counts as 0. */
  function SortHeight(t: Tagged): int {
    if IntTruthy(t.f.height) then t.f.height.value else 0
  }

  /** Sorting by height with `reverse=True` is stable, so it is the stable
      ascending sort on the negated height. */
  function HeightRank(t: Tagged): StableSort.Key {
    (0, -SortHeight(t))
  }

  /** The loop of `list_available_formats`: group every descriptor, then
      sort the video list by height, highest first. */
  method GroupFormats(raws: seq<RawFormat>) returns (video: seq<Tagged>, audio: seq<Tagged>)
    ensures video == StableSort.Sort(GroupVideo(raws), HeightRank)
    ensures audio == GroupAudio(raws)
  {
    video, audio := [], [];
    for i := 0 to |raws|
      invariant video == GroupVideo(raws[..i])
      invariant audio == GroupAudio(raws[..i])
    {
      var f := raws[i];
      assert raws[..i + 1][..i] == raws[..i];
      if HasCodec(f.vcodec) && HasCodec(f.acodec) {
        video := video + [Tagged(f, "video+audio")];
      } else if HasCodec(f.vcodec) {
        video := video + [Tagged(f, "video-only")];
      } else if HasCodec(f.acodec) {
        audio := audio + [Tagged(f, "audio-only")];
      }
    }
    assert raws[..|raws|] == raws;
    video := StableSort.Sort(video, HeightRank);
  }

  /** The video list holds exactly the descriptors with a video codec (in
      the sense above), each labelled by whether it also has audio. */
  lemma {:induction false} GroupVideoExactly(raws: seq<RawFormat>)
    ensures forall t :: t in GroupVideo(raws) <==>
      t.f in raws && HasCodec(t.f.vcodec)
      && t.tag == (if HasCodec(t.f.acodec) then "video+audio" else "video-only")
  {
    if raws != [] {
      var n := |raws|;
      GroupVideoExactly(raws[..n - 1]);
      assert raws == raws[..n - 1] + [raws[n - 1]];
      forall t ensures t in GroupVideo(raws) <==>
        t.f in raws && HasCodec(t.f.vcodec)
        && t.tag == (if HasCodec(t.f.acodec) then "video+audio" else "video-only")
      {
        if t.f in raws && t.f != raws[n - 1] {
          assert t.f in raws[..n - 1];
        }
      }
    }
  }

  /** The audio list holds exactly the descriptors with an audio codec and
      a video codec of `none`; a descriptor with both codecs `none` is in
      neither list. */
  lemma {:induction false} GroupAudioExactly(raws: seq<RawFormat>)
    ensures forall t :: t in GroupAudio(raws) <==>
      t.f in raws && t.f.vcodec == Some("none") && HasCodec(t.f.acodec) && t.tag == "audio-only"
  {
    if raws != [] {
      var n := |raws|;
      GroupAudioExactly(raws[..n - 1]);
      assert raws == raws[..n - 1] + [raws[n - 1]];
      forall t ensures t in GroupAudio(raws) <==>
        t.f in raws && t.f.vcodec == Some("none") && HasCodec(t.f.acodec) && t.tag == "audio-only"
      {
        if t.f in raws && t.f != raws[n - 1] {
          assert t.f in raws[..n - 1];
        }
      }
    }
  }

  /** The sorted video list is a rearrangement of the grouped one, highest
      first, with descriptors of equal height in extractor order. */
  lemma GroupedVideoOrder(raws: seq<RawFormat>)
    ensures var v := StableSort.Sort(GroupVideo(raws), HeightRank);
      && multiset(v) == multiset(GroupVideo(raws))
      && (forall i, j :: 0 <= i < j < |v| ==> SortHeight(v[i]) >= SortHeight(v[j]))
      && (forall k :: StableSort.WithKey(v, HeightRank, k) == StableSort.WithKey(GroupVideo(raws), HeightRank, k))
  {
    var g := GroupVideo(raws);
    StableSort.SortPermutes(g, HeightRank);
    StableSort.SortSorted(g, HeightRank);
    forall k ensures StableSort.WithKey(StableSort.Sort(g, HeightRank), HeightRank, k) == StableSort.WithKey(g, HeightRank, k) {
      StableSort.SortStable(g, HeightRank, k);
    }
  }

  /** A descriptor without a `vcodec` key but with an audio codec is an
      Audio Only record in the service's catalog, yet a video+audio entry
      in the legacy listing. */
  lemma MissingVideoCodecDiverges(r: RawFormat)
    requires r.vcodec.None? && r.acodec.Some? && r.acodec.value != "none"
    ensures Normalize(r).Some? && Normalize(r).value.kind == AudioOnly
    ensures LegacyClassify(r) == VideoGroup("video+audio")
  {
  }

  // ---------------------------------------------------------------------
  // The listing

  /** `filesize // 1024 // 1024` as a suffix when the size is truthy. */
  function LegacySizeText(f: RawFormat): string {
    if IntTruthy(f.filesize) then " (" + IntToString(f.filesize.value / 1024 / 1024) + "MB)" else ""
  }

  function LegacyVideoLine(t: Tagged): string {
    var f := t.f;
    var height := if f.height.Some? then IntToString(f.height.value) else "unknown";
    var fps := if NumTruthy(f.fps) then " " + NumText(f.fps) + "fps" else "";
    GetOr(f.formatId, "None") + ": " + height + "p " + GetOr(f.ext, "unknown") + " "
      + GetOr(f.vcodec, "unknown") + fps + " [" + t.tag + "]" + LegacySizeText(f)
  }

  function LegacyAudioLine(t: Tagged): string {
    var f := t.f;
    var abr := if NumTruthy(f.abr) then " " + NumText(f.abr) + "kbps" else "";
    GetOr(f.formatId, "None") + ": " + GetOr(f.ext, "unknown") + " " + GetOr(f.acodec, "unknown")
      + abr + LegacySizeText(f)
  }

  /** What the listing prints: the title, then up to 15 video and up to 5
      audio lines. */
  datatype LegacyListing = LegacyListing(title: string, video: seq<string>, audio: seq<string>)

  function LegacyListingOf(title: string, raws: seq<RawFormat>): LegacyListing {
    var v := Take(StableSort.Sort(GroupVideo(raws), HeightRank), 15);
    var a := Take(GroupAudio(raws), 5);
    LegacyListing(title,
      seq(|v|, i requires 0 <= i < |v| => LegacyVideoLine(v[i])),
      seq(|a|, i requires 0 <= i < |a| => LegacyAudioLine(a[i])))
  }

  /** The listing of `list_available_formats`; an extractor failure is the
      message printed after "Error listing formats". */
  function LegacyListFormats(extraction: Extraction): Result<LegacyListing, string> {
    match extraction
    case ExtractFailed(m) => Failure(m)
    case Extracted(info) =>
      Success(LegacyListingOf(GetOr(info.title, "Unknown"),
                              if info.formats.Some? then info.formats.value else []))
  }

  /** The first 15 video formats, from the highest down, and the first 5
      audio formats in extractor order, one line each. */
  lemma LegacyListingBounds(title: string, raws: seq<RawFormat>)
    ensures var l := LegacyListingOf(title, raws);
      var v := StableSort.Sort(GroupVideo(raws), HeightRank);
      var a := GroupAudio(raws);
      && |l.video| == (if |v| < 15 then |v| else 15)
      && |l.audio| == (if |a| < 5 then |a| else 5)
      && (forall i :: 0 <= i < |l.video| ==> l.video[i] == LegacyVideoLine(v[i]))
      && (forall i :: 0 <= i < |l.audio| ==> l.audio[i] == LegacyAudioLine(GroupAudio(raws)[i]))
  {
  }

  /** The size column is the size in whole mebibytes, and is absent for a
      missing or zero size. */
  lemma LegacySizeAgrees(f: RawFormat)
    ensures IntTruthy(f.filesize) ==> LegacySizeText(f) == " (" + IntToString(SizeMb(f.filesize)) + "MB)"
    ensures !IntTruthy(f.filesize) ==> LegacySizeText(f) == ""
  {
  }
}
