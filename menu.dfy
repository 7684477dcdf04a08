/** The numbered menu built from a catalog (downloader_service.py,
    `get_format_selection_options`): one video option per height, taken
    from the first record of that height, then one audio option per
    distinct audio key among the first three Audio Only records. */
module Menu {
  import opened Common
  import opened Catalog
  import opened FirstSeen

  datatype OptionType = VideoOption | AudioOption

  /** One menu entry. `outputFormat` is `None` for video entries, which
      carry no output format. */
  datatype SelectionOption = SelectionOption(
    num: int,
    optType: OptionType,
    quality: string,
    audioOnly: bool,
    outputFormat: Option<string>,
    description: string,
    format: Format)

  /** The catalog records of type Video+Audio or Video Only, in order. */
  function VideoFormats(formats: seq<Format>): seq<Format> {
    if formats == [] then []
    else (if IsVideo(formats[0].kind) then [formats[0]] else []) + VideoFormats(formats[1..])
  }

  /** The catalog records of type Audio Only, in order. */
  function AudioFormats(formats: seq<Format>): seq<Format> {
    if formats == [] then []
    else (if formats[0].kind == AudioOnly then [formats[0]] else []) + AudioFormats(formats[1..])
  }

  /** Video records are deduplicated by height; a falsy height is skipped. */
  function VideoKey(f: Format): Option<int> {
    if IntTruthy(f.height) then Some(f.height.value) else None
  }

  /** Audio records are deduplicated by codec, extension and bitrate joined
      with underscores. */
  function AudioKey(f: Format): string {
    f.acodec + "_" + f.ext + "_" + NumText(f.abr)
  }

  function AudioKeyOf(f: Format): Option<string> {
    Some(AudioKey(f))
  }

  /** The menu line of a video entry: height, extension and the first ten
      characters of the codec label. */
  function VideoDescription(f: Format): string {
    IntToString(IntOrZero(f.height)) + "p " + f.ext + " " + Take(f.codec, 10)
  }

  function VideoEntry(num: int, f: Format): SelectionOption {
    SelectionOption(num, VideoOption, IntToString(IntOrZero(f.height)), false, None, VideoDescription(f), f)
  }

  /** The menu line of an audio entry: extension, audio codec and bitrate. */
  function AudioDescription(f: Format): string {
    "Audio " + f.ext + " " + f.acodec + " " + NumText(f.abr) + "kbps"
  }

  function AudioEntry(num: int, f: Format): SelectionOption {
    SelectionOption(num, AudioOption, "best", true, Some(f.ext), AudioDescription(f), f)
  }

  /** Video entries for the picked records, numbered from 1. */
  function VideoEntries(picks: seq<Format>): seq<SelectionOption> {
    seq(|picks|, i requires 0 <= i < |picks| => VideoEntry(i + 1, picks[i]))
  }

  /** Audio entries for the picked records, numbered from `base`. */
  function AudioEntries(picks: seq<Format>, base: int): seq<SelectionOption> {
    seq(|picks|, i requires 0 <= i < |picks| => AudioEntry(base + i, picks[i]))
  }

  /** The video records that get a menu line. */
  function VideoPicks(formats: seq<Format>): seq<Format> {
    Picks(VideoFormats(formats), VideoKey)
  }

  /** The audio records that get a menu line: only the first three Audio
      Only records are looked at. */
  function AudioPicks(formats: seq<Format>): seq<Format> {
    Picks(Take(AudioFormats(formats), 3), AudioKeyOf)
  }

  /** The whole menu for a catalog. */
  function MenuOptions(formats: seq<Format>): seq<SelectionOption> {
    var vp := VideoPicks(formats);
    VideoEntries(vp) + AudioEntries(AudioPicks(formats), |vp| + 1)
  }

  // ---------------------------------------------------------------------
  // The loops

  /** downloader_service.py:177-223: the video entries, then the audio
      entries numbered on from the running counter. */
  method BuildOptions(formats: seq<Format>) returns (options: seq<SelectionOption>)
    ensures options == MenuOptions(formats)
  {
    var video := BuildVideoOptions(VideoFormats(formats));
    var audio := BuildAudioOptions(Take(AudioFormats(formats), 3), |video| + 1);
    MenuJoin(formats, video, audio);
    options := video + audio;
  }

  /** The two loops' lists, joined, are the menu. */
  lemma MenuJoin(formats: seq<Format>, video: seq<SelectionOption>, audio: seq<SelectionOption>)
    requires video == VideoEntries(VideoPicks(formats))
    requires audio == AudioEntries(AudioPicks(formats), |video| + 1)
    ensures video + audio == MenuOptions(formats)
  {
  }

  /** The video loop: walk the video records keeping the set of heights
      already shown; a record with a falsy height is skipped. */
  method BuildVideoOptions(videoFormats: seq<Format>) returns (options: seq<SelectionOption>)
    ensures options == VideoEntries(Picks(videoFormats, VideoKey))
  {
    options := [];
    var optionNum := 1;
    var resolutionsShown: set<int> := {};
    ghost var picks: seq<Format> := [];
    for i := 0 to |videoFormats|
      invariant picks == Picks(videoFormats[..i], VideoKey)
      invariant options == VideoEntries(picks)
      invariant resolutionsShown == Keys(picks, VideoKey)
      invariant optionNum == |picks| + 1
    {
      var fmt := videoFormats[i];
      PicksStep(videoFormats, i, VideoKey);
      VideoEntriesAppend(picks, fmt);
      if IntTruthy(fmt.height) && fmt.height.value !in resolutionsShown {
        resolutionsShown := resolutionsShown + {fmt.height.value};
        options := options + [VideoEntry(optionNum, fmt)];
        optionNum := optionNum + 1;
        picks := picks + [fmt];
      }
    }
    assert videoFormats[..|videoFormats|] == videoFormats;
  }

  /** The audio loop over (at most three) audio records, keeping the set
      of keys already shown and numbering from `firstNum`. */
  method BuildAudioOptions(audioFormats: seq<Format>, firstNum: int) returns (options: seq<SelectionOption>)
    ensures options == AudioEntries(Picks(audioFormats, AudioKeyOf), firstNum)
  {
    options := [];
    var optionNum := firstNum;
    var audioShown: set<string> := {};
    ghost var picks: seq<Format> := [];
    for i := 0 to |audioFormats|
      invariant picks == Picks(audioFormats[..i], AudioKeyOf)
      invariant options == AudioEntries(picks, firstNum)
      invariant audioShown == Keys(picks, AudioKeyOf)
      invariant optionNum == firstNum + |picks|
    {
      var fmt := audioFormats[i];
      AudioStep(audioFormats, i, firstNum);
      var formatKey := AudioKey(fmt);
      if formatKey !in audioShown {
        AudioTurn(options, picks, fmt, firstNum, optionNum);
        audioShown := audioShown + {formatKey};
        options := options + [AudioEntry(optionNum, fmt)];
        optionNum := optionNum + 1;
        picks := picks + [fmt];
      }
    }
    assert audioFormats[..|audioFormats|] == audioFormats;
  }

  /** One turn of the audio loop: a record with an unseen key is picked
      and gets the next number; a record with a seen key is skipped. */
  lemma AudioStep(audioFormats: seq<Format>, i: nat, firstNum: int)
    requires i < |audioFormats|
    ensures var picks := Picks(audioFormats[..i], AudioKeyOf);
      var fmt := audioFormats[i];
      && (AudioKey(fmt) !in Keys(picks, AudioKeyOf) ==>
            && Picks(audioFormats[..i + 1], AudioKeyOf) == picks + [fmt]
            && Keys(picks + [fmt], AudioKeyOf) == Keys(picks, AudioKeyOf) + {AudioKey(fmt)})
      && (AudioKey(fmt) in Keys(picks, AudioKeyOf) ==> Picks(audioFormats[..i + 1], AudioKeyOf) == picks)
  {
    PicksStep(audioFormats, i, AudioKeyOf);
  }

  lemma AudioTurn(options: seq<SelectionOption>, picks: seq<Format>, fmt: Format, firstNum: int, optionNum: int)
    requires options == AudioEntries(picks, firstNum) && optionNum == firstNum + |picks|
    ensures options + [AudioEntry(optionNum, fmt)] == AudioEntries(picks + [fmt], firstNum)
  {
    AudioEntriesAppend(picks, fmt, firstNum);
  }

  lemma VideoEntriesAppend(picks: seq<Format>, f: Format)
    ensures VideoEntries(picks + [f]) == VideoEntries(picks) + [VideoEntry(|picks| + 1, f)]
  {
  }

  lemma AudioEntriesAppend(picks: seq<Format>, f: Format, base: int)
    ensures AudioEntries(picks + [f], base) == AudioEntries(picks, base) + [AudioEntry(base + |picks|, f)]
  {
  }

  // ---------------------------------------------------------------------
  // Filters

  /** The video list holds exactly the Video+Audio and Video Only records. */
  lemma {:induction false} VideoFormatsMembers(formats: seq<Format>)
    ensures |VideoFormats(formats)| <= |formats|
    ensures forall x :: x in VideoFormats(formats) <==> x in formats && IsVideo(x.kind)
  {
    if formats != [] {
      VideoFormatsMembers(formats[1..]);
      assert formats == [formats[0]] + formats[1..];
    }
  }

  /** The audio list holds exactly the Audio Only records. */
  lemma {:induction false} AudioFormatsMembers(formats: seq<Format>)
    ensures |AudioFormats(formats)| <= |formats|
    ensures forall x :: x in AudioFormats(formats) <==> x in formats && x.kind == AudioOnly
  {
    if formats != [] {
      AudioFormatsMembers(formats[1..]);
      assert formats == [formats[0]] + formats[1..];
    }
  }

  // ---------------------------------------------------------------------
  // The menu

  /** The picked video records are video records of the catalog with a
      truthy height. */
  lemma VideoPicksFacts(formats: seq<Format>)
    ensures forall i :: 0 <= i < |VideoPicks(formats)| ==>
      var f := VideoPicks(formats)[i];
      IntTruthy(f.height) && f in formats && IsVideo(f.kind)
  {
    var v := VideoFormats(formats);
    PicksMembers(v, VideoKey);
    VideoFormatsMembers(formats);
  }

  /** The picked audio records are among the first three Audio Only
      records of the catalog. */
  lemma AudioPicksFacts(formats: seq<Format>)
    ensures |AudioPicks(formats)| <= 3
    ensures forall i :: 0 <= i < |AudioPicks(formats)| ==>
      var f := AudioPicks(formats)[i];
      f in Take(AudioFormats(formats), 3) && f.kind == AudioOnly
  {
    var a := Take(AudioFormats(formats), 3);
    PicksMembers(a, AudioKeyOf);
    AudioFormatsMembers(formats);
  }

  /** Video entries for `vp` followed by audio entries for `ap` numbered
      on from them: entry `i` is built from the `i`-th record. */
  lemma EntriesLayout(vp: seq<Format>, ap: seq<Format>)
    ensures var options := VideoEntries(vp) + AudioEntries(ap, |vp| + 1);
      && |options| == |vp| + |ap|
      && (forall i :: 0 <= i < |vp| ==> options[i] == VideoEntry(i + 1, vp[i]))
      && (forall i :: |vp| <= i < |options| ==> options[i] == AudioEntry(i + 1, ap[i - |vp|]))
  {
  }

  /** The menu is the video entries for the video picks followed by the
      audio entries for the audio picks. */
  lemma MenuLayout(formats: seq<Format>)
    ensures var options := MenuOptions(formats);
      var nv := |VideoPicks(formats)|;
      && |options| == nv + |AudioPicks(formats)|
      && (forall i :: 0 <= i < nv ==> options[i] == VideoEntry(i + 1, VideoPicks(formats)[i]))
      && (forall i :: nv <= i < |options| ==> options[i] == AudioEntry(i + 1, AudioPicks(formats)[i - nv]))
  {
    EntriesLayout(VideoPicks(formats), AudioPicks(formats));
  }

  /** Options are numbered 1, 2, 3, ... in order: the video options first,
      then at most three audio options. */
  lemma MenuNumbering(formats: seq<Format>)
    ensures var options := MenuOptions(formats);
      && |VideoPicks(formats)| <= |options| <= |VideoPicks(formats)| + 3
      && forall i :: 0 <= i < |options| ==> options[i].num == i + 1
  {
    MenuLayout(formats);
    AudioPicksFacts(formats);
  }

  /** Each video option asks for its record's height, which is truthy, as
      quality; it is not audio-only and carries no output format; its record
      is a Video+Audio or Video Only record of the catalog. */
  lemma MenuVideoOptions(formats: seq<Format>)
    ensures var options := MenuOptions(formats);
      forall i :: 0 <= i < |VideoPicks(formats)| ==>
        && options[i].optType == VideoOption
        && IntTruthy(options[i].format.height)
        && options[i].quality == IntToString(options[i].format.height.value)
        && !options[i].audioOnly && options[i].outputFormat == None
        && options[i].format in formats && IsVideo(options[i].format.kind)
  {
    MenuLayout(formats);
    VideoPicksFacts(formats);
  }

  /** No two video options share a height, so no two share a quality. */
  lemma MenuVideoDistinct(formats: seq<Format>)
    ensures var options := MenuOptions(formats);
      forall i, j :: 0 <= i < j < |VideoPicks(formats)| ==>
        options[i].format.height != options[j].format.height && options[i].quality != options[j].quality
  {
    var vp := VideoPicks(formats);
    var options := MenuOptions(formats);
    MenuLayout(formats);
    VideoPicksFacts(formats);
    PicksDistinct(VideoFormats(formats), VideoKey);
    forall i, j | 0 <= i < j < |vp|
      ensures options[i].format.height != options[j].format.height && options[i].quality != options[j].quality
    {
      assert VideoKey(vp[i]) != VideoKey(vp[j]);
      IntToStringInjective(vp[i].height.value, vp[j].height.value);
    }
  }

  /** Every video record of the catalog with a truthy height has its height
      on the menu. */
  lemma MenuVideoComplete(formats: seq<Format>)
    ensures var options := MenuOptions(formats);
      forall f :: f in formats && IsVideo(f.kind) && IntTruthy(f.height) ==>
        exists i :: 0 <= i < |VideoPicks(formats)| && options[i].format.height == f.height
  {
    var v := VideoFormats(formats);
    var vp := VideoPicks(formats);
    var options := MenuOptions(formats);
    MenuLayout(formats);
    VideoFormatsMembers(formats);
    forall f | f in formats && IsVideo(f.kind) && IntTruthy(f.height)
      ensures exists i :: 0 <= i < |vp| && options[i].format.height == f.height
    {
      var k :| 0 <= k < |v| && v[k] == f;
      var i := PickOf(v, k, VideoKey);
      assert options[i].format == vp[i];
    }
  }

  /** Each video option is built from the first video record of its
      height: no video record of that height comes earlier in the catalog. */
  lemma MenuVideoFirstSeen(formats: seq<Format>)
    ensures var options := MenuOptions(formats);
      var v := VideoFormats(formats);
      forall i, m :: 0 <= i < |VideoPicks(formats)| && 0 <= m < |v| && v[m].height == options[i].format.height ==>
        options[i].format in v[..m + 1]
  {
    var v := VideoFormats(formats);
    var vp := VideoPicks(formats);
    var options := MenuOptions(formats);
    MenuLayout(formats);
    VideoPicksFacts(formats);
    PicksFirst(v, VideoKey);
    forall i, m | 0 <= i < |vp| && 0 <= m < |v| && v[m].height == options[i].format.height
      ensures options[i].format in v[..m + 1]
    {
      assert options[i].format == vp[i];
      assert VideoKey(v[m]) == VideoKey(vp[i]);
    }
  }

  /** Each audio option asks for the best audio-only download converted to
      its record's own extension; its record is one of the first three
      Audio Only records of the catalog. */
  lemma MenuAudioOptions(formats: seq<Format>)
    ensures var options := MenuOptions(formats);
      forall i :: |VideoPicks(formats)| <= i < |options| ==>
        && options[i].optType == AudioOption
        && options[i].quality == "best" && options[i].audioOnly
        && options[i].outputFormat == Some(options[i].format.ext)
        && options[i].format in Take(AudioFormats(formats), 3)
        && options[i].format.kind == AudioOnly
  {
    MenuLayout(formats);
    AudioPicksFacts(formats);
  }

  /** The audio part of the menu, as far as formats go: past the video
      options, option `i` carries the audio pick number `i - nv`. */
  lemma MenuAudioPart(formats: seq<Format>)
    ensures var options := MenuOptions(formats);
      var nv := |VideoPicks(formats)|;
      && |options| == nv + |AudioPicks(formats)|
      && forall i :: nv <= i < |options| ==> options[i].format == AudioPicks(formats)[i - nv]
  {
    MenuLayout(formats);
  }

  /** No two audio options share an audio key. */
  lemma MenuAudioDistinct(formats: seq<Format>)
    ensures var options := MenuOptions(formats);
      forall i, j :: |VideoPicks(formats)| <= i < j < |options| ==>
        AudioKey(options[i].format) != AudioKey(options[j].format)
  {
    MenuAudioPart(formats);
    AudioPicksDistinct(formats);
    TailDistinct(MenuOptions(formats), |VideoPicks(formats)|, AudioPicks(formats), AudioKey);
  }

  /** Options past position `nv` carry the formats `picks` in order, so
      keys that differ among the picks differ among those options. */
  lemma TailDistinct<K>(options: seq<SelectionOption>, nv: nat, picks: seq<Format>, key: Format -> K)
    requires |options| == nv + |picks|
    requires forall i :: nv <= i < |options| ==> options[i].format == picks[i - nv]
    requires forall p, q :: 0 <= p < q < |picks| ==> key(picks[p]) != key(picks[q])
    ensures forall i, j :: nv <= i < j < |options| ==> key(options[i].format) != key(options[j].format)
  {
    forall i, j | nv <= i < j < |options| ensures key(options[i].format) != key(options[j].format) {
      assert options[i].format == picks[i - nv] && options[j].format == picks[j - nv];
    }
  }


  /** The audio picks themselves have pairwise different audio keys. */
  lemma AudioPicksDistinct(formats: seq<Format>)
    ensures var ap := AudioPicks(formats);
      forall p, q :: 0 <= p < q < |ap| ==> AudioKey(ap[p]) != AudioKey(ap[q])
  {
    var ap := AudioPicks(formats);
    PicksDistinct(Take(AudioFormats(formats), 3), AudioKeyOf);
    forall p, q | 0 <= p < q < |ap| ensures AudioKey(ap[p]) != AudioKey(ap[q]) {
      assert AudioKeyOf(ap[p]) != AudioKeyOf(ap[q]);
    }
  }


  /** Every one of the first three Audio Only records has its audio key on
      the menu. */
  lemma MenuAudioComplete(formats: seq<Format>)
    ensures var options := MenuOptions(formats);
      forall f :: f in Take(AudioFormats(formats), 3) ==>
        exists i :: |VideoPicks(formats)| <= i < |options| && AudioKey(options[i].format) == AudioKey(f)
  {
    MenuAudioPart(formats);
    TailCovers(MenuOptions(formats), |VideoPicks(formats)|, Take(AudioFormats(formats), 3));
  }

  /** Options past position `nv` carry the first-seen picks of `a` in
      order, so every record of `a` shares its audio key with one of them. */
  lemma TailCovers(options: seq<SelectionOption>, nv: nat, a: seq<Format>)
    requires |options| == nv + |Picks(a, AudioKeyOf)|
    requires forall i :: nv <= i < |options| ==> options[i].format == Picks(a, AudioKeyOf)[i - nv]
    ensures forall f :: f in a ==> exists i :: nv <= i < |options| && AudioKey(options[i].format) == AudioKey(f)
  {
    forall f | f in a ensures exists i :: nv <= i < |options| && AudioKey(options[i].format) == AudioKey(f) {
      var k :| 0 <= k < |a| && a[k] == f;
      var p := PickOf(a, k, AudioKeyOf);
      assert options[nv + p].format == Picks(a, AudioKeyOf)[p];
    }
  }



  /** The audio key joins three strings with `_`, so two different
      encodings can share it: an `a_b`/`c` record hides a later `a`/`b_c`
      record of the same bitrate. */
  lemma AudioKeyCollision(f: Format, g: Format)
    requires f.acodec == "a_b" && f.ext == "c" && g.acodec == "a" && g.ext == "b_c"
    requires f.abr == g.abr
    ensures f != g && AudioKey(f) == AudioKey(g)
    ensures Picks([f, g], AudioKeyOf) == [f]
  {
    assert AudioKey(f) == "a_b_c_" + NumText(f.abr);
    assert AudioKey(g) == "a_b_c_" + NumText(g.abr);
    assert f.acodec != g.acodec by { assert |f.acodec| != |g.acodec|; }
    assert [f][..0] == [];
    assert Picks([f], AudioKeyOf) == [f];
    assert Keys([f], AudioKeyOf) == {AudioKey(f)};
    assert [f, g][..1] == [f];
  }
}
