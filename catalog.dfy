/** The format catalog normaliser of `YouTubeDownloaderService.get_available_formats`:
    every raw stream descriptor reported by the extractor is classified as
    Video+Audio, Video Only or Audio Only (or dropped when it has neither
    codec), labelled with a quality, a codec and a size in MB, and the kept
    records are stably sorted by type priority and descending height. */
module Catalog {
  import opened Common
  import StableSort

  /** A number from the extractor that the program only interpolates into
      text (frame rate, audio bitrate): its printed form and whether Python
      treats it as true, i.e. whether it is non-zero. */
  datatype Num = Num(text: string, nonZero: bool)

  predicate NumTruthy(x: Option<Num>) {
    x.Some? && x.value.nonZero
  }

  /** `f"{x}"`: a missing value prints as `None`. */
  function NumText(x: Option<Num>): string {
    if x.Some? then x.value.text else "None"
  }

  /** One stream descriptor as the extractor reports it; `None` is a key the
      descriptor does not have, and `others` holds the keys the program never
      reads, with their printed values, so that two descriptors are equal
      exactly when their whole dictionaries are. */
  datatype RawFormat = RawFormat(
    formatId: Option<string>,
    ext: Option<string>,
    vcodec: Option<string>,
    acodec: Option<string>,
    height: Option<int>,
    width: Option<int>,
    fps: Option<Num>,
    filesize: Option<int>,
    abr: Option<Num>,
    formatNote: Option<string>,
    url: Option<string>,
    others: map<string, string>)

  datatype Kind = VideoAudio | VideoOnly | AudioOnly

  /** The `type` string stored in each record. */
  function KindLabel(k: Kind): string {
    match k
    case VideoAudio => "Video+Audio"
    case VideoOnly => "Video Only"
    case AudioOnly => "Audio Only"
  }

  predicate IsVideo(k: Kind) {
    k == VideoAudio || k == VideoOnly
  }

  /** A processed record, as built at downloader_service.py:102-149. */
  datatype Format = Format(
    id: Option<string>,
    ext: string,
    vcodec: string,
    acodec: string,
    height: Option<int>,
    width: Option<int>,
    fps: Option<Num>,
    filesize: Option<int>,
    abr: Option<Num>,
    formatNote: string,
    url: string,
    kind: Kind,
    quality: string,
    codec: string,
    sizeMb: int,
    raw: RawFormat)

  /** `dict.get(key, default)` for a string-valued key. */
  function GetOr(x: Option<string>, default: string): (r: string)
    ensures x.None? ==> r == default
    ensures x.Some? ==> r == x.value
  {
    if x.Some? then x.value else default
  }

  /** Type of a descriptor from its (defaulted) codecs; `None` means dropped. */
  function Classify(vcodec: string, acodec: string): Option<Kind> {
    if vcodec != "none" && acodec != "none" then Some(VideoAudio)
    else if vcodec != "none" then Some(VideoOnly)
    else if acodec != "none" then Some(AudioOnly)
    else None
  }

  function QualityLabel(height: Option<int>, fps: Option<Num>, abr: Option<Num>): string {
    if IntTruthy(height) then
      IntToString(height.value) + "p" + (if NumTruthy(fps) then " " + NumText(fps) + "fps" else "")
    else if NumTruthy(abr) then NumText(abr) + "kbps"
    else "Unknown"
  }

  function CodecLabel(kind: Kind, vcodec: string, acodec: string): string {
    if kind == AudioOnly then acodec else vcodec
  }

  /** `filesize // 1024 // 1024` when the size is truthy, else 0. */
  function SizeMb(filesize: Option<int>): int {
    if IntTruthy(filesize) then filesize.value / 1024 / 1024 else 0
  }

  /** The record kept for one descriptor, or `None` when it is skipped. */
  function Normalize(r: RawFormat): Option<Format> {
    var vcodec := GetOr(r.vcodec, "none");
    var acodec := GetOr(r.acodec, "none");
    match Classify(vcodec, acodec)
    case None => None
    case Some(kind) =>
      Some(Format(r.formatId, GetOr(r.ext, "unknown"), vcodec, acodec, r.height, r.width,
                  r.fps, r.filesize, r.abr, GetOr(r.formatNote, ""), GetOr(r.url, ""), kind, QualityLabel(r.height, r.fps, r.abr),
                  CodecLabel(kind, vcodec, acodec), SizeMb(r.filesize), r))
  }

  /** The records appended by the loop, in extractor order. */
  function Kept(raws: seq<RawFormat>): seq<Format> {
    if raws == [] then []
    else
      var n := |raws|;
      match Normalize(raws[n - 1])
      case None => Kept(raws[..n - 1])
      case Some(f) => Kept(raws[..n - 1]) + [f]
  }

  function Priority(k: Kind): int {
    match k
    case VideoAudio => 0
    case VideoOnly => 1
    case AudioOnly => 2
  }

  /** `sort_key`: type priority first, then height descending (missing as 0). */
  function RankKey(f: Format): StableSort.Key {
    (Priority(f.kind), -IntOrZero(f.height))
  }

  /** The list `get_available_formats` returns for the extractor's descriptors. */
  function Catalog(raws: seq<RawFormat>): seq<Format> {
    StableSort.Sort(Kept(raws), RankKey)
  }

  /** The loop of downloader_service.py:99-157: append each kept record,
      then sort the list in place by `sort_key`. */
  method ProcessFormats(raws: seq<RawFormat>) returns (formats: seq<Format>)
    ensures formats == Catalog(raws)
  {
    formats := [];
    for i := 0 to |raws|
      invariant formats == Kept(raws[..i])
    {
      var f := raws[i];
      var vcodec := GetOr(f.vcodec, "none");
      var acodec := GetOr(f.acodec, "none");
      var kind: Option<Kind>;
      if vcodec != "none" && acodec != "none" {
        kind := Some(VideoAudio);
      } else if vcodec != "none" {
        kind := Some(VideoOnly);
      } else if acodec != "none" {
        kind := Some(AudioOnly);
      } else {
        kind := None;
      }
      assert raws[..i + 1][..i] == raws[..i];
      if kind.Some? {
        var quality: string;
        if IntTruthy(f.height) {
          quality := IntToString(f.height.value) + "p";
          if NumTruthy(f.fps) {
            quality := quality + " " + NumText(f.fps) + "fps";
          }
        } else if NumTruthy(f.abr) {
          quality := NumText(f.abr) + "kbps";
        } else {
          quality := "Unknown";
        }
        var codec := if kind.value == AudioOnly then acodec else vcodec;
        var sizeMb := if IntTruthy(f.filesize) then f.filesize.value / 1024 / 1024 else 0;
        var record := Format(f.formatId, GetOr(f.ext, "unknown"), vcodec, acodec,
                             f.height, f.width, f.fps, f.filesize, f.abr,
                             GetOr(f.formatNote, ""), GetOr(f.url, ""), kind.value,
                             quality, codec, sizeMb, f);
        assert quality == QualityLabel(f.height, f.fps, f.abr);
        assert Normalize(f) == Some(record);
        formats := formats + [record];
      } else {
        assert Normalize(f) == None;
      }
    }
    assert raws[..|raws|] == raws;
    formats := StableSort.Sort(formats, RankKey);
  }

  // ---------------------------------------------------------------------
  // Properties of one record

  /** Missing codecs count as "none"; the type is Video+Audio iff both are
      present, Video Only / Audio Only iff exactly one is, and the record is
      dropped iff neither is. */
  lemma NormalizeKind(r: RawFormat)
    ensures var v, a := GetOr(r.vcodec, "none"), GetOr(r.acodec, "none");
      && (Normalize(r).None? <==> v == "none" && a == "none")
      && (Normalize(r).Some? ==>
          && (Normalize(r).value.kind == VideoAudio <==> v != "none" && a != "none")
          && (Normalize(r).value.kind == VideoOnly <==> v != "none" && a == "none")
          && (Normalize(r).value.kind == AudioOnly <==> v == "none" && a != "none"))
  {
  }

  /** Labels of a kept record: quality from height (with fps), else bitrate,
      else "Unknown"; codec is the audio codec for Audio Only and the video
      codec otherwise; the other fields are copied or defaulted. */
  lemma NormalizeLabels(r: RawFormat)
    requires Normalize(r).Some?
    ensures var f := Normalize(r).value;
      && f.id == r.formatId && f.height == r.height && f.raw == r
      && f.ext == GetOr(r.ext, "unknown")
      && f.formatNote == GetOr(r.formatNote, "") && f.url == GetOr(r.url, "")
      && (IntTruthy(r.height) && NumTruthy(r.fps) ==>
            f.quality == IntToString(r.height.value) + "p " + r.fps.value.text + "fps")
      && (IntTruthy(r.height) && !NumTruthy(r.fps) ==> f.quality == IntToString(r.height.value) + "p")
      && (!IntTruthy(r.height) && NumTruthy(r.abr) ==> f.quality == r.abr.value.text + "kbps")
      && (!IntTruthy(r.height) && !NumTruthy(r.abr) ==> f.quality == "Unknown")
      && (f.kind == AudioOnly ==> f.codec == f.acodec)
      && (f.kind != AudioOnly ==> f.codec == f.vcodec)
  {
    var f := Normalize(r).value;
    if IntTruthy(r.height) && NumTruthy(r.fps) {
      assert IntToString(r.height.value) + "p" + (" " + r.fps.value.text + "fps")
          == IntToString(r.height.value) + "p " + r.fps.value.text + "fps";
    }
  }

  /** Floor division twice by 1024 is floor division by 1 MiB: the size is
      the number of whole mebibytes in the file size (0 when unknown). */
  lemma SizeMbIsMebibytes(filesize: Option<int>)
    ensures IntTruthy(filesize) ==>
      SizeMb(filesize) * 1048576 <= filesize.value < SizeMb(filesize) * 1048576 + 1048576
    ensures !IntTruthy(filesize) ==> SizeMb(filesize) == 0
  {
    if IntTruthy(filesize) {
      var n := filesize.value;
      var q1 := n / 1024;
      var q2 := q1 / 1024;
      assert q1 * 1024 <= n < q1 * 1024 + 1024;
      assert q2 * 1024 <= q1 < q2 * 1024 + 1024;
      assert q2 * 1048576 == (q2 * 1024) * 1024;
      assert q2 * 1024 * 1024 <= q1 * 1024;
      assert q1 * 1024 + 1024 <= (q2 * 1024 + 1024) * 1024;
    }
  }

  // ---------------------------------------------------------------------
  // Properties of the whole catalog

  /** The kept records are exactly the normalised descriptors that were not
      dropped, in extractor order. */
  lemma {:induction false} KeptExactly(raws: seq<RawFormat>)
    ensures forall f :: f in Kept(raws) <==> exists r :: r in raws && Normalize(r) == Some(f)
    ensures |Kept(raws)| <= |raws|
  {
    if raws != [] {
      var n := |raws|;
      KeptExactly(raws[..n - 1]);
      assert raws == raws[..n - 1] + [raws[n - 1]];
      forall f ensures f in Kept(raws) <==> exists r :: r in raws && Normalize(r) == Some(f) {
        if f in Kept(raws) {
          if f in Kept(raws[..n - 1]) {
            var r :| r in raws[..n - 1] && Normalize(r) == Some(f);
            assert r in raws;
          } else {
            assert Normalize(raws[n - 1]) == Some(f);
          }
        }
        if r :| r in raws && Normalize(r) == Some(f) {
          if r in raws[..n - 1] {
          } else {
            assert r == raws[n - 1];
          }
        }
      }
    }
  }

  /** Every record in the catalog has exactly one of the three types, and
      that type agrees with its defaulted codecs. */
  lemma CatalogKinds(raws: seq<RawFormat>)
    ensures forall f :: f in Catalog(raws) ==>
      && !(f.vcodec == "none" && f.acodec == "none")
      && (f.kind == VideoAudio <==> f.vcodec != "none" && f.acodec != "none")
      && (f.kind == VideoOnly <==> f.vcodec != "none" && f.acodec == "none")
      && (f.kind == AudioOnly <==> f.vcodec == "none" && f.acodec != "none")
  {
    StableSort.SortPermutes(Kept(raws), RankKey);
    KeptExactly(raws);
    forall f | f in Catalog(raws)
      ensures && !(f.vcodec == "none" && f.acodec == "none")
              && (f.kind == VideoAudio <==> f.vcodec != "none" && f.acodec != "none")
              && (f.kind == VideoOnly <==> f.vcodec != "none" && f.acodec == "none")
              && (f.kind == AudioOnly <==> f.vcodec == "none" && f.acodec != "none")
    {
      assert f in multiset(Catalog(raws));
      assert f in Kept(raws);
      var r :| r in raws && Normalize(r) == Some(f);
    }
  }

  /** The catalog is a permutation of the kept records, ordered by type
      priority (Video+Audio, Video Only, Audio Only) and then by height
      descending with a missing or zero height counted as 0; records with
      equal keys keep extractor order. */
  lemma CatalogOrder(raws: seq<RawFormat>)
    ensures multiset(Catalog(raws)) == multiset(Kept(raws))
    ensures var c := Catalog(raws);
      forall i, j :: 0 <= i < j < |c| ==>
        Priority(c[i].kind) < Priority(c[j].kind)
        || (Priority(c[i].kind) == Priority(c[j].kind) && IntOrZero(c[i].height) >= IntOrZero(c[j].height))
    ensures forall k :: StableSort.WithKey(Catalog(raws), RankKey, k) == StableSort.WithKey(Kept(raws), RankKey, k)
  {
    StableSort.SortPermutes(Kept(raws), RankKey);
    StableSort.SortSorted(Kept(raws), RankKey);
    forall k ensures StableSort.WithKey(Catalog(raws), RankKey, k) == StableSort.WithKey(Kept(raws), RankKey, k) {
      StableSort.SortStable(Kept(raws), RankKey, k);
    }
  }
}
