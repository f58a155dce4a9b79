/**
 * The Cloudinary URL transformer: it inserts a fixed-order list of
 * transformation segments after `/upload/` in a Cloudinary delivery URL,
 * and a few presets (profile, card, blur placeholder, hero, logo, srcset,
 * batch) built on it. Numbers are integers.
 */
module Cloudinary {
  import opened Wrappers
  import opened Strings

  /** An option that is either `"auto"` or a number. */
  datatype Setting = Auto | Fixed(n: int)

  /** `OptimizationOptions`; `None` is an option left out, which takes its default. */
  datatype Options = Options(quality: Option<Setting>, dpr: Option<Setting>, format: Option<string>,
                             gravity: Option<string>, crop: Option<string>, width: Option<int>,
                             height: Option<int>, radius: Option<int>, aspectRatio: Option<string>)

  const NoOptions: Options := Options(None, None, None, None, None, None, None, None, None)

  const SizesHero: seq<int> := [320, 640, 1024, 1440, 1920]
  const SizesCard: seq<int> := [280, 400, 500]
  const SizesThumbnail: seq<int> := [80, 120, 150]
  const SizesProfile: seq<int> := [200, 300, 400]

  /** JavaScript truthiness of an optional number and an optional string. */
  predicate Set(n: Option<int>) {
    n.Some? && n.value != 0
  }

  predicate SetText(s: Option<string>) {
    s.Some? && s.value != ""
  }

  /** `Math.max(lo, Math.min(hi, n))`. */
  function Clamp(lo: int, hi: int, n: int): (r: int)
    requires lo <= hi
    ensures lo <= r <= hi
    ensures lo <= n <= hi ==> r == n
    ensures n < lo ==> r == lo
    ensures n > hi ==> r == hi
  {
    if n > hi then hi else if n < lo then lo else n
  }

  /** `isCloudinaryUrl`: the two host tests; the second is implied by the first. */
  function IsCloudinaryUrl(url: string): (r: bool)
    ensures r <==> Contains(url, "cloudinary.com")
  {
    var r := Contains(url, "cloudinary.com") || Contains(url, "res.cloudinary.com");
    assert Contains(url, "res.cloudinary.com") ==> Contains(url, "cloudinary.com") by {
      if Contains(url, "res.cloudinary.com") {
        ResHostIsCloudinary(url);
      }
    }
    r
  }

  /** The second host test adds nothing: every `res.cloudinary.com` URL contains `cloudinary.com`. */
  lemma ResHostIsCloudinary(url: string)
    requires Contains(url, "res.cloudinary.com")
    ensures Contains(url, "cloudinary.com")
  {
    var j :| 0 <= j <= |url| - 18 && OccursAt(url, "res.cloudinary.com", j);
    assert url[j + 4..j + 18] == url[j..j + 18][4..];
    assert OccursAt(url, "cloudinary.com", j + 4);
  }

  /** 1. `f_auto`, only for the format `avif` (the default). */
  function FormatSegment(o: Options): seq<string> {
    if o.format.GetOr("avif") == "avif" then ["f_auto"] else []
  }

  /** 2. Quality: `q_auto:eco` (the default), or the number clamped to 1..100. */
  function QualitySegment(o: Options): (r: seq<string>)
    ensures |r| == 1
  {
    match o.quality.GetOr(Auto)
    case Auto => ["q_auto:eco"]
    case Fixed(n) => ["q_" + IntToString(Clamp(1, 100, n))]
  }

  /** 3. Device pixel ratio: `dpr_auto` (the default), or the number clamped to 1..3. */
  function DprSegment(o: Options): (r: seq<string>)
    ensures |r| == 1
  {
    match o.dpr.GetOr(Auto)
    case Auto => ["dpr_auto"]
    case Fixed(n) => ["dpr_" + IntToString(Clamp(1, 3, n))]
  }

  /** 4. Gravity: `g_face` for `face`, nothing for `center`, else `g_` and the value (the default is `auto`). */
  function GravitySegment(o: Options): (r: seq<string>)
    ensures o.gravity.None? ==> r == ["g_auto"]
    ensures o.gravity == Some("center") ==> r == []
  {
    var g := o.gravity.GetOr("auto");
    assert "g_" + "auto" == "g_auto";
    if g == "face" then ["g_face"]
    else if g != "" && g != "center" then ["g_" + g]
    else []
  }

  /** 5. Crop mode, `fill` by default. */
  function CropSegment(o: Options): seq<string> {
    var c := o.crop.GetOr("fill");
    if c != "" then ["c_" + c] else []
  }

  /** 6. Size: width, height and aspect ratio; width and height; or width alone. A height without a width is dropped. */
  function SizeSegment(o: Options): (r: seq<string>)
    ensures !Set(o.width) ==> r == []
    ensures Set(o.width) && !Set(o.height) ==> r == ["w_" + IntToString(o.width.value)]
  {
    if Set(o.width) && Set(o.height) && SetText(o.aspectRatio) then
      ["w_" + IntToString(o.width.value) + ",h_" + IntToString(o.height.value) + ",ar_" + o.aspectRatio.value]
    else if Set(o.width) && Set(o.height) then
      ["w_" + IntToString(o.width.value) + ",h_" + IntToString(o.height.value)]
    else if Set(o.width) then ["w_" + IntToString(o.width.value)]
    else []
  }

  /** 7. Corner radius. */
  function RadiusSegment(o: Options): seq<string> {
    if Set(o.radius) then ["r_" + IntToString(o.radius.value)] else []
  }

  /** The transformation list, in the fixed order format, quality, dpr, gravity, crop, size, radius. */
  function Transformations(o: Options): seq<string> {
    FormatSegment(o) + QualitySegment(o) + DprSegment(o) + GravitySegment(o)
    + CropSegment(o) + SizeSegment(o) + RadiusSegment(o)
  }

  /** The position of a segment's kind in the fixed order, read off its first letter. */
  function Rank(c: char): int {
    if c == 'f' then 0 else if c == 'q' then 1 else if c == 'd' then 2 else if c == 'g' then 3
    else if c == 'c' then 4 else if c == 'w' then 5 else if c == 'r' then 6 else 7
  }

  /** Every segment is non-empty and of kind `k`. */
  predicate OfKind(segs: seq<string>, k: int) {
    forall i | 0 <= i < |segs| :: |segs[i]| > 0 && Rank(segs[i][0]) == k
  }

  /** The segments' kinds strictly increase: the order is fixed and no kind appears twice. */
  predicate InFixedOrder(segs: seq<string>) {
    (forall i | 0 <= i < |segs| :: |segs[i]| > 0)
    && forall i, j | 0 <= i < j < |segs| :: Rank(segs[i][0]) < Rank(segs[j][0])
  }

  /** Every segment's kind is below `k`. */
  predicate Below(segs: seq<string>, k: int) {
    forall i | 0 <= i < |segs| :: |segs[i]| > 0 && Rank(segs[i][0]) < k
  }

  /** Appending at most one segment of a kind after segments of earlier kinds keeps the order. */
  lemma AppendKind(a: seq<string>, b: seq<string>, k: int)
    requires InFixedOrder(a) && Below(a, k) && |b| <= 1 && OfKind(b, k)
    ensures InFixedOrder(a + b) && Below(a + b, k + 1)
  {
  }

  /** Each step pushes only segments of its own kind. */
  lemma SegmentKinds(o: Options)
    ensures OfKind(FormatSegment(o), 0) && OfKind(QualitySegment(o), 1) && OfKind(DprSegment(o), 2)
    ensures OfKind(GravitySegment(o), 3) && OfKind(CropSegment(o), 4) && OfKind(SizeSegment(o), 5)
    ensures OfKind(RadiusSegment(o), 6)
  {
    assert forall t: string :: ("q_" + t)[0] == 'q' && ("dpr_" + t)[0] == 'd' && ("g_" + t)[0] == 'g';
    assert forall t: string :: ("c_" + t)[0] == 'c' && ("w_" + t)[0] == 'w' && ("r_" + t)[0] == 'r';
  }

  /** Every kind comes at most once, in the fixed order, whatever the options. */
  lemma TransformationsInFixedOrder(o: Options)
    ensures InFixedOrder(Transformations(o))
  {
    SegmentKinds(o);
    var t := FormatSegment(o);
    AppendKind([], t, 0);
    assert [] + t == t;
    AppendKind(t, QualitySegment(o), 1);
    t := t + QualitySegment(o);
    AppendKind(t, DprSegment(o), 2);
    t := t + DprSegment(o);
    AppendKind(t, GravitySegment(o), 3);
    t := t + GravitySegment(o);
    AppendKind(t, CropSegment(o), 4);
    t := t + CropSegment(o);
    AppendKind(t, SizeSegment(o), 5);
    t := t + SizeSegment(o);
    AppendKind(t, RadiusSegment(o), 6);
  }

  /** A quality segment is always present, so the list is never empty and the unchanged-URL fallback for an empty list is never taken. */
  lemma TransformationsNeverEmpty(o: Options)
    ensures |Transformations(o)| >= 1 && Join(Transformations(o), "/") != ""
  {
    var t := Transformations(o);
    TransformationsInFixedOrder(o);
    assert |t[0]| > 0;
    if |t| == 1 {
    } else {
      assert Join(t, "/")[..|t[0]|] == t[0];
    }
  }

  /** `optimizeCloudinaryUrl`, as a value: the URL with the transformations inserted after `/upload/`. */
  function OptimizedUrl(url: string, o: Options): (r: string)
    ensures url == "" || !IsCloudinaryUrl(url) || |Split(url, "/upload/")| != 2 ==> r == url
    ensures r != url ==> IsCloudinaryUrl(url) && |Split(url, "/upload/")| == 2
    ensures IsCloudinaryUrl(url) && |Split(url, "/upload/")| == 2 ==>
              r == Split(url, "/upload/")[0] + "/upload/" + Join(Transformations(o), "/") + "/" + Split(url, "/upload/")[1]
  {
    TransformationsNeverEmpty(o);
    if url == "" || !IsCloudinaryUrl(url) then url
    else
      var parts := Split(url, "/upload/");
      if |parts| != 2 then url
      else
        var joined := Join(Transformations(o), "/");
        if joined != "" then parts[0] + "/upload/" + joined + "/" + parts[1] else url
  }

  /** `optimizeCloudinaryUrl`: pushes the segments in order onto a list, then joins them. */
  method OptimizeCloudinaryUrl(url: string, o: Options) returns (r: string)
    ensures r == OptimizedUrl(url, o)
  {
    if url == "" || !IsCloudinaryUrl(url) {
      return url;
    }
    var parts := Split(url, "/upload/");
    if |parts| != 2 {
      return url;
    }
    var transformations: seq<string> := [];
    if o.format.GetOr("avif") == "avif" {
      transformations := transformations + ["f_auto"];
    }
    assert transformations == FormatSegment(o);
    match o.quality.GetOr(Auto) {
      case Auto => transformations := transformations + ["q_auto:eco"];
      case Fixed(n) => transformations := transformations + ["q_" + IntToString(if n > 100 then 100 else if n < 1 then 1 else n)];
    }
    assert transformations == FormatSegment(o) + QualitySegment(o);
    match o.dpr.GetOr(Auto) {
      case Auto => transformations := transformations + ["dpr_auto"];
      case Fixed(n) => transformations := transformations + ["dpr_" + IntToString(if n > 3 then 3 else if n < 1 then 1 else n)];
    }
    assert transformations == FormatSegment(o) + QualitySegment(o) + DprSegment(o);
    var gravity := o.gravity.GetOr("auto");
    if gravity == "face" {
      transformations := transformations + ["g_face"];
    } else if gravity != "" && gravity != "center" {
      transformations := transformations + ["g_" + gravity];
    }
    assert transformations == FormatSegment(o) + QualitySegment(o) + DprSegment(o) + GravitySegment(o);
    var crop := o.crop.GetOr("fill");
    if crop != "" {
      transformations := transformations + ["c_" + crop];
    }
    assert transformations == FormatSegment(o) + QualitySegment(o) + DprSegment(o) + GravitySegment(o) + CropSegment(o);
    if Set(o.width) && Set(o.height) && SetText(o.aspectRatio) {
      transformations := transformations + ["w_" + IntToString(o.width.value) + ",h_" + IntToString(o.height.value) + ",ar_" + o.aspectRatio.value];
    } else if Set(o.width) && Set(o.height) {
      transformations := transformations + ["w_" + IntToString(o.width.value) + ",h_" + IntToString(o.height.value)];
    } else if Set(o.width) {
      transformations := transformations + ["w_" + IntToString(o.width.value)];
    }
    assert transformations == FormatSegment(o) + QualitySegment(o) + DprSegment(o) + GravitySegment(o) + CropSegment(o) + SizeSegment(o);
    if Set(o.radius) {
      transformations := transformations + ["r_" + IntToString(o.radius.value)];
    }
    assert transformations == Transformations(o);
    var joined := Join(transformations, "/");
    r := if joined != "" then parts[0] + "/upload/" + joined + "/" + parts[1] else url;
  }

  /** The avatar sizes. */
  datatype ProfileSize = Small | Medium | Large

  function ProfileSide(size: ProfileSize): int {
    match size
    case Small => 150
    case Medium => 250
    case Large => 350
  }

  function ProfileOptions(size: ProfileSize): Options {
    var d := ProfileSide(size);
    Options(Some(Auto), Some(Auto), Some("avif"), Some("face"), Some("thumb"), Some(d), Some(d), Some(d / 2), None)
  }

  /** `optimizeProfileImage`: a square face thumbnail of the size's side, rounded by a radius of half the side. */
  function OptimizeProfileImage(url: string, size: ProfileSize): (r: string)
    ensures url == "" || !IsCloudinaryUrl(url) || |Split(url, "/upload/")| != 2 ==> r == url
    ensures url != "" && IsCloudinaryUrl(url) && |Split(url, "/upload/")| == 2 ==>
              var d := ProfileSide(size);
              r == Split(url, "/upload/")[0] + "/upload/"
                   + Join(["f_auto", "q_auto:eco", "dpr_auto", "g_face", "c_thumb",
                           "w_" + IntToString(d) + ",h_" + IntToString(d), "r_" + IntToString(d / 2)], "/")
                   + "/" + Split(url, "/upload/")[1]
  {
    var o := ProfileOptions(size);
    var d := ProfileSide(size);
    assert CropSegment(o) == ["c_thumb"] by { assert "c_" + "thumb" == "c_thumb"; }
    assert Transformations(o) == ["f_auto", "q_auto:eco", "dpr_auto", "g_face", "c_thumb",
                                  "w_" + IntToString(d) + ",h_" + IntToString(d), "r_" + IntToString(d / 2)];
    if url == "" then url else OptimizedUrl(url, o)
  }

  /** A profile image is a square face crop whose corner radius is half its side, which makes it round. */
  lemma ProfileIsRound(size: ProfileSize)
    ensures var d := ProfileSide(size);
            SizeSegment(ProfileOptions(size)) == ["w_" + IntToString(d) + ",h_" + IntToString(d)]
            && RadiusSegment(ProfileOptions(size)) == ["r_" + IntToString(d / 2)]
            && 2 * (d / 2) == d
            && GravitySegment(ProfileOptions(size)) == ["g_face"] && CropSegment(ProfileOptions(size)) == ["c_thumb"]
  {
    assert "c_" + "thumb" == "c_thumb";
  }

  /** The card preset's options: scaled, the width capped at 600, no height. */
  function CardOptions(width: int): Options {
    Options(Some(Auto), Some(Auto), Some("avif"), None, Some("scale"), Some(if width < 600 then width else 600), None, None, None)
  }

  /** `optimizeCardImage`; the width defaults to 600, and the height argument is not used. */
  function OptimizeCardImage(url: string, width: Option<int>, height: Option<int>): (r: string)
    ensures url == "" || !IsCloudinaryUrl(url) || |Split(url, "/upload/")| != 2 ==> r == url
    ensures url != "" && IsCloudinaryUrl(url) && |Split(url, "/upload/")| == 2 ==>
              var w := if width.GetOr(600) < 600 then width.GetOr(600) else 600;
              r == Split(url, "/upload/")[0] + "/upload/"
                   + Join(["f_auto", "q_auto:eco", "dpr_auto", "g_auto", "c_scale"]
                          + (if w != 0 then ["w_" + IntToString(w)] else []), "/")
                   + "/" + Split(url, "/upload/")[1]
  {
    var o := CardOptions(width.GetOr(600));
    assert CropSegment(o) == ["c_scale"] by { assert "c_" + "scale" == "c_scale"; }
    assert Transformations(o) == ["f_auto", "q_auto:eco", "dpr_auto", "g_auto", "c_scale"] + SizeSegment(o);
    if url == "" then url else OptimizedUrl(url, o)
  }

  /** A card image never asks for a width above 600, and never for a height. */
  lemma CardWidthCapped(width: int)
    ensures SizeSegment(CardOptions(width)) == []
            || exists w | w <= 600 && w != 0 :: SizeSegment(CardOptions(width)) == ["w_" + IntToString(w)]
    ensures width <= 600 && width != 0 ==> SizeSegment(CardOptions(width)) == ["w_" + IntToString(width)]
    ensures width >= 600 ==> SizeSegment(CardOptions(width)) == ["w_" + IntToString(600)]
  {
    var o := CardOptions(width);
    if Set(o.width) {
      var w := o.width.value;
      assert w <= 600 && w != 0 && SizeSegment(o) == ["w_" + IntToString(w)];
    }
  }

  /** `getBlurPlaceholder`'s options: width, height and quality default to 10, 10 and 5; JPEG, 1x, filled. */
  function BlurOptions(width: Option<int>, height: Option<int>, quality: Option<int>): Options {
    Options(Some(Fixed(quality.GetOr(5))), Some(Fixed(1)), Some("jpg"), None, Some("fill"),
            Some(width.GetOr(10)), Some(height.GetOr(10)), None, None)
  }

  /** `getBlurPlaceholder`: `""` for an empty URL. */
  function BlurPlaceholder(url: string, width: Option<int>, height: Option<int>, quality: Option<int>): (r: string)
    ensures url == "" ==> r == ""
    ensures url != "" && !IsCloudinaryUrl(url) ==> r == url
  {
    if url == "" then "" else OptimizedUrl(url, BlurOptions(width, height, quality))
  }

  /** The default placeholder: no format segment, quality 5, 1x, and a 10 by 10 fill. */
  lemma BlurDefaults()
    ensures Transformations(BlurOptions(None, None, None))
            == ["q_" + IntToString(5), "dpr_" + IntToString(1), "g_auto", "c_fill", "w_" + IntToString(10) + ",h_" + IntToString(10)]
  {
    var o := BlurOptions(None, None, None);
    assert FormatSegment(o) == [];
    assert QualitySegment(o) == ["q_" + IntToString(5)];
    assert DprSegment(o) == ["dpr_" + IntToString(1)];
    assert CropSegment(o) == ["c_fill"] by { assert "c_" + "fill" == "c_fill"; }
    assert RadiusSegment(o) == [];
  }

  /** `optimizeHeroImage`: 1200 wide, scaled. */
  function OptimizeHeroImage(url: string): (r: string)
    ensures url != "" && IsCloudinaryUrl(url) && |Split(url, "/upload/")| == 2 ==>
              r == Split(url, "/upload/")[0] + "/upload/" + Join(["f_auto", "q_auto:eco", "dpr_auto", "g_auto", "c_scale", "w_" + IntToString(1200)], "/")
                   + "/" + Split(url, "/upload/")[1]
  {
    var o := Options(Some(Auto), Some(Auto), Some("avif"), None, Some("scale"), Some(1200), None, None, None);
    assert CropSegment(o) == ["c_scale"] by { assert "c_" + "scale" == "c_scale"; }
    assert Transformations(o) == ["f_auto", "q_auto:eco", "dpr_auto", "g_auto", "c_scale", "w_" + IntToString(1200)];
    if url == "" then url else OptimizedUrl(url, o)
  }

  /** `optimizeLogoImage`: the source format kept (no `f_auto`), scaled to `size`, 200 by default. */
  function OptimizeLogoImage(url: string, size: Option<int>): (r: string)
    ensures url != "" && IsCloudinaryUrl(url) && |Split(url, "/upload/")| == 2 && size.GetOr(200) != 0 ==>
              r == Split(url, "/upload/")[0] + "/upload/" + Join(["q_auto:eco", "dpr_auto", "g_auto", "c_scale", "w_" + IntToString(size.GetOr(200))], "/")
                   + "/" + Split(url, "/upload/")[1]
  {
    var o := Options(Some(Auto), Some(Auto), Some("auto"), None, Some("scale"), Some(size.GetOr(200)), None, None, None);
    assert CropSegment(o) == ["c_scale"] by { assert "c_" + "scale" == "c_scale"; }
    assert FormatSegment(o) == [] by { assert "auto" != "avif"; }
    assert size.GetOr(200) != 0 ==>
             Transformations(o) == ["q_auto:eco", "dpr_auto", "g_auto", "c_scale", "w_" + IntToString(size.GetOr(200))];
    if url == "" then url else OptimizedUrl(url, o)
  }

  /** The srcset entries, one per configured size in order: the URL at that width, then the width descriptor. */
  function SrcSetEntries(url: string, sizes: seq<int>): (r: seq<string>)
    ensures |r| == |sizes|
    ensures forall i | 0 <= i < |sizes| ::
              r[i] == OptimizedUrl(url, Options(Some(Auto), Some(Fixed(1)), Some("avif"), None, None, Some(sizes[i]), None, None, None))
                      + " " + IntToString(sizes[i]) + "w"
  {
    seq(|sizes|, i requires 0 <= i < |sizes| =>
      OptimizedUrl(url, Options(Some(Auto), Some(Fixed(1)), Some("avif"), None, None, Some(sizes[i]), None, None, None))
      + " " + IntToString(sizes[i]) + "w")
  }

  /** `generateResponsiveSrcSet`: `""` for an empty URL, else the entries joined by `", "`. */
  function ResponsiveSrcSet(url: string, sizes: seq<int>): (r: string)
    ensures url == "" ==> r == ""
  {
    if url == "" then "" else Join(SrcSetEntries(url, sizes), ", ")
  }

  /** There is one entry per size, and each entry ends with that size's width descriptor. */
  lemma SrcSetHasOneEntryPerSize(url: string, sizes: seq<int>)
    ensures |SrcSetEntries(url, sizes)| == |sizes|
    ensures forall i | 0 <= i < |sizes| :: EndsWith(SrcSetEntries(url, sizes)[i], " " + IntToString(sizes[i]) + "w")
  {
    forall i | 0 <= i < |sizes| ensures EndsWith(SrcSetEntries(url, sizes)[i], " " + IntToString(sizes[i]) + "w") {
      var e := SrcSetEntries(url, sizes)[i];
      var tail := " " + IntToString(sizes[i]) + "w";
      var head := OptimizedUrl(url, Options(Some(Auto), Some(Fixed(1)), Some("avif"), None, None, Some(sizes[i]), None, None, None));
      assert e == head + tail;
      assert e[|e| - |tail|..] == tail;
    }
  }

  predicate EndsWith(s: string, suffix: string) {
    |suffix| <= |s| && s[|s| - |suffix|..] == suffix
  }

  /** `optimizeUrlBatch`: one result per URL, in order. */
  function OptimizeUrlBatch(urls: seq<string>, o: Options): (r: seq<string>)
    ensures |r| == |urls|
    ensures forall i | 0 <= i < |urls| :: r[i] == OptimizedUrl(urls[i], o)
  {
    seq(|urls|, i requires 0 <= i < |urls| => OptimizedUrl(urls[i], o))
  }

  /** A batch leaves every non-Cloudinary URL as it was. */
  lemma BatchKeepsOtherUrls(urls: seq<string>, o: Options, i: int)
    requires 0 <= i < |urls| && !IsCloudinaryUrl(urls[i])
    ensures OptimizeUrlBatch(urls, o)[i] == urls[i]
  {
  }
}
