/**
 * The planning logic of src/generators/video_generator.py: how
 * `create_video` stretches the image list over the audio, which clip each
 * image becomes, which effects it draws and how `apply_image_effects`
 * dispatches on their names, and how `find_generated_files` picks its
 * inputs. Pixels, fonts and encoding are not modelled: a clip is a
 * record of what was asked of the rendering library.
 */
module VideoGenerator {
  import opened Wrappers
  import opened PyText
  import opened Sorting
  import Seqs
  import Sampling

  // ---------------------------------------------------------------------
  // Timeline: repetition and per-image duration

  /** Python's `int(x)` on a float: truncation toward zero. */
  function Trunc(x: real): (r: int)
    ensures x >= 0.0 ==> r >= 0 && r as real <= x < r as real + 1.0
    ensures x < 0.0 ==> r <= 0 && r as real - 1.0 < x <= r as real
  {
    if x >= 0.0 then x.Floor else -((-x).Floor)
  }

  /** `xs * k`: the list repeated whole `k` times; empty when `k <= 0`. */
  function Repeat<T>(xs: seq<T>, k: int): (r: seq<T>)
    ensures |r| == (if k <= 0 then 0 else k * |xs|)
    decreases k
  {
    if k <= 0 then [] else Repeat(xs, k - 1) + xs
  }

  /** Copy `q` of a repetition holds the list again: entry q*len + r is entry r. */
  lemma {:induction false} RepeatIndex<T>(xs: seq<T>, k: int, q: nat, r: nat)
    requires q < k && r < |xs|
    ensures q * |xs| + r < |Repeat(xs, k)| && Repeat(xs, k)[q * |xs| + r] == xs[r]
    decreases k
  {
    var n := |xs|;
    var prev := Repeat(xs, k - 1);
    assert |prev| == (k - 1) * n;
    if q < k - 1 {
      RepeatIndex(xs, k - 1, q, r);
    } else {
      assert q * n == |prev|;
    }
  }

  /** The images actually shown and how long each one stays on screen. */
  datatype Plan = Plan(files: seq<string>, perImage: real)

  /**
   * Lines 201-216 of `create_video`: an empty list raises ValueError; a
   * list too short for the audio is repeated whole int(T/(n*d)) + 1 times;
   * then each image gets T / n' seconds. A division by zero (an image
   * duration of 0, or a repetition count that empties the list) raises too.
   */
  function PlanTimeline(images: seq<string>, d: real, audio: real): Result<Plan>
  {
    match Stretch(images, d, audio)
    case Failure(e) => Failure(e)
    case Success(files) =>
      if files == [] then Failure("ZeroDivisionError: float division by zero")
      else Success(Plan(files, audio / |files| as real))
  }

  /** Lines 201-213: the list of images after the repetition step. */
  function Stretch(images: seq<string>, d: real, audio: real): Result<seq<string>>
  {
    if images == [] then Failure("ValueError: No image files provided for video generation")
    else
      var total := |images| as real * d;
      if total < audio && total == 0.0 then Failure("ZeroDivisionError: float division by zero")
      else Success(if total < audio then Repeat(images, Cycles(audio, total)) else images)
  }

  /** `int(audio / total) + 1`, the number of whole copies of the list. */
  function Cycles(audio: real, total: real): int
    requires total != 0.0
  {
    Trunc(audio / total) + 1
  }

  /** A list too short for the audio is repeated at least twice. */
  lemma CyclesAtLeastTwo(audio: real, total: real)
    requires 0.0 < total < audio
    ensures Cycles(audio, total) >= 2
  {
    QuotientAboveOne(audio, total);
  }

  /** Whatever list is used, n' images of T/n' seconds fill the audio exactly. */
  lemma PlanCoversAudio(images: seq<string>, d: real, audio: real)
    ensures images == [] ==> PlanTimeline(images, d, audio).Failure?
    ensures PlanTimeline(images, d, audio).Success? ==>
      var p := PlanTimeline(images, d, audio).value;
      p.files != [] && |p.files| as real * p.perImage == audio
  {
  }

  /**
   * With a positive image duration: a list whose n*d already covers the
   * audio is kept as it is; a shorter one is repeated k >= 2 times.
   */
  lemma PlanRepeats(images: seq<string>, d: real, audio: real)
    requires images != [] && d > 0.0
    ensures var total := |images| as real * d;
      total >= audio ==> Stretch(images, d, audio) == Success(images)
    ensures var total := |images| as real * d;
      total < audio ==> Stretch(images, d, audio) == Success(Repeat(images, Cycles(audio, total)))
    ensures var total := |images| as real * d;
      total < audio ==> Cycles(audio, total) >= 2 && |Repeat(images, Cycles(audio, total))| >= 2 * |images|
  {
    var total := |images| as real * d;
    PositiveProduct(|images| as real, d);
    if total < audio {
      CyclesAtLeastTwo(audio, total);
      LongerRepeat(images, Cycles(audio, total));
      StretchShort(images, d, audio, total);
    }
  }

  lemma StretchShort(images: seq<string>, d: real, audio: real, total: real)
    requires images != [] && total == |images| as real * d && 0.0 < total < audio
    ensures Stretch(images, d, audio) == Success(Repeat(images, Cycles(audio, total)))
  {
  }

  /** A stretched list that is not empty always yields a plan. */
  lemma PlanOfStretch(images: seq<string>, d: real, audio: real)
    requires Stretch(images, d, audio).Success? && Stretch(images, d, audio).value != []
    ensures PlanTimeline(images, d, audio).Success?
    ensures PlanTimeline(images, d, audio).value.files == Stretch(images, d, audio).value
  {
  }

  lemma PositiveProduct(a: real, b: real)
    requires a >= 1.0 && b > 0.0
    ensures a * b > 0.0
  {
  }

  lemma QuotientAboveOne(a: real, b: real)
    requires 0.0 < b < a
    ensures a / b > 1.0
  {
  }

  lemma LongerRepeat<T>(xs: seq<T>, k: int)
    requires xs != [] && k >= 2
    ensures |Repeat(xs, k)| >= 2 * |xs|
  {
    assert k * |xs| >= 2 * |xs|;
  }

  // ---------------------------------------------------------------------
  // Clips

  /** Whether the first steps of an image's `try` block raise, and where. */
  datatype Stage =
    | LoadFails    // ImageClip(...) raises, before `target_width` is bound
    | LaterFails   // resize, fades or the caption raise afterwards
    | Succeeds

  datatype Clip =
    | Picture(path: string, duration: real, fadeIn: bool, fadeOut: bool, caption: Option<string>)
    | Filler(duration: real)   // black 1920x1080 clip
  {
    function Duration(): real
    {
      match this
      case Picture(_, d, _, _, _) => d
      case Filler(d) => d
    }
  }

  /** A `_`-part that looks like a date stamp: all digits, at least 8 of them. */
  predicate IsTimestampPart(p: string)
  {
    IsDigits(p) && |p| >= 8
  }

  predicate KeepCaptionPart(p: string)
  {
    !IsTimestampPart(p)
  }

  /**
   * The caption of an image: its file name without extension; with more
   * than two `_`-parts, the date-stamp parts are dropped and the rest
   * joined by spaces and title-cased.
   */
  function Caption(path: string): string
  {
    var stem := DropExtension(Basename(path));
    var parts := Split(stem, '_');
    if |parts| > 2 then Title(Join(Seqs.Filter(parts, KeepCaptionPart), " ")) else stem
  }

  /** A rewritten caption has no underscore and keeps no date-stamp part. */
  lemma CaptionRewritten(path: string)
    requires |Split(DropExtension(Basename(path)), '_')| > 2
    ensures '_' !in Caption(path)
    ensures var kept := Seqs.Filter(Split(DropExtension(Basename(path)), '_'), KeepCaptionPart);
      forall k :: 0 <= k < |kept| ==> !IsTimestampPart(kept[k])
  {
    var parts := Split(DropExtension(Basename(path)), '_');
    var kept := Seqs.Filter(parts, KeepCaptionPart);
    Seqs.FilterAll(parts, KeepCaptionPart);
    Seqs.FilterMembers(parts, KeepCaptionPart);
    forall k | 0 <= k < |kept| ensures '_' !in kept[k] {
      assert kept[k] in parts;
    }
    JoinFree(kept, " ", '_');
    TitleFree(Join(kept, " "), '_');
  }

  /** A file name with at most two `_`-parts is its own caption. */
  lemma CaptionKept(path: string)
    requires |Split(DropExtension(Basename(path)), '_')| <= 2
    ensures Caption(path) == DropExtension(Basename(path))
  {
  }

  lemma {:induction false} JoinFree(parts: seq<string>, sep: string, c: char)
    requires c !in sep && forall k :: 0 <= k < |parts| ==> c !in parts[k]
    ensures c !in Join(parts, sep)
  {
    if |parts| > 1 {
      JoinFree(parts[1..], sep, c);
    }
  }

  /** Title-casing never produces a non-letter that was not there. */
  lemma TitleFree(s: string, c: char)
    requires c !in s && !IsLetter(c)
    ensures c !in Title(s)
  {
    var t := Title(s);
    forall i | 0 <= i < |t| ensures t[i] != c {
      if !IsLetter(s[i]) {
        assert t[i] == s[i];
      } else if i > 0 && IsLetter(s[i - 1]) {
        assert t[i] == LowerChar(s[i]);
        assert IsLower(t[i]);
      } else {
        assert t[i] == UpperChar(s[i]);
        assert IsUpper(t[i]);
      }
    }
  }

  /**
   * One clip per image, each lasting `perImage`: the prepared image when
   * its steps succeeded, a filler otherwise.
   */
  predicate ClipsFollow(clips: seq<Clip>, files: seq<string>, perImage: real,
                        transitions: bool, overlay: bool, stage: (nat, string) -> Stage)
  {
    && |clips| == |files|
    && forall i :: 0 <= i < |files| ==>
      && clips[i].Duration() == perImage
      && (clips[i].Picture? <==> stage(i, files[i]) == Succeeds)
      && (clips[i].Picture? ==> clips[i] == PictureAt(files[i], i, |files|, perImage, transitions, overlay))
  }

  /** The clip for position `i` of `n` when nothing raised. */
  function PictureAt(path: string, i: nat, n: nat, perImage: real, transitions: bool, overlay: bool): Clip
  {
    var fadeIn := transitions && (i == 0 || i != n - 1);
    var fadeOut := transitions && i != 0;
    Picture(path, perImage, fadeIn, fadeOut, if overlay then Some(Caption(path)) else None)
  }

  /**
   * The clip loop (lines 223-286): one clip per image, the prepared image
   * or a black filler of the same duration when a step raised. A first
   * image that fails to load leaves `target_width` unbound, so the handler
   * itself raises NameError and there is no clip list at all.
   */
  method BuildClips(files: seq<string>, perImage: real, transitions: bool, overlay: bool,
                    stage: (nat, string) -> Stage)
    returns (r: Option<seq<Clip>>)
    ensures r.None? <==> files != [] && stage(0, files[0]) == LoadFails
    ensures r.Some? ==> ClipsFollow(r.value, files, perImage, transitions, overlay, stage)
  {
    var clips: seq<Clip> := [];
    var widthBound := false;
    for i := 0 to |files|
      invariant |clips| == i
      invariant widthBound <==> i > 0
      invariant i > 0 ==> stage(0, files[0]) != LoadFails
      invariant forall j :: 0 <= j < i ==>
        clips[j].Duration() == perImage &&
        (clips[j].Picture? <==> stage(j, files[j]) == Succeeds) &&
        (clips[j].Picture? ==> clips[j] == PictureAt(files[j], j, |files|, perImage, transitions, overlay))
    {
      var s := stage(i, files[i]);
      if s == LoadFails && !widthBound {
        return None;
      }
      widthBound := true;
      if s == Succeeds {
        clips := clips + [PictureAt(files[i], i, |files|, perImage, transitions, overlay)];
      } else {
        clips := clips + [Filler(perImage)];
      }
    }
    r := Some(clips);
  }

  /** Total running time of a clip list. */
  function TotalDuration(clips: seq<Clip>): real
  {
    if clips == [] then 0.0 else TotalDuration(clips[..|clips| - 1]) + clips[|clips| - 1].Duration()
  }

  /** Clips that all last `d` run for n * d. */
  lemma {:induction false} UniformTotal(clips: seq<Clip>, d: real)
    requires forall i :: 0 <= i < |clips| ==> clips[i].Duration() == d
    ensures TotalDuration(clips) == |clips| as real * d
  {
    if clips != [] {
      UniformTotal(clips[..|clips| - 1], d);
    }
  }

  /** The clips of a plan run for exactly n' * perImage seconds. */
  lemma ClipsTotal(clips: seq<Clip>, files: seq<string>, perImage: real,
                   transitions: bool, overlay: bool, stage: (nat, string) -> Stage)
    requires ClipsFollow(clips, files, perImage, transitions, overlay, stage)
    ensures TotalDuration(clips) == |files| as real * perImage
  {
    UniformTotal(clips, perImage);
  }

  /** Clips that follow a successful plan last exactly as long as the audio. */
  lemma ClipsLastAudio(clips: seq<Clip>, images: seq<string>, d: real, audio: real,
                       transitions: bool, overlay: bool, stage: (nat, string) -> Stage)
    requires PlanTimeline(images, d, audio).Success?
    requires ClipsFollow(clips, PlanTimeline(images, d, audio).value.files,
                         PlanTimeline(images, d, audio).value.perImage, transitions, overlay, stage)
    ensures TotalDuration(clips) == audio
  {
    var plan := PlanTimeline(images, d, audio).value;
    ClipsTotal(clips, plan.files, plan.perImage, transitions, overlay, stage);
    PlanCoversAudio(images, d, audio);
    var n := |plan.files| as real;
    assert TotalDuration(clips) == n * plan.perImage;
    assert n * plan.perImage == audio;
  }

  /** Fades with transitions on: first fade-in only, last fade-out only, others both. */
  lemma FadePattern(path: string, i: nat, n: nat, d: real, overlay: bool)
    requires i < n
    ensures var c := PictureAt(path, i, n, d, true, overlay);
      (i == 0 ==> c.fadeIn && !c.fadeOut) &&
      (0 < i == n - 1 ==> !c.fadeIn && c.fadeOut) &&
      (0 < i < n - 1 ==> c.fadeIn && c.fadeOut)
    ensures var c := PictureAt(path, i, n, d, false, overlay);
      !c.fadeIn && !c.fadeOut
  {
  }

  // ---------------------------------------------------------------------
  // Effects

  const EffectNames: seq<string> := [
    "ken_burns_zoom", "slow_pan", "background_blur_center_text",
    "color_boost", "dark_overlay", "glow_effect",
    "cinematic_crop", "vignette", "subtle_grain", "mirror_effect", "bw_partial"
  ]

  datatype PanDirection = PanLeft | PanRight | PanUp | PanDown

  /** One call into the rendering library, as the dispatch issues it. */
  datatype Op =
    | Zoom(zoomIn: bool, factor: real)
    | Pan(direction: PanDirection)
    | Painting
    | ColorBoost
    | DarkOverlay
    | Glow(warm: bool)
    | Crop(top: int, bottom: int)
    | Vignette
    | Grain
    | Mirror
    | BlackWhite

  /** The effect name whose branch issues `op`. */
  function EffectOf(op: Op): string
  {
    match op
    case Zoom(_, _) => "ken_burns_zoom"
    case Pan(_) => "slow_pan"
    case Painting => "background_blur_center_text"
    case ColorBoost => "color_boost"
    case DarkOverlay => "dark_overlay"
    case Glow(_) => "glow_effect"
    case Crop(_, _) => "cinematic_crop"
    case Vignette => "vignette"
    case Grain => "subtle_grain"
    case Mirror => "mirror_effect"
    case BlackWhite => "bw_partial"
  }

  /** A clip: its size and the operations applied to it so far. */
  datatype Frame = Frame(width: nat, height: int, ops: seq<Op>)

  /** The keyword arguments the dispatch reads. */
  datatype Params = Params(zoomDirection: string, zoomFactor: real, direction: string, glowColor: string)

  /** A zoom that moves the frame out: the size of a zoom-out clip is not that of its input. */
  predicate IsZoomOut(op: Op)
  {
    op.Zoom? && !op.zoomIn
  }

  /**
   * The scale of a Ken Burns zoom's frame at t = 0: `max(1.0, factor ** 0)`,
   * that is 1, zooming in; `max(1.0, factor ** 1)` zooming out.
   */
  function ZoomAtStart(zoomIn: bool, factor: real): (s: real)
    ensures s >= 1.0
    ensures !zoomIn && factor >= 1.0 ==> s == factor
    ensures zoomIn ==> s == 1.0
  {
    if zoomIn || factor <= 1.0 then 1.0 else factor
  }

  /**
   * The size of a clip resized by a callable: moviepy takes it from the
   * frame at t = 0, each side scaled by `s` and truncated by `int`.
   */
  function Scaled(f: Frame, s: real): (r: Frame)
    requires s >= 1.0
    ensures r.ops == f.ops
    ensures r.width >= f.width
    ensures f.height >= 0 ==> r.height >= f.height
  {
    ScaleGrows(f.width, s);
    ScaleGrows(f.height, s);
    Frame(Trunc(f.width as real * s), Trunc(f.height as real * s), f.ops)
  }

  /** Scaling a side by a factor of at least 1 and truncating never shrinks it. */
  lemma ScaleGrows(n: int, s: real)
    requires s >= 1.0
    ensures n >= 0 ==> Trunc(n as real * s) >= n
  {
    if n >= 0 {
      assert n as real * s >= n as real * 1.0;
    }
  }

  /** The crop rows for 21:9: target = int(9w/21), crop = (h - target) // 2. */
  function CinematicCrop(w: nat, h: int): (bounds: (int, int))
    ensures bounds.0 + bounds.1 == h
    ensures h >= (9 * w) / 21 ==>
      && 0 <= bounds.0 <= bounds.1 <= h
      && (bounds.1 - bounds.0 == (9 * w) / 21 || bounds.1 - bounds.0 == (9 * w) / 21 + 1)
    ensures h < (9 * w) / 21 ==> bounds.0 < 0
  {
    var target := (9 * w) / 21;
    var crop := (h - target) / 2;
    (crop, h - crop)
  }

  /**
   * A 1920x1080 frame is cut to rows 129 to 951: the 822 rows of its 21:9
   * height, with 129 rows removed above and below.
   */
  lemma CropOfFullHd()
    ensures CinematicCrop(1920, 1080) == (129, 951)
    ensures (9 * 1920) / 21 == 822 && 951 - 129 == 822
  {
  }

  /**
   * A zoom-out by 1.08 enlarges the 1920x1080 frame to 2073x1166, so a
   * crop drawn after it cuts rows 139 to 1027 of the enlarged frame rather
   * than rows 129 to 951.
   */
  lemma ZoomOutMovesCrop()
    ensures var zoomed := ApplyImageEffect(Frame(1920, 1080, []), "ken_burns_zoom", Params("out", 1.08, "left", "warm"));
      && zoomed.width == 2073 && zoomed.height == 1166
      && ApplyImageEffect(zoomed, "cinematic_crop", Params("out", 1.08, "left", "warm")).ops
         == [Zoom(false, 1.08), Crop(139, 1027)]
  {
    var p := Params("out", 1.08, "left", "warm");
    var zoomed := ApplyImageEffect(Frame(1920, 1080, []), "ken_burns_zoom", p);
    assert Trunc(1920.0 * 1.08) == 2073;
    assert Trunc(1080.0 * 1.08) == 1166;
    assert CinematicCrop(2073, 1166) == (139, 1027);
  }

  /**
   * `apply_image_effects(clip, name, **params)`: a catalog name issues its
   * one operation; only a zoom-out changes the width, and only a zoom-out
   * or the crop changes the height.
   */
  function ApplyImageEffect(f: Frame, name: string, p: Params): (r: Frame)
    ensures name !in EffectNames ==> r == f
    ensures name in EffectNames ==>
      |r.ops| == |f.ops| + 1 && r.ops[..|f.ops|] == f.ops && EffectOf(r.ops[|f.ops|]) == name
    ensures r.width >= f.width
    ensures name in EffectNames && !IsZoomOut(r.ops[|f.ops|]) ==> r.width == f.width
    ensures name != "cinematic_crop" && !(name == "ken_burns_zoom" && p.zoomDirection != "in") ==>
      r.height == f.height
    ensures name == "ken_burns_zoom" && p.zoomDirection != "in" ==>
      && r.ops[|f.ops|] == Zoom(false, p.zoomFactor)
      && (f.height >= 0 ==> r.height >= f.height)
      && (p.zoomFactor >= 1.0 ==>
            r.width == Trunc(f.width as real * p.zoomFactor) && r.height == Trunc(f.height as real * p.zoomFactor))
  {
    if name == "ken_burns_zoom" then
      var zoomIn := p.zoomDirection == "in";
      Scaled(f, ZoomAtStart(zoomIn, p.zoomFactor)).(ops := f.ops + [Zoom(zoomIn, p.zoomFactor)])
    else if name == "slow_pan" then
      var dir := if p.direction == "left" then PanLeft
                 else if p.direction == "right" then PanRight
                 else if p.direction == "up" then PanUp
                 else PanDown;
      f.(ops := f.ops + [Pan(dir)])
    else if name == "background_blur_center_text" then f.(ops := f.ops + [Painting])
    else if name == "color_boost" then f.(ops := f.ops + [ColorBoost])
    else if name == "dark_overlay" then f.(ops := f.ops + [DarkOverlay])
    else if name == "glow_effect" then f.(ops := f.ops + [Glow(p.glowColor == "warm")])
    else if name == "cinematic_crop" then
      var b := CinematicCrop(f.width, f.height);
      Frame(f.width, b.1 - b.0, f.ops + [Crop(b.0, b.1)])
    else if name == "vignette" then f.(ops := f.ops + [Vignette])
    else if name == "subtle_grain" then f.(ops := f.ops + [Grain])
    else if name == "mirror_effect" then f.(ops := f.ops + [Mirror])
    else if name == "bw_partial" then f.(ops := f.ops + [BlackWhite])
    else f
  }

  /** The direction and colour options `create_video` draws from. */
  predicate DrawnParams(p: Params)
  {
    p.zoomDirection in ["in", "out"] && 1.05 <= p.zoomFactor <= 1.1 && p.direction in ["left", "right", "up", "down"]
    && p.glowColor in ["warm", "cool"]
  }

  lemma EffectNamesDistinct()
    ensures forall i, j :: 0 <= i < j < |EffectNames| ==> EffectNames[i] != EffectNames[j]
  {
  }

  /**
   * Between `min` and min(11, min + 2) names, all from the catalog, none
   * twice.
   */
  predicate EffectsChosen(names: seq<string>, minEffects: int)
  {
    && minEffects <= |names| <= (if minEffects + 2 < 11 then minEffects + 2 else 11)
    && (forall i :: 0 <= i < |names| ==> names[i] in EffectNames)
    && (forall i, j :: 0 <= i < j < |names| ==> names[i] != names[j])
  }

  /**
   * `randint(min, min(11, min + 2))` effects sampled from the catalog:
   * randint raises on an empty range (min > 11) and `sample` on a
   * negative count.
   */
  method ChooseEffects(minEffects: int) returns (r: Result<seq<string>>)
    ensures minEffects > 11 ==> r.Failure?
    ensures 0 <= minEffects <= 11 ==> r.Success?
    ensures r.Success? ==> EffectsChosen(r.value, minEffects)
  {
    var hi := if minEffects + 2 < 11 then minEffects + 2 else 11;
    if hi < minEffects {
      return Failure("ValueError: empty range for randrange");
    }
    var count :| minEffects <= count <= hi;
    ghost var positions;
    r, positions := Sampling.Sample(EffectNames, count);
    if r.Success? {
      EffectNamesDistinct();
    }
  }

  /** The catalog names among `names`, in order. */
  function Known(names: seq<string>): seq<string>
  {
    Seqs.Filter(names, IsEffectName)
  }

  predicate IsEffectName(name: string) { name in EffectNames }

  /**
   * `r` is `f` with one operation appended per name of `names`, in order,
   * each issued by that name's branch.
   */
  predicate EffectsAppended(f: Frame, r: Frame, names: seq<string>)
  {
    && r.width >= f.width
    && |r.ops| == |f.ops| + |names| && r.ops[..|f.ops|] == f.ops
    && (forall j :: 0 <= j < |names| ==> EffectOf(r.ops[|f.ops| + j]) == names[j])
    && ((forall k :: |f.ops| <= k < |r.ops| ==> !IsZoomOut(r.ops[k])) ==> r.width == f.width)
  }

  /** One more effect name extends the applied list by that name, if it is a catalog name. */
  lemma EffectStep(f: Frame, before: Frame, names: seq<string>, name: string, p: Params)
    requires EffectsAppended(f, before, names)
    ensures EffectsAppended(f, ApplyImageEffect(before, name, p),
                            names + (if IsEffectName(name) then [name] else []))
  {
    var after := ApplyImageEffect(before, name, p);
    if name in EffectNames {
      assert after.ops[..|before.ops|] == before.ops;
      assert after.ops[..|f.ops|] == before.ops[..|f.ops|];
      var names' := names + [name];
      forall j | 0 <= j < |names'| ensures EffectOf(after.ops[|f.ops| + j]) == names'[j] {
        if j < |names| {
          assert after.ops[|f.ops| + j] == before.ops[|f.ops| + j];
        }
      }
    } else {
      assert names + [] == names;
    }
  }

  /**
   * The effect loop (lines 314-339): each name is applied in order with
   * freshly drawn options; names outside the catalog change nothing.
   */
  method ApplyEffects(f: Frame, selected: seq<string>) returns (r: Frame)
    ensures EffectsAppended(f, r, Known(selected))
  {
    r := f;
    assert f.ops[..|f.ops|] == f.ops;
    for i := 0 to |selected|
      invariant EffectsAppended(f, r, Known(selected[..i]))
    {
      assert DrawnParams(Params("in", 1.08, "left", "warm"));
      var p: Params :| DrawnParams(p);
      EffectStep(f, r, Known(selected[..i]), selected[i], p);
      r := ApplyImageEffect(r, selected[i], p);
      assert selected[..i + 1][..i] == selected[..i];
    }
    assert selected[..|selected|] == selected;
  }

  // ---------------------------------------------------------------------
  // create_video

  /** What `create_video` hands to the encoder. */
  datatype Video = Video(path: string, clips: seq<Clip>, effects: seq<string>, frame: Frame)

  /** `video_dir/<output_name>.mp4`, named after the timestamp when no name is given. */
  function VideoPath(videoDir: string, outputName: string, timestamp: string): string
  {
    var name := if outputName == "" then "motivation_video_" + timestamp else outputName;
    PathJoin(videoDir, name + ".mp4")
  }

  /**
   * Whether a video comes out, given the plan: a failed plan or a first
   * image that cannot load gives none; otherwise one comes out exactly
   * when the remaining steps (the effect draw, then the moviepy calls after
   * the clip loop) can succeed.
   */
  predicate CreateOutcome(r: Option<Video>, plan: Result<Plan>, stage: (nat, string) -> Stage, restOk: bool)
  {
    if plan.Failure? || plan.value.files == [] || stage(0, plan.value.files[0]) == LoadFails then r.None?
    else restOk ==> r.Some?
  }

  /** Names all from the catalog are all kept by `Known`. */
  lemma KnownOfCatalogNames(names: seq<string>)
    requires forall i :: 0 <= i < |names| ==> names[i] in EffectNames
    ensures Known(names) == names
  {
    forall i | 0 <= i < |names| ensures IsEffectName(names[i]) {
    }
    Seqs.FilterKeepsAll(names, IsEffectName);
  }

  /** On a frame with no operations yet, the appended operations are all of them. */
  lemma AppendedToEmpty(f: Frame, r: Frame, names: seq<string>)
    requires f.ops == [] && EffectsAppended(f, r, names)
    ensures r.width >= f.width && |r.ops| == |names|
    ensures forall j :: 0 <= j < |names| ==> EffectOf(r.ops[j]) == names[j]
    ensures (forall k :: 0 <= k < |r.ops| ==> !IsZoomOut(r.ops[k])) ==> r.width == f.width
  {
    forall j | 0 <= j < |names| ensures EffectOf(r.ops[j]) == names[j] {
      assert |f.ops| + j == j;
    }
  }

  /**
   * The effect draw and the effect loop together, on an empty frame: the
   * drawn names, and the frame with one operation per name, in order.
   */
  method ChooseAndApplyEffects(f: Frame, minEffects: int) returns (r: Option<(seq<string>, Frame)>)
    requires f.ops == []
    ensures minEffects > 11 ==> r.None?
    ensures 0 <= minEffects <= 11 ==> r.Some?
    ensures r.Some? ==>
      && EffectsChosen(r.value.0, minEffects)
      && r.value.1.width >= f.width
      && ((forall k :: 0 <= k < |r.value.1.ops| ==> !IsZoomOut(r.value.1.ops[k])) ==> r.value.1.width == f.width)
      && |r.value.1.ops| == |r.value.0|
      && (forall j :: 0 <= j < |r.value.0| ==> EffectOf(r.value.1.ops[j]) == r.value.0[j])
  {
    var picked := ChooseEffects(minEffects);
    if picked.Failure? {
      return None;
    }
    var chosen := picked.value;
    KnownOfCatalogNames(chosen);
    var frame := ApplyEffects(f, chosen);
    AppendedToEmpty(f, frame, chosen);
    return Some((chosen, frame));
  }

  /**
   * The effects of a finished video: none and the untouched full-HD frame
   * when effects are off; otherwise a valid draw and one frame operation
   * per drawn name, in order.
   */
  predicate EffectsShown(v: Video, effects: bool, minEffects: int)
  {
    if !effects then v.effects == [] && v.frame == Frame(1920, 1080, [])
    else
      && EffectsChosen(v.effects, minEffects)
      && |v.frame.ops| == |v.effects|
      && (forall j :: 0 <= j < |v.effects| ==> EffectOf(v.frame.ops[j]) == v.effects[j])
  }

  /**
   * The part of `create_video` after planning: the clip loop, the effect
   * draw and loop, and the moviepy calls after the clip loop. `written`
   * says whether every one of those calls (`concatenate_videoclips`, the
   * effect calls, `set_audio`, `write_videofile`) returns without raising;
   * any of them raising ends in `None` through the handler.
   */
  method RenderPlan(path: string, plan: Plan, transitions: bool, overlay: bool,
                    effects: bool, minEffects: int, stage: (nat, string) -> Stage, written: bool)
    returns (r: Option<Video>)
    requires plan.files != []
    ensures stage(0, plan.files[0]) == LoadFails || !written || (effects && minEffects > 11) ==> r.None?
    ensures stage(0, plan.files[0]) != LoadFails && written && (!effects || 0 <= minEffects <= 11) ==> r.Some?
    ensures r.Some? ==>
      && r.value.path == path
      && ClipsFollow(r.value.clips, plan.files, plan.perImage, transitions, overlay, stage)
    ensures r.Some? ==> EffectsShown(r.value, effects, minEffects)
  {
    var clips := BuildClips(plan.files, plan.perImage, transitions, overlay, stage);
    if clips.None? {
      return None;
    }
    var frame := Frame(1920, 1080, []);
    var chosen: seq<string> := [];
    if effects {
      var picked := ChooseAndApplyEffects(frame, minEffects);
      if picked.None? {
        return None;
      }
      chosen, frame := picked.value.0, picked.value.1;
    }
    if !written {
      return None;
    }
    r := Some(Video(path, clips.value, chosen, frame));
  }

  /**
   * `create_video`: every exception inside its `try` ends in `None`. The
   * audio length is `None` when the audio file cannot be loaded.
   */
  method CreateVideo(videoDir: string, outputName: string, timestamp: string,
                     audio: Option<real>, images: seq<string>, d: real,
                     transitions: bool, overlay: bool, effects: bool, minEffects: int,
                     stage: (nat, string) -> Stage, written: bool)
    returns (r: Option<Video>)
    ensures images == [] || audio.None? || !written ==> r.None?
    ensures effects && minEffects > 11 ==> r.None?
    ensures audio.Some? ==> CreateOutcome(r, PlanTimeline(images, d, audio.value), stage,
                                           (!effects || 0 <= minEffects <= 11) && written)
    ensures r.Some? ==> audio.Some? && PlanTimeline(images, d, audio.value).Success?
    ensures r.Some? ==> var plan := PlanTimeline(images, d, audio.value).value;
      && r.value.path == VideoPath(videoDir, outputName, timestamp)
      && ClipsFollow(r.value.clips, plan.files, plan.perImage, transitions, overlay, stage)
      && TotalDuration(r.value.clips) == audio.value
    ensures r.Some? ==> EffectsShown(r.value, effects, minEffects)
  {
    var path := VideoPath(videoDir, outputName, timestamp);
    if audio.None? {
      return None;
    }
    var planned := PlanTimeline(images, d, audio.value);
    PlanCoversAudio(images, d, audio.value);
    if planned.Failure? {
      return None;
    }
    r := RenderPlan(path, planned.value, transitions, overlay, effects, minEffects, stage, written);
    if r.Some? {
      ClipsLastAudio(r.value.clips, images, d, audio.value, transitions, overlay, stage);
    }
  }

  // ---------------------------------------------------------------------
  // find_generated_files

  predicate NotGitkeep(f: FileRec) { !EndsWith(f.path, ".gitkeep") }

  function Paths(files: seq<FileRec>): (r: seq<string>)
    ensures |r| == |files| && forall i :: 0 <= i < |files| ==> r[i] == files[i].path
  {
    Seqs.Map(files, (f: FileRec) => f.path)
  }

  /** The files whose base name contains `stamp`. */
  function Matching(files: seq<FileRec>, stamp: string): seq<FileRec>
  {
    Seqs.Filter(files, (f: FileRec) => Contains(Basename(f.path), stamp))
  }

  /** The first date-stamp-looking `_`-part of the newest audio file's name, if any. */
  function AudioStamp(audioPath: string): Option<string>
  {
    var parts := Split(Basename(audioPath), '_');
    var stamps := Seqs.Filter(parts, IsTimestampPart);
    if |parts| > 1 && stamps != [] then Some(stamps[0]) else None
  }

  /**
   * `find_generated_files(base_dir, timestamp)` over the two directory
   * listings: the `*.wav` files of `audio/` and the `*.*` files of
   * `images/`, in listing order, each with its creation time. Returns the
   * audio path (or none) and the image paths.
   */
  function FindGeneratedFiles(audioFiles: seq<FileRec>, imageFiles: seq<FileRec>, timestamp: string)
    : (Option<string>, seq<string>)
  {
    var images := Seqs.Filter(imageFiles, NotGitkeep);
    if audioFiles == [] || images == [] then (None, [])
    else
      var byStamp := (Matching(audioFiles, timestamp), Matching(images, timestamp));
      if timestamp != "" && byStamp.0 != [] && byStamp.1 != [] then
        (Some(byStamp.0[0].path), SortStrings(Paths(byStamp.1)))
      else
        var latest := audioFiles[Newest(audioFiles)];
        var stamp := AudioStamp(latest.path);
        if stamp.Some? && Matching(images, stamp.value) != [] then
          (Some(latest.path), SortStrings(Paths(Matching(images, stamp.value))))
        else
          var newestImages := SortNewestFirst(images);
          (Some(latest.path), Paths(newestImages[..if |newestImages| < 5 then |newestImages| else 5]))
  }

  /** No audio, or no image other than `.gitkeep`, gives `(None, [])`. */
  lemma FindNothing(audioFiles: seq<FileRec>, imageFiles: seq<FileRec>, timestamp: string)
    requires audioFiles == [] || forall i :: 0 <= i < |imageFiles| ==> !NotGitkeep(imageFiles[i])
    ensures FindGeneratedFiles(audioFiles, imageFiles, timestamp) == (None, [])
  {
    var images := Seqs.Filter(imageFiles, NotGitkeep);
    Seqs.FilterMembers(imageFiles, NotGitkeep);
    if images != [] {
      assert images[0] in imageFiles;
    }
  }

  /**
   * A timestamp found in both an audio and an image name selects the first
   * such audio and all such images, in sorted order.
   */
  lemma FindByTimestamp(audioFiles: seq<FileRec>, imageFiles: seq<FileRec>, timestamp: string)
    requires timestamp != ""
    requires Matching(audioFiles, timestamp) != []
    requires Matching(Seqs.Filter(imageFiles, NotGitkeep), timestamp) != []
    ensures var r := FindGeneratedFiles(audioFiles, imageFiles, timestamp);
      var found := Matching(Seqs.Filter(imageFiles, NotGitkeep), timestamp);
      && r.0 == Some(Matching(audioFiles, timestamp)[0].path)
      && SortedStrings(r.1)
      && multiset(r.1) == multiset(Paths(found))
      && Contains(Basename(r.0.value), timestamp)
  {
    var images := Seqs.Filter(imageFiles, NotGitkeep);
    assert |Matching(audioFiles, timestamp)| <= |audioFiles|;
    assert |Matching(images, timestamp)| <= |images|;
    SortStringsCorrect(Paths(Matching(images, timestamp)));
    var m := Matching(audioFiles, timestamp);
    Seqs.FilterAll(audioFiles, (f: FileRec) => Contains(Basename(f.path), timestamp));
  }

  /**
   * The stamp taken from an audio name is its first `_`-part made of at
   * least eight digits, and only a name with more than one part has one.
   */
  lemma AudioStampIsFirst(audioPath: string)
    requires AudioStamp(audioPath).Some?
    ensures var parts := Split(Basename(audioPath), '_');
      && |parts| > 1
      && exists i :: (0 <= i < |parts| && parts[i] == AudioStamp(audioPath).value
                      && IsTimestampPart(parts[i]) && forall j :: 0 <= j < i ==> !IsTimestampPart(parts[j]))
  {
    var parts := Split(Basename(audioPath), '_');
    Seqs.FilterFirst(parts, IsTimestampPart);
  }

  /**
   * Without a match for the given timestamp, a stamp in the newest audio's
   * name that some image names contain selects the newest audio and those
   * images, in sorted order.
   */
  lemma FindByAudioStamp(audioFiles: seq<FileRec>, imageFiles: seq<FileRec>, timestamp: string)
    requires audioFiles != [] && Seqs.Filter(imageFiles, NotGitkeep) != []
    requires timestamp == "" || Matching(audioFiles, timestamp) == [] ||
             Matching(Seqs.Filter(imageFiles, NotGitkeep), timestamp) == []
    requires var s := AudioStamp(audioFiles[Newest(audioFiles)].path);
             s.Some? && Matching(Seqs.Filter(imageFiles, NotGitkeep), s.value) != []
    ensures var r := FindGeneratedFiles(audioFiles, imageFiles, timestamp);
      var stamp := AudioStamp(audioFiles[Newest(audioFiles)].path).value;
      var found := Matching(Seqs.Filter(imageFiles, NotGitkeep), stamp);
      && r.0 == Some(audioFiles[Newest(audioFiles)].path)
      && r.1 == SortStrings(Paths(found))
      && SortedStrings(r.1) && multiset(r.1) == multiset(Paths(found))
  {
    var stamp := AudioStamp(audioFiles[Newest(audioFiles)].path).value;
    var found := Matching(Seqs.Filter(imageFiles, NotGitkeep), stamp);
    SortStringsCorrect(Paths(found));
  }

  /** Without any match the newest images come back, at most five, newest first. */
  lemma FindFallback(audioFiles: seq<FileRec>, imageFiles: seq<FileRec>, timestamp: string)
    requires audioFiles != [] && Seqs.Filter(imageFiles, NotGitkeep) != []
    requires timestamp == "" || Matching(audioFiles, timestamp) == [] ||
             Matching(Seqs.Filter(imageFiles, NotGitkeep), timestamp) == []
    requires var s := AudioStamp(audioFiles[Newest(audioFiles)].path);
             s.None? || Matching(Seqs.Filter(imageFiles, NotGitkeep), s.value) == []
    ensures var r := FindGeneratedFiles(audioFiles, imageFiles, timestamp);
      var images := Seqs.Filter(imageFiles, NotGitkeep);
      var sorted := SortNewestFirst(images);
      && r.0 == Some(audioFiles[Newest(audioFiles)].path)
      && |r.1| == (if |images| < 5 then |images| else 5)
      && NewestFirst(sorted) && multiset(sorted) == multiset(images)
      && r.1 == Paths(sorted[..|r.1|])
  {
    var images := Seqs.Filter(imageFiles, NotGitkeep);
    SortNewestFirstCorrect(images);
    var sorted := SortNewestFirst(images);
    assert |sorted| == |images| by {
      assert |multiset(sorted)| == |multiset(images)|;
    }
  }

  /** Every image path returned is the path of a listed image that is not `.gitkeep`. */
  lemma FoundImagesListed(audioFiles: seq<FileRec>, imageFiles: seq<FileRec>, timestamp: string)
    ensures var r := FindGeneratedFiles(audioFiles, imageFiles, timestamp);
      forall p :: p in r.1 ==> p in Paths(Seqs.Filter(imageFiles, NotGitkeep))
  {
    var r := FindGeneratedFiles(audioFiles, imageFiles, timestamp);
    var images := Seqs.Filter(imageFiles, NotGitkeep);
    if audioFiles != [] && images != [] {
      var m1 := Matching(audioFiles, timestamp);
      var m2 := Matching(images, timestamp);
      if timestamp != "" && m1 != [] && m2 != [] {
        MatchingFrom(images, timestamp);
        SortedFrom(Paths(m2));
        PathsSub(m2, images);
      } else {
        var latest := audioFiles[Newest(audioFiles)];
        var stamp := AudioStamp(latest.path);
        if stamp.Some? && Matching(images, stamp.value) != [] {
          MatchingFrom(images, stamp.value);
          SortedFrom(Paths(Matching(images, stamp.value)));
          PathsSub(Matching(images, stamp.value), images);
        } else {
          var sorted := SortNewestFirst(images);
          SortNewestFirstCorrect(images);
          var k := if |sorted| < 5 then |sorted| else 5;
          forall f | f in sorted[..k] ensures f in images {
            assert f in multiset(sorted);
          }
          PathsSub(sorted[..k], images);
        }
      }
    }
  }

  lemma MatchingFrom(files: seq<FileRec>, stamp: string)
    ensures forall f :: f in Matching(files, stamp) ==> f in files
  {
    Seqs.FilterMembers(files, (f: FileRec) => Contains(Basename(f.path), stamp));
  }

  lemma SortedFrom(xs: seq<string>)
    ensures forall p :: p in SortStrings(xs) ==> p in xs
  {
    SortStringsCorrect(xs);
    forall p | p in SortStrings(xs) ensures p in xs {
      assert p in multiset(SortStrings(xs));
    }
  }

  lemma PathsSub(xs: seq<FileRec>, ys: seq<FileRec>)
    requires forall f :: f in xs ==> f in ys
    ensures forall p :: p in Paths(xs) ==> p in Paths(ys)
  {
    forall p | p in Paths(xs) ensures p in Paths(ys) {
      var i :| 0 <= i < |xs| && Paths(xs)[i] == p;
      assert xs[i] in ys;
      var j :| 0 <= j < |ys| && ys[j] == xs[i];
      assert Paths(ys)[j] == p;
    }
  }
}
