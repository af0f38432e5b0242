/**
 * The Resize service: on upload (or on a move to another volume) an image is resized unless
 * every configured limit is strictly larger than its side along it; the constrained side is
 * chosen by orientation, so the target can be larger than the image. The result is saved with a
 * format-dependent quality and rotated by its EXIF orientation when the host is configured to
 * do so.
 *
 * The image library is not modelled: what the service asks of it is recorded as a trace of
 * `ImageOp`s, and the host's answers (can the extension be manipulated, the image's size and
 * EXIF orientation, the target size of `calculateMissingDimension`) are inputs.
 */
module Resize {
  import opened Wrappers
  import opened Php
  import opened Settings
  import opened Assets

  /** `ResizeSettings::$quality` when nothing is configured. */
  const DEFAULT_QUALITY: int := 95
  /** The quality (a compression level) used for PNG files. */
  const PNG_QUALITY: int := 2

  /** EXIF orientation codes (tag 0x0112 of the EXIF standard) for which a rotation is needed. */
  const EXIF_ROTATE_180: int := 3
  const EXIF_ROTATE_90: int := 6
  const EXIF_ROTATE_270: int := 8

  /** `ResizeSettings`. */
  datatype ResizeSettings = ResizeSettings(maxWidth: Option<int>, maxHeight: Option<int>, quality: int)

  /** `new ResizeSettings($array)`: a key set to null leaves the limit unset. */
  function FromArray(a: ResizeArray): ResizeSettings {
    ResizeSettings(a.maxWidth.GetOr(None), a.maxHeight.GetOr(None), a.quality.GetOr(DEFAULT_QUALITY))
  }

  /** `getResizeConfig($volume)`: the volume's resize array merged over the wildcard's, key by key. */
  function GetResizeConfig(volumes: map<string, VolumeConfig>, handle: string): (c: ResizeSettings)
    ensures var own := ConfigFor(volumes, handle).resize;
            var all := ConfigFor(volumes, WILDCARD).resize;
            && c.maxWidth == (if own.maxWidth.Some? then own.maxWidth.value
                              else if all.maxWidth.Some? then all.maxWidth.value else None)
            && c.maxHeight == (if own.maxHeight.Some? then own.maxHeight.value
                               else if all.maxHeight.Some? then all.maxHeight.value else None)
            && c.quality == (if own.quality.Some? then own.quality.value
                             else if all.quality.Some? then all.quality.value else DEFAULT_QUALITY)
  {
    var all := ConfigFor(volumes, WILDCARD).resize;
    var own := ConfigFor(volumes, handle).resize;
    FromArray(ResizeArray(
      MergeKey(all.maxWidth, own.maxWidth),
      MergeKey(all.maxHeight, own.maxHeight),
      MergeKey(all.quality, own.quality)))
  }

  /** A volume without an entry of its own gets exactly the wildcard's settings. */
  lemma UnknownVolumeGetsWildcard(volumes: map<string, VolumeConfig>, handle: string)
    requires handle !in volumes
    ensures GetResizeConfig(volumes, handle) == FromArray(ConfigFor(volumes, WILDCARD).resize)
  {
  }

  /** Which side of the image a resize constrains. */
  datatype Side = Width | Height

  /** The decision `resize` takes for an image of the given size: leave it, or scale it so that
      one side meets the given limit. */
  datatype Decision = Unchanged | Constrain(side: Side, limit: int)

  /** Every configured limit is strictly larger than the image's side along it, and there is at
      least one limit. */
  predicate BelowLimits(config: ResizeSettings, width: int, height: int) {
    && (config.maxWidth.Some? || config.maxHeight.Some?)
    && (config.maxWidth.Some? ==> width < config.maxWidth.value)
    && (config.maxHeight.Some? ==> height < config.maxHeight.value)
  }

  /** The skip test and the choice of the constrained side in `resize`. */
  function Decide(config: ResizeSettings, width: int, height: int): (d: Decision)
    ensures d == Unchanged <==> BelowLimits(config, width, height)
                                || (config.maxWidth.None? && config.maxHeight.None?)
    ensures d.Constrain? ==>
              (d.side == Width <==> config.maxWidth.Some? && (config.maxHeight.None? || width > height))
    ensures d.Constrain? && d.side == Width ==> config.maxWidth == Some(d.limit)
    ensures d.Constrain? && d.side == Height ==> config.maxHeight == Some(d.limit)
  {
    var mw, mh := config.maxWidth, config.maxHeight;
    if || (mw.Some? && mh.None? && width < mw.value)
       || (mw.None? && mh.Some? && height < mh.value)
       || (mw.Some? && mh.Some? && width < mw.value && height < mh.value)
    then Unchanged
    else if mw.Some? && mh.Some? then
      if width > height then Constrain(Width, mw.value) else Constrain(Height, mh.value)
    else if mw.Some? then Constrain(Width, mw.value)
    else if mh.Some? then Constrain(Height, mh.value)
    else Unchanged
  }

  /** An image exactly at a configured limit is still resized. */
  lemma AtLimitIsResized(config: ResizeSettings, width: int, height: int)
    requires config.maxWidth == Some(width) || config.maxHeight == Some(height)
    ensures Decide(config, width, height).Constrain?
  {
  }

  /** With both limits set, a square image is constrained by its height. */
  lemma SquareUsesHeight(config: ResizeSettings, side: int)
    requires config.maxWidth.Some? && config.maxHeight.Some?
    requires !BelowLimits(config, side, side)
    ensures Decide(config, side, side) == Constrain(Height, config.maxHeight.value)
  {
  }

  /** With both limits set, a landscape image is constrained to the width limit even when only its
      height reaches its own limit. The target width is then larger than the image's width: for
      instance, 500x400 under 1000x300 gets a target width of 1000. */
  lemma LandscapeUsesWidthLimit(config: ResizeSettings, width: int, height: int)
    requires config.maxWidth.Some? && config.maxHeight.Some?
    requires width > height && height >= config.maxHeight.value && width < config.maxWidth.value
    ensures Decide(config, width, height) == Constrain(Width, config.maxWidth.value)
    ensures Decide(config, width, height).limit > width
  {
  }

  /** `getImageQuality`: 2 for a path ending in ".png" (case-sensitive), the configured quality
      otherwise. */
  function GetImageQuality(path: string, config: ResizeSettings): (q: int)
    ensures q == if EndsWith(path, ".png") then PNG_QUALITY else config.quality
  {
    PngExtension(path);
    if Extension(path) == "png" then PNG_QUALITY else config.quality
  }

  /** The extension is exactly "png" when the path ends with ".png". */
  lemma PngExtension(path: string)
    ensures Extension(path) == "png" <==> EndsWith(path, ".png")
  {
    assert "." + "png" == ".png";
    ExtensionIsSuffix(path, "png");
  }

  /** The rotation `save` applies for an EXIF orientation, 0 for none. */
  function RotationDegrees(orientation: Option<int>): (degrees: int)
    ensures degrees == 0 || degrees == 90 || degrees == 180 || degrees == 270
    ensures degrees == 180 <==> orientation == Some(EXIF_ROTATE_180)
    ensures degrees == 90 <==> orientation == Some(EXIF_ROTATE_90)
    ensures degrees == 270 <==> orientation == Some(EXIF_ROTATE_270)
  {
    match orientation
    case Some(o) =>
      if o == EXIF_ROTATE_180 then 180
      else if o == EXIF_ROTATE_90 then 90
      else if o == EXIF_ROTATE_270 then 270
      else 0
    case None => 0
  }

  /** What the service asks of the image library. */
  datatype ImageOp =
    | Load(path: string)
    | ResizeTo(width: int, height: int)
    | SetQuality(quality: int)
    | SaveAs(path: string)
    | Rotate(degrees: int)

  /** The image at the temporary path, as the library reports it. */
  datatype ImageFile = ImageFile(width: int, height: int, orientation: Option<int>)

  /** The host's part: `Image::canManipulateAsImage`, `Image::calculateMissingDimension` (None
      for an empty result), whether the loaded image has `setQuality`, and the general setting
      `rotateImagesOnUploadByExifData`. */
  datatype ImageHost = ImageHost(
    canManipulateAsImage: string -> bool,
    calculateMissingDimension: (Option<int>, Option<int>, int, int) -> Option<(int, int)>,
    hasSetQuality: bool,
    rotateByExif: bool)

  /** The calls `save` makes: save, then (when a rotation is due and enabled) reload, rotate and
      save again. */
  function SaveTrace(path: string, orientation: Option<int>, rotateByExif: bool): seq<ImageOp> {
    var degrees := RotationDegrees(orientation);
    [SaveAs(path)] + if degrees != 0 && rotateByExif then [Load(path), Rotate(degrees), SaveAs(path)] else []
  }

  /** The size `resize` scales the image to: none when the image is left unchanged or when the
      host's `calculateMissingDimension` comes back empty. */
  function Target(config: ResizeSettings, image: ImageFile, host: ImageHost): (t: Option<(int, int)>)
    ensures t.Some? ==> !BelowLimits(config, image.width, image.height)
                        && (config.maxWidth.Some? || config.maxHeight.Some?)
  {
    var d := Decide(config, image.width, image.height);
    if d == Unchanged then None
    else host.calculateMissingDimension(
      if d.side == Width then Some(d.limit) else None,
      if d.side == Height then Some(d.limit) else None,
      image.width, image.height)
  }

  /** The calls `resize` makes for the image at `path`. */
  function ResizeTrace(path: string, config: ResizeSettings, image: ImageFile, host: ImageHost): seq<ImageOp> {
    if !host.canManipulateAsImage(Extension(path)) then []
    else
      match Target(config, image, host)
      case None => [Load(path)]
      case Some(size) =>
        var quality := if host.hasSetQuality then Some(GetImageQuality(path, config)) else None;
        [Load(path), ResizeTo(size.0, size.1)] + AfterResize(quality, path, image.orientation, host.rotateByExif)
  }

  /** The calls after the resize: the quality, when the host lets it be set, then `save`. */
  function AfterResize(quality: Option<int>, path: string, orientation: Option<int>, rotateByExif: bool): seq<ImageOp> {
    (if quality.Some? then [SetQuality(quality.value)] else [])
    + SaveTrace(path, orientation, rotateByExif)
  }

  /** `save`: the image is saved first; a rotation, when one happens, comes after that first save
      and is followed by a save of its own. Rotation happens exactly when the orientation calls
      for one and the host setting is on. */
  method Save(path: string, orientation: Option<int>, rotateByExif: bool) returns (ops: seq<ImageOp>)
    ensures ops == SaveTrace(path, orientation, rotateByExif)
    ensures ops[0] == SaveAs(path) && ops[|ops| - 1] == SaveAs(path)
    ensures (exists i :: 0 <= i < |ops| && ops[i].Rotate?)
            <==> rotateByExif && RotationDegrees(orientation) != 0
    ensures forall i :: 0 <= i < |ops| && ops[i].Rotate? ==>
              0 < i && ops[i].degrees == RotationDegrees(orientation)
  {
    var degrees := RotationDegrees(orientation);
    ops := [SaveAs(path)];
    if degrees != 0 && rotateByExif {
      ops := ops + [Load(path)];
      ops := ops + [Rotate(degrees)];
      ops := ops + [SaveAs(path)];
      assert ops[2].Rotate?;
    }
  }

  /** `resize`: nothing happens to an image the host cannot manipulate; an image within its limits
      (or with no limit configured) is only loaded; otherwise it is resized to the host's target
      size for the constrained side and saved to the same path. */
  method ResizeImage(path: string, config: ResizeSettings, image: ImageFile, host: ImageHost)
    returns (ops: seq<ImageOp>)
    ensures ops == ResizeTrace(path, config, image, host)
  {
    ops := [];
    if !host.canManipulateAsImage(Extension(path)) {
      return;
    }
    ops := [Load(path)];
    var target := Target(config, image, host);
    if target.None? {
      return;
    }
    var quality := if host.hasSetQuality then [SetQuality(GetImageQuality(path, config))] else [];
    var saved := Save(path, image.orientation, host.rotateByExif);
    ops := [Load(path), ResizeTo(target.value.0, target.value.1)] + (quality + saved);
  }

  /** `save` makes no resize call and ends with a save to the path. */
  lemma SaveTraceShape(path: string, orientation: Option<int>, rotateByExif: bool)
    ensures var s := SaveTrace(path, orientation, rotateByExif);
            && |s| > 0 && s[|s| - 1] == SaveAs(path)
            && forall i :: 0 <= i < |s| ==> !s[i].ResizeTo?
  {
    var degrees := RotationDegrees(orientation);
    if degrees != 0 && rotateByExif {
      assert SaveTrace(path, orientation, rotateByExif) == [SaveAs(path), Load(path), Rotate(degrees), SaveAs(path)];
    } else {
      assert SaveTrace(path, orientation, rotateByExif) == [SaveAs(path)];
    }
  }

  /** The calls after the resize hold no resize and end with a save to the path. */
  lemma AfterResizeShape(quality: Option<int>, path: string, orientation: Option<int>, rotateByExif: bool)
    ensures var r := AfterResize(quality, path, orientation, rotateByExif);
            && |r| > 0 && r[|r| - 1] == SaveAs(path)
            && forall i :: 0 <= i < |r| ==> !r[i].ResizeTo?
  {
    var q: seq<ImageOp> := if quality.Some? then [SetQuality(quality.value)] else [];
    var s := SaveTrace(path, orientation, rotateByExif);
    SaveTraceShape(path, orientation, rotateByExif);
    AppendSaveShape(q, s, path);
  }

  /** Calls without a resize, followed by calls without a resize that end with a save, hold no
      resize and end with that save. */
  lemma AppendSaveShape(q: seq<ImageOp>, s: seq<ImageOp>, path: string)
    requires forall i :: 0 <= i < |q| ==> !q[i].ResizeTo?
    requires |s| > 0 && s[|s| - 1] == SaveAs(path)
    requires forall i :: 0 <= i < |s| ==> !s[i].ResizeTo?
    ensures |q + s| > 0 && (q + s)[|q + s| - 1] == SaveAs(path)
    ensures forall i :: 0 <= i < |q + s| ==> !(q + s)[i].ResizeTo?
  {
    forall i | 0 <= i < |q + s| ensures !(q + s)[i].ResizeTo? {
      if i >= |q| {
        assert (q + s)[i] == s[i - |q|];
      }
    }
  }

  /** A load and a resize followed by calls that hold no resize and end with a save: the only
      resize is the second call, and the last call is that save. */
  lemma ResizeComesSecond(ops: seq<ImageOp>, path: string, width: int, height: int, rest: seq<ImageOp>)
    requires ops == [Load(path), ResizeTo(width, height)] + rest
    requires |rest| > 0 && rest[|rest| - 1] == SaveAs(path)
    requires forall i :: 0 <= i < |rest| ==> !rest[i].ResizeTo?
    ensures exists i :: 0 <= i < |ops| && ops[i].ResizeTo?
    ensures forall i :: 0 <= i < |ops| && ops[i].ResizeTo? ==>
              i == 1 && ops[0] == Load(path) && ops[|ops| - 1] == SaveAs(path)
  {
    assert ops[1].ResizeTo?;
    forall i | 2 <= i < |ops| ensures !ops[i].ResizeTo? {
      assert ops[i] == rest[i - 2];
    }
    assert ops[|ops| - 1] == rest[|rest| - 1];
  }

  /** An image is resized exactly when the host can manipulate it and a target size exists; the
      resize then comes right after the load, and the last call saves to the same path. */
  lemma {:induction false} ResizeHappensWhen(path: string, config: ResizeSettings, image: ImageFile, host: ImageHost)
    ensures var ops := ResizeTrace(path, config, image, host);
      (exists i :: 0 <= i < |ops| && ops[i].ResizeTo?) <==>
        host.canManipulateAsImage(Extension(path)) && Target(config, image, host).Some?
    ensures var ops := ResizeTrace(path, config, image, host);
      forall i :: 0 <= i < |ops| && ops[i].ResizeTo? ==>
        i == 1 && ops[0] == Load(path) && ops[|ops| - 1] == SaveAs(path)
  {
    var ops := ResizeTrace(path, config, image, host);
    var target := Target(config, image, host);
    if host.canManipulateAsImage(Extension(path)) && target.Some? {
      var quality := if host.hasSetQuality then Some(GetImageQuality(path, config)) else None;
      var rest := AfterResize(quality, path, image.orientation, host.rotateByExif);
      AfterResizeShape(quality, path, image.orientation, host.rotateByExif);
      ResizeComesSecond(ops, path, target.value.0, target.value.1, rest);
    } else {
      assert ops == [] || ops == [Load(path)];
    }
  }

  /** `maybeResize`: resolve the asset's volume and its merged settings; only a configured
      `maxWidth` lets the resize go ahead (the guard tests `maxWidth` twice, so a height-only
      configuration never resizes here). An asset without a temporary file that is moved to
      another volume first gets a local copy (`copy`, None when pulling it fails, which ends the
      call); then the image at the temporary path is resized. */
  method MaybeResize(asset: Asset, volume: Option<Volume>, volumes: map<string, VolumeConfig>,
                     copy: Option<string>, image: ImageFile, host: ImageHost)
    returns (ops: seq<ImageOp>)
    modifies asset`tempFilePath
    ensures var config := if volume.Some? then GetResizeConfig(volumes, volume.value.handle)
                          else FromArray(ResizeArray(None, None, None));
            var go := volume.Some? && config.maxWidth.Some?;
            var pull := go && !IsTruthy(old(asset.tempFilePath))
                        && (asset.scenario == ScenarioMove || asset.scenario == ScenarioFileOps)
                        && asset.volumeId != Some(volume.value.id);
            && asset.tempFilePath == (if pull && copy.Some? then copy else old(asset.tempFilePath))
            && ops == (if !go || (pull && copy.None?) || !IsTruthy(asset.tempFilePath) then []
                       else ResizeTrace(asset.tempFilePath.value, config, image, host))
  {
    ops := [];
    if volume.None? {
      return;
    }
    var config := GetResizeConfig(volumes, volume.value.handle);
    if config.maxWidth.None? {
      return;
    }
    var path := asset.tempFilePath;
    if !IsTruthy(path)
       && (asset.scenario == ScenarioMove || asset.scenario == ScenarioFileOps)
       && asset.volumeId != Some(volume.value.id)
    {
      if copy.None? {
        return;
      }
      path := copy;
      asset.tempFilePath := path;
    }
    if !IsTruthy(path) {
      return;
    }
    ops := ResizeImage(path.value, config, image, host);
  }
}
