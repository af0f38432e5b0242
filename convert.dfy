/**
 * The Convert service: an uploaded file whose format the image driver cannot manipulate (HEIC,
 * say) is converted to JPEG with Imagick before it is stored; the asset's temporary file, new
 * filename and new location are rewritten to the `.jpg` name and the original file is removed.
 */
module Convert {
  import opened Wrappers
  import opened Php
  import opened Settings
  import opened Assets

  /** The extension every converted file gets. */
  const JPG: string := "jpg"

  /** `getShouldConvert($volume)`: `convertUnmanipulable` of the volume, else of the wildcard
      entry, else false (a null-coalescing chain, so an explicit `false` on the volume wins over
      a `true` on the wildcard). */
  function GetShouldConvert(volumes: map<string, VolumeConfig>, handle: string): (b: bool)
    ensures var own := ConfigFor(volumes, handle).convertUnmanipulable;
            var all := ConfigFor(volumes, WILDCARD).convertUnmanipulable;
            b <==> own == Some(true) || (own.None? && all == Some(true))
  {
    ConfigFor(volumes, handle).convertUnmanipulable
      .GetOr(ConfigFor(volumes, WILDCARD).convertUnmanipulable.GetOr(false))
  }

  /** Conversion is off unless some entry turns it on. */
  lemma ConversionIsOptIn(volumes: map<string, VolumeConfig>, handle: string)
    requires ConfigFor(volumes, handle).convertUnmanipulable != Some(true)
    requires ConfigFor(volumes, WILDCARD).convertUnmanipulable != Some(true)
    ensures !GetShouldConvert(volumes, handle)
  {
  }

  /** The temporary path of the converted file: the original directory, a separator, the
      original filename stem and `.jpg`. */
  function ConvertedPath(path: string): string {
    Dirname(path) + "/" + Filename(path) + "." + JPG
  }

  /** The converted file stays in the original directory and keeps the original stem; only
      the extension becomes `jpg`. */
  lemma ConvertedPathParts(path: string)
    ensures var r := ConvertedPath(path);
            && Dirname(r) == Dirname(path)
            && Filename(r) == Filename(path)
            && Basename(r) == Filename(path) + "." + JPG
            && Extension(r) == JPG
  {
    FilenameHasNoSlash(path);
    PathinfoOfJoined(Dirname(path), Filename(path), JPG);
  }

  /** The asset's new filename: the stem of its filename and `.jpg`. */
  function ConvertedFilename(filename: string): string {
    Filename(filename) + "." + JPG
  }

  /** The new filename is a plain name with the old stem and the extension `jpg`. */
  lemma ConvertedFilenameParts(filename: string)
    ensures var r := ConvertedFilename(filename);
            && '/' !in r
            && Basename(r) == r
            && Filename(r) == Filename(filename)
            && Extension(r) == JPG
  {
    var stem := Filename(filename);
    FilenameHasNoSlash(filename);
    PathinfoOfSuffixed(stem, JPG);
    BasenameOfName(stem);
  }

  /** The asset's new location: every occurrence of the old basename replaced by the new
      filename. A location that was never set reads as "" (`str_replace()` on null). */
  function ConvertedLocation(filename: string, newFilename: string, location: Option<string>): string {
    ReplaceAll(Basename(filename), newFilename, location.GetOr(""))
  }

  /** A location that ends with the file's basename, and holds it nowhere else, ends with the new
      filename after the conversion and keeps everything before it (the folder reference). */
  lemma RenamedLocation(front: string, filename: string, newFilename: string)
    requires Basename(filename) != ""
    requires forall i :: 0 <= i < |front| ==> !OccursAt(Basename(filename), front + Basename(filename), i)
    ensures ConvertedLocation(filename, newFilename, Some(front + Basename(filename))) == front + newFilename
  {
    ReplaceAllAtEnd(front, Basename(filename), newFilename);
  }

  /** A location that does not mention the file's basename is left as it is. */
  lemma UnrelatedLocation(filename: string, newFilename: string, location: string)
    requires forall i :: 0 <= i < |location| ==> !OccursAt(Basename(filename), location, i)
    ensures ConvertedLocation(filename, newFilename, Some(location)) == location
  {
    ReplaceAllAbsent(Basename(filename), newFilename, location);
  }

  /** The files on the local disk that the conversion reads, writes and unlinks. */
  class Disk {
    var files: set<string>

    constructor (files: set<string>)
      ensures this.files == files
    {
      this.files := files;
    }
  }

  /** `convert($asset)`. `written` says whether Imagick read the first frame of the file and
      wrote the JPEG; when it did not, the exception is logged and nothing changes. Otherwise the
      JPEG is on disk, the three asset fields are rewritten and only then is the original
      unlinked. A missing temporary path reads as "" (`pathinfo(null)`). */
  method ConvertAsset(asset: Asset, disk: Disk, written: bool)
    modifies asset`tempFilePath, asset`newFilename, asset`newLocation, disk`files
    ensures written ==> asset.tempFilePath == Some(ConvertedPath(old(asset.tempFilePath).GetOr("")))
    ensures written ==> asset.newFilename == Some(ConvertedFilename(asset.filename))
    ensures written ==> asset.newLocation == Some(ConvertedLocation(asset.filename, ConvertedFilename(asset.filename),
                                                                    old(asset.newLocation)))
    ensures written ==> disk.files == (old(disk.files) + {ConvertedPath(old(asset.tempFilePath).GetOr(""))})
                                      - {old(asset.tempFilePath).GetOr("")}
    ensures !written ==> unchanged(asset) && unchanged(disk)
  {
    if !written {
      return;
    }
    var path := asset.tempFilePath.GetOr("");
    var filename, location := asset.filename, asset.newLocation;
    var newPath := ConvertedPath(path);
    disk.files := disk.files + {newPath};

    var newFilename := ConvertedFilename(filename);
    var newLocation := ConvertedLocation(filename, newFilename, location);
    asset.tempFilePath := Some(newPath);
    asset.newFilename := Some(newFilename);
    asset.newLocation := Some(newLocation);
    assert asset.filename == filename;

    disk.files := disk.files - {path};
  }

  /** Whether `maybeConvert` goes on to `convert`: the asset has a truthy temporary path, its
      volume resolves to a handle, conversion is on for that volume, the driver cannot
      manipulate the file's extension, and the driver is Imagick. */
  predicate ShouldConvertAsset(tempFilePath: Option<string>, handle: Option<string>,
                               volumes: map<string, VolumeConfig>, canManipulate: string -> bool,
                               isImagick: bool)
  {
    && IsTruthy(tempFilePath)
    && handle.Some?
    && GetShouldConvert(volumes, handle.value)
    && !canManipulate(Extension(tempFilePath.value))
    && isImagick
  }

  /** `maybeConvert($asset)`: `handle` is the handle of the asset's volume, None when the volume
      cannot be resolved; `canManipulate` is the host's `Image::canManipulateAsImage()`. The
      asset and the disk change only when every gate passes, and then as `convert` changes
      them. */
  method MaybeConvert(asset: Asset, disk: Disk, handle: Option<string>,
                      volumes: map<string, VolumeConfig>, canManipulate: string -> bool,
                      isImagick: bool, written: bool)
    modifies asset`tempFilePath, asset`newFilename, asset`newLocation, disk`files
    ensures var go := ShouldConvertAsset(old(asset.tempFilePath), handle, volumes, canManipulate, isImagick);
            var path := old(asset.tempFilePath).GetOr("");
            var newFilename := ConvertedFilename(asset.filename);
            if go && written then
              && asset.tempFilePath == Some(ConvertedPath(path))
              && asset.newFilename == Some(newFilename)
              && asset.newLocation == Some(ConvertedLocation(asset.filename, newFilename, old(asset.newLocation)))
              && disk.files == (old(disk.files) + {ConvertedPath(path)}) - {path}
            else
              && asset.tempFilePath == old(asset.tempFilePath)
              && asset.newFilename == old(asset.newFilename)
              && asset.newLocation == old(asset.newLocation)
              && disk.files == old(disk.files)
  {
    var path := asset.tempFilePath;
    if !IsTruthy(path) {
      return;
    }
    if handle.None? {
      return;
    }
    var shouldConvert := GetShouldConvert(volumes, handle.value);
    if !shouldConvert {
      return;
    }
    if canManipulate(Extension(path.value)) {
      return;
    }
    if !isImagick {
      return;
    }
    ConvertAsset(asset, disk, written);
  }

  /** A converted file no longer needs conversion: its extension is `jpg`, which every driver
      that manipulates JPEG accepts, so a second `maybeConvert` on the new temporary path stops
      at the extension gate. */
  lemma ConvertOnce(path: string, handle: Option<string>, volumes: map<string, VolumeConfig>,
                    canManipulate: string -> bool, isImagick: bool)
    requires canManipulate(JPG)
    ensures !ShouldConvertAsset(Some(ConvertedPath(path)), handle, volumes, canManipulate, isImagick)
  {
    ConvertedPathParts(path);
  }
}
