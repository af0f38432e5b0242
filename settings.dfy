/**
 * The plugin's `volumes` setting: one raw settings array per volume handle, plus the
 * wildcard entry '*' whose values apply to every volume that does not set its own.
 * A key that is not set in a PHP array is `None`; a key that is set to `null` (allowed for
 * the nullable resize limits and for `size`) is `Some(None)`.
 */
module Settings {
  import opened Wrappers

  /** The handle of the wildcard (default) entry of `volumes`. */
  const WILDCARD: string := "*"

  /** A volume as the host resolves it. */
  datatype Volume = Volume(id: int, handle: string)

  /** A size bound as configured: an integer number of bytes or a string such as "10M". */
  datatype SizeValue = SizeInt(n: int) | SizeString(s: string)

  /** `ValidationSize`: the optional upper and lower bound on the file size. */
  datatype ValidationSize = ValidationSize(max: Option<SizeValue>, min: Option<SizeValue>)

  /** The `validation` array of one volume's settings. */
  datatype ValidationArray = ValidationArray(
    kinds: Option<seq<string>>,
    extensions: Option<seq<string>>,
    size: Option<Option<ValidationSize>>)

  /** The `resize` array of one volume's settings. */
  datatype ResizeArray = ResizeArray(
    maxWidth: Option<Option<int>>,
    maxHeight: Option<Option<int>>,
    quality: Option<int>)

  /** One entry of `volumes`. `convertUnmanipulable` is read by the Convert service as an
      optional boolean next to `validation` and `resize`. */
  datatype VolumeConfig = VolumeConfig(
    validation: ValidationArray,
    resize: ResizeArray,
    convertUnmanipulable: Option<bool>)

  /** `new VolumeSettings([])`: nothing set. */
  const EMPTY_CONFIG: VolumeConfig :=
    VolumeConfig(ValidationArray(None, None, None), ResizeArray(None, None, None), None)

  /** `$volumes[$handle] ?? []`. */
  function ConfigFor(volumes: map<string, VolumeConfig>, handle: string): VolumeConfig {
    if handle in volumes then volumes[handle] else EMPTY_CONFIG
  }

  /** One key of `array_merge($base, $override)`: the override's entry when it is set at all,
      otherwise the base's. */
  function MergeKey<T>(base: Option<T>, override: Option<T>): Option<T> {
    if override.Some? then override else base
  }
}
