/**
 * The Validate service: before an asset is saved, its extension, its kind and its file size are
 * checked against the volume's validation settings, in that order, and failures are added as
 * errors on the asset's `title` attribute.
 */
module Validate {
  import opened Wrappers
  import opened Php
  import opened Settings
  import opened Assets

  /** The attribute every validation error is attached to. */
  const TITLE: string := "title"

  /** `ValidationSettings`. */
  datatype ValidationSettings = ValidationSettings(
    kinds: seq<string>,
    extensions: seq<string>,
    size: Option<ValidationSize>)

  /** `new ValidationSettings($array)`. */
  function ValidationSettingsOf(a: ValidationArray): ValidationSettings {
    ValidationSettings(a.kinds.GetOr([]), a.extensions.GetOr([]), a.size.GetOr(None))
  }

  /** `getValidateConfig($volume)`: a shallow merge, so a volume's `kinds`, `extensions` or `size`
      replaces the wildcard's value as a whole, and a key the volume does not set keeps the
      wildcard's value. */
  function GetValidateConfig(volumes: map<string, VolumeConfig>, handle: string): (c: ValidationSettings)
    ensures var own := ConfigFor(volumes, handle).validation;
            var all := ConfigFor(volumes, WILDCARD).validation;
            && c.kinds == (if own.kinds.Some? then own.kinds.value else all.kinds.GetOr([]))
            && c.extensions == (if own.extensions.Some? then own.extensions.value else all.extensions.GetOr([]))
            && c.size == (if own.size.Some? then own.size.value else all.size.GetOr(None))
  {
    var all := ConfigFor(volumes, WILDCARD).validation;
    var own := ConfigFor(volumes, handle).validation;
    ValidationSettingsOf(ValidationArray(
      MergeKey(all.kinds, own.kinds),
      MergeKey(all.extensions, own.extensions),
      MergeKey(all.size, own.size)))
  }

  /** `formatAllowed($list)`: "a", "a or b", "a, b or c", ... The source only calls it with a
      non-empty list. */
  function FormatAllowed(list: seq<string>): (r: string)
    requires |list| > 0
    ensures |list| == 1 ==> r == list[0]
    ensures |list| == 2 ==> r == list[0] + " or " + list[1]
  {
    if |list| < 2 then list[0]
    else
      var front := list[..|list| - 1];
      assert |list| == 2 ==> Implode(", ", front) == list[0];
      Implode(", ", front) + " or " + list[|list| - 1]
  }

  /** Three or more items: the first, ", ", then the message for the rest. */
  lemma FormatAllowedCons(list: seq<string>)
    requires |list| >= 3
    ensures FormatAllowed(list) == list[0] + ", " + FormatAllowed(list[1..])
  {
    var rest, last := list[1..], list[|list| - 1];
    var x := Implode(", ", rest[..|rest| - 1]);
    JoinedFrontCons(list);
    assert FormatAllowed(rest) == x + " or " + last;
    assert list[0] + ", " + x + " or " + last == list[0] + ", " + (x + " or " + last);
  }

  /** The front of three or more items, joined: the first item, ", ", and the rest's front. */
  lemma JoinedFrontCons(list: seq<string>)
    requires |list| >= 3
    ensures Implode(", ", list[..|list| - 1]) == list[0] + ", " + Implode(", ", list[1..][..|list| - 2])
  {
    var front := list[..|list| - 1];
    ImplodeCons(", ", front);
    assert front[1..] == list[1..][..|list| - 2];
  }

  /** Two or more items: the message starts with the first item and ends with " or " and the
      last. */
  lemma FormatAllowedEnds(list: seq<string>)
    requires |list| >= 2
    ensures var r := FormatAllowed(list);
            |list[0]| <= |r| && r[..|list[0]|] == list[0] && EndsWith(r, " or " + list[|list| - 1])
  {
    var front, tail := list[..|list| - 1], " or " + list[|list| - 1];
    ImplodeEnds(", ", front);
    var j := Implode(", ", front);
    assert front[0] == list[0];
    assert FormatAllowed(list) == j + tail;
    assert (j + tail)[..|list[0]|] == j[..|list[0]|];
    assert (j + tail)[|j + tail| - |tail|..] == tail;
  }

  /** The length of the message: that of the items, two for each ", " and four for the " or ". */
  lemma FormatAllowedLength(list: seq<string>)
    requires |list| > 0
    ensures |FormatAllowed(list)| == TotalLength(list) + if |list| >= 2 then 2 * (|list| - 2) + 4 else 0
  {
    if |list| == 1 {
      assert list[..0] == [];
    } else {
      var front := list[..|list| - 1];
      ImplodeLength(", ", front);
      assert TotalLength(list) == TotalLength(front) + |list[|list| - 1]|;
    }
  }

  /** Three items read as a list with a final "or". */
  lemma FormatAllowedThree()
    ensures FormatAllowed(["jpg", "png", "gif"]) == "jpg, png or gif"
  {
    var list := ["jpg", "png", "gif"];
    assert list[..2] == ["jpg", "png"];
    assert ["jpg", "png"][..1] == ["jpg"];
  }

  /** A configured size bound that PHP treats as false (null, 0, "" or "0") is skipped. */
  predicate IsFalsySize(v: Option<SizeValue>) {
    match v
    case None => true
    case Some(SizeInt(n)) => n == 0
    case Some(SizeString(s)) => IsFalsyString(s)
  }

  /** The errors of the size check: a file larger than `max` and a file smaller than `min`, each
      bound measured by the host's `sizeInBytes`. */
  function SizeErrors(size: ValidationSize, filename: string, fileSize: int,
                      sizeInBytes: SizeValue -> int): seq<ValidationError>
  {
    (if !IsFalsySize(size.max) && fileSize > sizeInBytes(size.max.value)
     then [ExceedsMaximum(filename, size.max.value)] else [])
    + (if !IsFalsySize(size.min) && fileSize < sizeInBytes(size.min.value)
       then [BelowMinimum(filename, size.min.value)] else [])
  }

  /** The name whose extension is checked: the new filename when one is set. */
  function CheckedName(filename: string, newFilename: Option<string>): string {
    newFilename.GetOr(filename)
  }

  /** The errors `validateAsset` adds, in order, once the volume is known: the extension check
      first, then the kind check, each ending the validation when it fails, then the two
      independent size checks. */
  function ValidationErrors(config: ValidationSettings, filename: string, newFilename: Option<string>,
                            kind: string, fileSize: int, sizeInBytes: SizeValue -> int): seq<ValidationError>
  {
    var extension := Extension(CheckedName(filename, newFilename));
    if |config.extensions| > 0 && ToLower(extension) !in config.extensions then
      [ExtensionNotAllowed(extension, FormatAllowed(config.extensions))]
    else if |config.kinds| > 0 && ToLower(kind) !in config.kinds then
      [KindNotAllowed(kind, FormatAllowed(config.kinds))]
    else if config.size.None? then []
    else SizeErrors(config.size.value, filename, fileSize, sizeInBytes)
  }

  /** The extension (lower-cased) is in the list, or the list is empty. */
  predicate ExtensionAllowed(config: ValidationSettings, name: string) {
    config.extensions == [] || ToLower(Extension(name)) in config.extensions
  }

  /** The kind (lower-cased) is in the list, or the list is empty. */
  predicate KindAllowed(config: ValidationSettings, kind: string) {
    config.kinds == [] || ToLower(kind) in config.kinds
  }

  /** Every configured, truthy bound holds; a size equal to a bound is within it. */
  predicate SizeAllowed(config: ValidationSettings, fileSize: int, sizeInBytes: SizeValue -> int) {
    config.size.Some? ==>
      && (IsFalsySize(config.size.value.max) || fileSize <= sizeInBytes(config.size.value.max.value))
      && (IsFalsySize(config.size.value.min) || fileSize >= sizeInBytes(config.size.value.min.value))
  }

  /** No error is added exactly when all three checks accept the asset. */
  lemma NoErrorsIffAccepted(config: ValidationSettings, filename: string, newFilename: Option<string>,
                            kind: string, fileSize: int, sizeInBytes: SizeValue -> int)
    ensures ValidationErrors(config, filename, newFilename, kind, fileSize, sizeInBytes) == []
            <==> && ExtensionAllowed(config, CheckedName(filename, newFilename))
                 && KindAllowed(config, kind)
                 && SizeAllowed(config, fileSize, sizeInBytes)
  {
  }

  /** The checks exit early: a refused extension gives exactly one error and hides the kind and
      size checks, a refused kind gives exactly one error and hides the size check; only the two
      size errors can come together, and then the minimum exceeds the maximum. */
  lemma EarlyExit(config: ValidationSettings, filename: string, newFilename: Option<string>,
                  kind: string, fileSize: int, sizeInBytes: SizeValue -> int)
    ensures var errs := ValidationErrors(config, filename, newFilename, kind, fileSize, sizeInBytes);
            var extension := Extension(CheckedName(filename, newFilename));
            && (!ExtensionAllowed(config, CheckedName(filename, newFilename)) ==>
                  errs == [ExtensionNotAllowed(extension, FormatAllowed(config.extensions))])
            && (ExtensionAllowed(config, CheckedName(filename, newFilename)) && !KindAllowed(config, kind) ==>
                  errs == [KindNotAllowed(kind, FormatAllowed(config.kinds))])
            && |errs| <= 2
            && (|errs| == 2 ==>
                  && errs[0].ExceedsMaximum? && errs[1].BelowMinimum?
                  && sizeInBytes(config.size.value.max.value) < fileSize < sizeInBytes(config.size.value.min.value))
  {
    var name := CheckedName(filename, newFilename);
    var errs := ValidationErrors(config, filename, newFilename, kind, fileSize, sizeInBytes);
    if ExtensionAllowed(config, name) && KindAllowed(config, kind) && config.size.Some? {
      assert errs == SizeErrors(config.size.value, filename, fileSize, sizeInBytes);
    }
  }

  /** The extension list is compared after lower-casing the extension only, so a list whose every
      entry holds an upper-case letter refuses every file. */
  lemma UpperCaseListRefusesAll(config: ValidationSettings, name: string)
    requires config.extensions != []
    requires forall e :: e in config.extensions ==> HasUpper(e)
    ensures !ExtensionAllowed(config, name)
  {
    ToLowerHasNoUpper(Extension(name));
  }

  /** The errors of one validation, each on the `title` attribute. */
  function OnTitle(errs: seq<ValidationError>): seq<AttributeError> {
    seq(|errs|, i requires 0 <= i < |errs| => AttributeError(TITLE, errs[i]))
  }

  /** The size check of `validateAsset`: the maximum and the minimum are checked independently. */
  method AddSizeErrors(asset: Asset, size: ValidationSize, filename: string, fileSize: int,
                       sizeInBytes: SizeValue -> int)
    modifies asset`errors
    ensures asset.errors == old(asset.errors) + OnTitle(SizeErrors(size, filename, fileSize, sizeInBytes))
  {
    ghost var added: seq<ValidationError> := [];
    if !IsFalsySize(size.max) && fileSize > sizeInBytes(size.max.value) {
      var e := ExceedsMaximum(filename, size.max.value);
      asset.AddError(TITLE, e);
      added := [e];
    }
    assert asset.errors == old(asset.errors) + OnTitle(added);
    if !IsFalsySize(size.min) && fileSize < sizeInBytes(size.min.value) {
      var e := BelowMinimum(filename, size.min.value);
      asset.AddError(TITLE, e);
      assert OnTitle(added + [e]) == OnTitle(added) + [AttributeError(TITLE, e)];
      added := added + [e];
    }
    assert added == SizeErrors(size, filename, fileSize, sizeInBytes);
  }

  /** `validateAsset`: nothing is added when the volume cannot be resolved (`handle` is None) or
      its handle is empty; otherwise the errors of `ValidationErrors` are appended on `title`.
      `fileSize` is the size of the asset's temporary file (or of a copy of its file). */
  method ValidateAsset(asset: Asset, handle: Option<string>, volumes: map<string, VolumeConfig>,
                       fileSize: int, sizeInBytes: SizeValue -> int)
    modifies asset`errors
    ensures asset.errors == old(asset.errors) +
              if handle.None? || IsFalsyString(handle.value) then []
              else OnTitle(ValidationErrors(GetValidateConfig(volumes, handle.value), asset.filename,
                                            asset.newFilename, asset.kind, fileSize, sizeInBytes))
  {
    if handle.None? || IsFalsyString(handle.value) {
      return;
    }
    var config := GetValidateConfig(volumes, handle.value);
    var filename, kind := asset.filename, asset.kind;
    ghost var errs := ValidationErrors(config, filename, asset.newFilename, kind, fileSize, sizeInBytes);
    var extension := Extension(CheckedName(filename, asset.newFilename));

    if |config.extensions| > 0 && ToLower(extension) !in config.extensions {
      var e := ExtensionNotAllowed(extension, FormatAllowed(config.extensions));
      assert errs == [e];
      asset.AddError(TITLE, e);
      assert OnTitle(errs) == [AttributeError(TITLE, e)];
      return;
    }

    if |config.kinds| > 0 && ToLower(kind) !in config.kinds {
      var e := KindNotAllowed(kind, FormatAllowed(config.kinds));
      assert errs == [e];
      asset.AddError(TITLE, e);
      assert OnTitle(errs) == [AttributeError(TITLE, e)];
      return;
    }

    if config.size.Some? {
      assert errs == SizeErrors(config.size.value, filename, fileSize, sizeInBytes);
      AddSizeErrors(asset, config.size.value, filename, fileSize, sizeInBytes);
    } else {
      assert errs == [];
    }
  }
}
