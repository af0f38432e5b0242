# AssetMate, modelled in Dafny

AssetMate is a plugin for the Craft CMS that looks after uploaded assets. This model covers
five parts of it:

- **Resize** resizes an image when it is uploaded or moved, unless every configured limit is
  strictly larger than the image's side along it. With both limits set, a landscape image is
  constrained by its width and any other image by its height, which can enlarge the image. It
  sets a quality that depends on the format, and it can rotate the image by its EXIF orientation.
- **Validate** checks an upload's extension, file kind and file size against the volume's
  settings. Each failure becomes an error on the asset's `title`.
- **Convert** handles uploads the image driver cannot manipulate, such as HEIC. It converts them
  to JPEG and rewrites the asset's temporary path, new filename and new location.
- **Text-column collection** lists, per content table, the textual columns that can hold a
  reference to an asset. The `ContentTablesHelper` class and the purge command each have a copy
  of this code. One `ColumnMap` class models both copies.
- **The purge console command** deletes assets that look unused:
  - it selects candidates by volume, kind, age and relations;
  - it drops candidates whose id a content table references, through a `{asset:<id>:` reference
    tag or a JSON link of type `asset`;
  - it deletes the rest and counts successes and failures;
  - it removes the folders this leaves empty.

Host calls are parameters of the model. These include:

- the image driver: `canManipulateAsImage`, `calculateMissingDimension`, Imagick;
- `sizeInBytes`;
- `Json::decode`;
- `fieldColumn` and `isTextualColumnType`;
- the database queries: candidate rows, relation targets, row counts, and the reference-tag and
  JSON search;
- asset and folder deletion.

Some effects are recorded rather than performed:

- Resize returns the sequence of image-library calls it makes.
- Validate appends to the asset's error list.
- Convert changes the asset's fields and a set of files on disk.
- The purge command changes a `Library` of asset records and folders.

The files:

| file | module | what it holds |
|---|---|---|
| wrappers.dfy | Wrappers | `Option` |
| php.dfy | Php | the PHP built-ins the code relies on: falsiness, `pathinfo`, `strtolower`, `str_replace`, `implode`, `array_unique`, `array_diff`, `intval` |
| settings.dfy | Settings | the plugin's per-volume configuration arrays, before merging |
| asset.dfy | Assets | the asset fields the services read and write, and the validation errors |
| resize.dfy | Resize | `src/services/Resize.php` |
| validate.dfy | Validate | `src/services/Validate.php` |
| convert.dfy | Convert | `src/services/Convert.php` |
| content_tables.dfy | ContentTables | `src/helpers/ContentTablesHelper.php` and the same code in the purge command |
| purge.dfy | Purge | `src/console/controllers/PurgeController.php` |

## Model

| member | source | states |
|---|---|---|
| Resize.GetResizeConfig | src/services/Resize.php:179-196 | Each of `maxWidth`, `maxHeight` and `quality` comes from the volume's resize array when that key is present, else from the `*` array, else the default: no limit, and quality 95. |
| Resize.UnknownVolumeGetsWildcard | src/services/Resize.php:179-196 | A volume with no entry of its own gets exactly the `*` settings. |
| Resize.BelowLimits | src/services/Resize.php:92-98 | The skip test: at least one limit is set, and each set limit is strictly larger than the image's side along it. |
| Resize.Decide | src/services/Resize.php:92-112 | The image is left alone exactly when every configured limit is strictly larger than its side, or when no limit is set. Otherwise the width is constrained exactly when `maxWidth` is set and either `maxHeight` is unset or the image is landscape. The constrained side gets its own configured limit. |
| Resize.AtLimitIsResized | src/services/Resize.php:92-98 | An image whose side equals a configured limit is still resized. |
| Resize.SquareUsesHeight | src/services/Resize.php:100-107 | With both limits set, a square image is constrained by `maxHeight`. |
| Resize.LandscapeUsesWidthLimit | src/services/Resize.php:92-107 | With both limits set, a landscape image whose height reaches `maxHeight` but whose width is below `maxWidth` is still constrained to `maxWidth`, a target width larger than its own (500x400 under 1000x300 gets the width 1000). |
| Resize.GetImageQuality | src/services/Resize.php:198-207 | The quality is 2 for a path ending in `.png` (case-sensitive), and the configured quality otherwise. |
| Resize.RotationDegrees | src/services/Resize.php:141-155 | The EXIF orientations for 180, 90 and 270 degrees map to those angles. Every other orientation, and no orientation, gives 0. |
| Resize.Target | src/services/Resize.php:92-116 | A target size exists only for an image that is not within its limits and that has some limit configured. |
| Resize.SaveTrace | src/services/Resize.php:138-173 | The calls of `save`: a save to the path, then, when the orientation calls for a rotation and `rotateImagesOnUploadByExifData` is on, a reload, a rotation by the orientation's angle and a second save. |
| Resize.Save | src/services/Resize.php:138-173 | The first and last calls are saves to the path. A rotation happens exactly when the orientation calls for one and `rotateImagesOnUploadByExifData` is on. The rotation comes after the first save and uses the orientation's angle. |
| Resize.ResizeTrace | src/services/Resize.php:79-129 | The calls of `resize`: none for an extension the host cannot manipulate; only the load when no target size exists; otherwise the load, the resize to the target, the quality when the image supports it, and the calls of `save`. |
| Resize.ResizeImage | src/services/Resize.php:79-129 | Gives the calls of `resize`: none for an extension the host cannot manipulate; only the load when no target size exists; otherwise load, resize to the target, set the quality when the image supports it, then `save`. |
| Resize.ResizeHappensWhen | src/services/Resize.php:85-124 | A resize call happens exactly when the host can manipulate the extension and a target size exists. The resize is then the second call, right after the load, and the last call saves to the same path. |
| Resize.MaybeResize | src/services/Resize.php:34-72 | Nothing happens without a volume or without a merged `maxWidth`. A copy is pulled only when `tempFilePath` is empty, the scenario is move or file operations, and the volume id differs. A failed copy ends the call with nothing changed. Otherwise the image at the temporary path is resized as `resize` does. |
| Validate.GetValidateConfig | src/services/Validate.php:79-91 | A shallow merge: the volume's `kinds`, `extensions` or `size` replaces the `*` value as a whole, and a key the volume does not set keeps the `*` value. |
| Validate.FormatAllowed | src/services/Validate.php:93-104 | One item is returned as it is. Two items read "a or b". |
| Validate.FormatAllowedCons | src/services/Validate.php:93-104 | Three or more items read as the first item, ", ", then the message for the remaining items: every item but the last is followed by ", ", except the one before the last, which is followed by " or ". |
| Validate.FormatAllowedEnds | src/services/Validate.php:93-104 | Two or more items: the message starts with the first item and ends with " or " and the last item. |
| Validate.FormatAllowedLength | src/services/Validate.php:93-104 | The message's length is that of the items, plus two for each ", " and four for the " or ". |
| Validate.FormatAllowedThree | src/services/Validate.php:93-104 | `["jpg","png","gif"]` reads "jpg, png or gif". |
| Validate.SizeErrors | src/services/Validate.php:53-74 | A "too large" error when a truthy maximum is exceeded, then a "too small" error when the file is under a truthy minimum. |
| Validate.ValidationErrors | src/services/Validate.php:39-74 | The ordered checks: a refused extension gives that error alone; otherwise a refused kind gives that error alone; otherwise a size setting gives the size errors, and no size setting gives none. |
| Validate.NoErrorsIffAccepted | src/services/Validate.php:39-74 | No error is produced exactly when the lower-cased extension (of `newFilename` when set) is allowed or the list is empty, the lower-cased kind is allowed or the list is empty, and every truthy size bound holds, a bound itself included. |
| Validate.EarlyExit | src/services/Validate.php:39-74 | A refused extension gives exactly one error and hides the later checks. A refused kind gives exactly one error and hides the size check. Two errors occur only as "too large" then "too small", when the file lies between the bounds the wrong way round. |
| Validate.UpperCaseListRefusesAll | src/services/Validate.php:39-45 | Only the extension is lower-cased before it is compared, so a list whose every entry has an upper-case letter refuses every file. |
| Validate.AddSizeErrors | src/services/Validate.php:53-74 | The maximum and the minimum are checked independently, each only when truthy, and each failure appends one `title` error. |
| Validate.ValidateAsset | src/services/Validate.php:26-77 | Nothing is added when the volume does not resolve or its handle is empty. Otherwise exactly the errors of the ordered checks are appended, each on `title`. |
| Convert.GetShouldConvert | src/services/Convert.php:80-90 | The result is true exactly when the volume's `convertUnmanipulable` is true, or when it is unset and the `*` value is true. |
| Convert.ConversionIsOptIn | src/services/Convert.php:80-90 | Without an explicit true, nothing is converted. |
| Convert.ConvertedPath | src/services/Convert.php:59-61 | The new temporary path: the old directory, a separator, the old filename stem and `.jpg`. |
| Convert.ConvertedPathParts | src/services/Convert.php:59-61 | The new temporary path keeps the original directory and filename stem, and its extension is `jpg`. |
| Convert.ConvertedFilename | src/services/Convert.php:73 | The new filename: the stem of the old filename and `.jpg`. |
| Convert.ConvertedFilenameParts | src/services/Convert.php:73 | The new filename is a plain name (no `/`) made of the old stem and the extension `jpg`. |
| Convert.ConvertedLocation | src/services/Convert.php:74 | The new location: every occurrence of the old basename replaced by the new filename, with an unset location read as "". |
| Convert.RenamedLocation | src/services/Convert.php:74 | A location ending in the old basename, and holding it nowhere else, keeps its front and ends with the new filename. |
| Convert.UnrelatedLocation | src/services/Convert.php:74 | A location that does not contain the old basename is unchanged. |
| Convert.ConvertAsset | src/services/Convert.php:57-78 | A failed conversion changes neither the asset nor the disk. A successful one sets the three asset fields to the converted path, filename and location, adds the JPEG to the disk and removes the original file. |
| Convert.MaybeConvert | src/services/Convert.php:22-55 | Gives the same result as `convert` when all five gates pass: a truthy temporary path, a resolved volume, conversion on, an unmanipulable extension, and the Imagick driver. In every other case nothing changes. |
| Convert.ConvertOnce | src/services/Convert.php:46-48 | When the driver can manipulate JPEG, a converted file never passes the gates again. |
| ContentTables.FieldColumns | src/helpers/ContentTablesHelper.php:100-119 | A field's columns under a prefix: none without a content column, the textual sub-columns of an array type, or one key-less column for a textual scalar type. |
| ContentTables.ColumnsOf | src/helpers/ContentTablesHelper.php:53-92 | The columns a field contributes after dispatch: a Matrix field's block types in order, each with its own prefix; a Super Table field's block type fields with `field_`; any other field's own columns with `field_`. |
| ContentTables.CompositeColumns | src/helpers/ContentTablesHelper.php:108-114 | For an array column type, the columns are exactly those of the textual keys. The first key's column carries no key, and later columns carry their key. |
| ContentTables.FirstSubColumnHasNoKey | src/helpers/ContentTablesHelper.php:109-111 | When the first key is textual, its column comes first and is named without a key. |
| ContentTables.PlainTextFieldColumn | src/helpers/ContentTablesHelper.php:115-118 | A plain field with a textual scalar type adds one key-less `field_` column to the main content table. |
| ContentTables.MatrixColumnsUseBlockPrefix | src/helpers/ContentTablesHelper.php:68-79 | Every column of a Matrix field belongs to a field of one of its block types and uses that block type's `field_<handle>_` prefix. |
| ContentTables.AppendColumnsFor | src/helpers/ContentTablesHelper.php:112 | Appending changes only its own table's list, and only at the end. |
| ContentTables.AppendColumnsTwice | src/helpers/ContentTablesHelper.php:112 | Two appends to one table equal one append of both lists. |
| ContentTables.AddFields | src/helpers/ContentTablesHelper.php:27-29 | The map after the field loop: each field in order appends its columns to its own table. |
| ContentTables.AddFieldsColumns | src/helpers/ContentTablesHelper.php:27-29 | After the field loop, each table holds what it had before followed by its fields' columns, in field order. |
| ContentTables.AddFieldsInitialises | src/helpers/ContentTablesHelper.php:19-32 | The map stays uninitialised exactly when it was uninitialised before and no field contributes a column. |
| ContentTables.SecondCollectionRepeatsColumns | src/helpers/ContentTablesHelper.php:19-29 | The static map is never cleared, so a second collection lists every column twice. |
| ContentTables.Searchables | src/helpers/ContentTablesHelper.php:32-46 | The tables with a non-zero row count, each with its columns and row count. |
| ContentTables.SearchableColumns | src/helpers/ContentTablesHelper.php:32-46 | A table that is kept has a row count above zero and exactly its fields' columns. |
| ContentTables.ColumnMap.constructor | src/helpers/ContentTablesHelper.php:19 | The map starts uninitialised. |
| ContentTables.ColumnMap.AddColumn | src/helpers/ContentTablesHelper.php:112 | One column is appended to one table's list. |
| ContentTables.ColumnMap.AddForContentTableField | src/helpers/ContentTablesHelper.php:100-119 | Appends exactly the field's columns to the given table: nothing without a content column, the textual sub-columns of an array type, or one column for a textual scalar type. |
| ContentTables.ColumnMap.AddForFields | src/helpers/ContentTablesHelper.php:89-91 | Appends the fields' columns in field order. |
| ContentTables.ColumnMap.AddForSuperTableField | src/helpers/ContentTablesHelper.php:85-92 | The block type fields go to the field's own table with the prefix `field_`. |
| ContentTables.ColumnMap.AddForMatrixField | src/helpers/ContentTablesHelper.php:68-79 | Each block type's fields go to the field's own table with the prefix `field_<blockHandle>_`. |
| ContentTables.ColumnMap.AddForField | src/helpers/ContentTablesHelper.php:53-62 | Dispatches each field to exactly one handler: Matrix, then Super Table, then the main content table. |
| ContentTables.ColumnMap.AddForAllFields | src/helpers/ContentTablesHelper.php:27-29 | The map after the loop is the map after all fields in order. |
| ContentTables.ColumnMap.TablesToSearch | src/helpers/ContentTablesHelper.php:32-46 | Keeps exactly the tables with rows, each with its columns and row count. An uninitialised map gives no result, because reading it throws. |
| ContentTables.ColumnMap.GetTextColumnsByTable | src/helpers/ContentTablesHelper.php:24-47 | Collects all fields, then keeps the tables with rows. |
| Purge.Resolve | src/console/controllers/PurgeController.php:81-115 | An unknown volume handle is refused first, then an unknown kind. A `*` lifts that filter, and the cutoff is now minus the duration when one is set. |
| Purge.IsCandidate | src/console/controllers/PurgeController.php:77-126 | The candidate query's condition: the volume and kind when not `*`, an update strictly before the cutoff when one is set, and no relation targeting the asset. |
| Purge.Candidates | src/console/controllers/PurgeController.php:77-126 | A candidate matches the volume and the kind, was updated strictly before the cutoff, and is no relation's target. |
| Purge.TagIds | src/console/controllers/PurgeController.php:324-325 | For each index of the text where a `{asset:<digits>:` tag starts, left to right, the `intval` of its digits, saturated at `PHP_INT_MAX`. |
| Purge.RegexMatches | src/console/controllers/PurgeController.php:324 | The scan of `preg_match_all`: a match is taken whole and the scan resumes after its closing `:`; elsewhere it moves on by one character. |
| Purge.TagIdsAreRegexMatches | src/console/controllers/PurgeController.php:324-325 | Testing every index gives exactly the ids of the regular expression's matches, in the same order. |
| Purge.TagsDoNotOverlap | src/console/controllers/PurgeController.php:324 | No reference tag starts inside another: a position after a tag's start and up to its last digit cannot start a tag. |
| Purge.NonZero | src/console/controllers/PurgeController.php:325 | Drops exactly the zero ids. |
| Purge.CellIds | src/console/controllers/PurgeController.php:313-326 | A JSON cell yields its `value` when its `type` is `asset` and the value is non-zero. Any other cell yields the non-zero tag ids of the row's joined truthy cells. |
| Purge.RowIds | src/console/controllers/PurgeController.php:311-327 | The ids of a row's truthy cells, cell after cell. |
| Purge.GetAssetIdsFromContentTableRows | src/console/controllers/PurgeController.php:307-330 | The ids of the rows' truthy cells, in order, with duplicates dropped. A JSON cell gives its own link. Any other cell gives the tags of the whole row's joined truthy cells. |
| Purge.RowAssetIds | src/console/controllers/PurgeController.php:311-327 | Gives the ids of one row's truthy cells, cell after cell. |
| Purge.JsonReferenceFound | src/console/controllers/PurgeController.php:316-321 | A truthy JSON cell of type `asset` with a non-zero value yields that value. |
| Purge.TagReferenceFound | src/console/controllers/PurgeController.php:322-326 | A `{asset:<digits>:` tag with a non-zero id anywhere in the row's joined truthy cells is found, when the row has a truthy cell that is not JSON. |
| Purge.ExtractedIdsNonZero | src/console/controllers/PurgeController.php:319-329 | The extracted ids never include 0 and hold no duplicates. |
| Purge.Pending | src/console/controllers/PurgeController.php:176 | Keeps the batch ids not yet found. |
| Purge.DiffIsPending | src/console/controllers/PurgeController.php:176 | `array_diff` of the batch keeps exactly the ids not yet found, in batch order. |
| Purge.BatchFound | src/console/controllers/PurgeController.php:182-196 | The ids that the rows of any searchable table yield when the pending ids are searched. |
| Purge.AfterBatch | src/console/controllers/PurgeController.php:176-198 | The found ids after one batch: those found before, plus what the searchable tables yield for the batch's ids not found yet. A batch with no such ids is skipped without searching. |
| Purge.ScanFound | src/console/controllers/PurgeController.php:175-202 | The found ids after the scan of the candidate ids in batches of 500, one batch after the other. |
| Purge.ScanFoundGrows | src/console/controllers/PurgeController.php:175-202 | The scan never forgets a found id. |
| Purge.ReferencedIdIsFound | src/console/controllers/PurgeController.php:175-202 | A candidate id referenced by a row of a searchable table is found, when the database returns that row whenever the id is searched. |
| Purge.SearchContentTables | src/console/controllers/PurgeController.php:175-202 | The found ids are exactly those of the batch scan, which skips already-found ids and empty batches. The list holds no duplicates. |
| Purge.SearchBatch | src/console/controllers/PurgeController.php:182-196 | After one batch, the ids held are those found before plus every id the rows of any searchable table yield for the pending ids. |
| Purge.RemoveIds | src/console/controllers/PurgeController.php:206-213 | Keeps exactly the records whose id is not among the given ids: the candidates not found in a content table, and the assets left after deletion. |
| Purge.RemoveIdsTwice | src/console/controllers/PurgeController.php:269-284 | Deleting one after another equals deleting all at once. |
| Purge.DeleteAssets | src/console/controllers/PurgeController.php:269-284 | Every selected asset is attempted once, and a failure is counted without stopping the loop. `numDeleted` is the number of successes, and `numDeleted + numErrors` is the number of selected assets. Exactly the successfully deleted ids leave the library. |
| Purge.Subtree | src/console/controllers/PurgeController.php:409-417 | A folder together with the folders of its volume whose path starts with its path, which the host deletes together. |
| Purge.FoldersAfterMaybeDelete | src/console/controllers/PurgeController.php:400-421 | A missing folder, a root folder, a folder holding assets (also below it) and a failed deletion leave the folders as they were. Otherwise the folder's subtree goes. |
| Purge.NoAssetLosesItsFolder | src/console/controllers/PurgeController.php:400-421 | `_maybeDeleteFolder` never removes a folder that holds an asset. |
| Purge.FolderPassKeepsAssetFolders | src/console/controllers/PurgeController.php:288-294 | The whole folder pass strands no asset. |
| Purge.Library.MaybeDeleteFolder | src/console/controllers/PurgeController.php:400-421 | A missing folder, a root folder (null or zero parent) and a folder holding assets, including in subfolders, are kept. Otherwise the folder and its subfolders go, unless the deletion fails. |
| Purge.Library.DeleteFolders | src/console/controllers/PurgeController.php:288-294 | Handles each folder id in turn. |
| Purge.RefusedOptionsStopEarly | src/console/controllers/PurgeController.php:81-93 | An unknown volume ends the command with the error before any column is collected or anything is deleted. |
| Purge.DeclineDeletesNothing | src/console/controllers/PurgeController.php:249-251 | Declining the confirmation deletes nothing. |
| Purge.SelectedAreCandidates | src/console/controllers/PurgeController.php:206-226 | Only candidates are deleted. With `searchContentTables` off, all of them are deleted. |
| Purge.ReferencedAssetIsKept | src/console/controllers/PurgeController.php:137-213 | An asset that a row of a searchable table references is never deleted, when the database returns that row whenever the asset's id is searched. |
| Purge.ExcludeReferenced | src/console/controllers/PurgeController.php:137-227 | With the search on, it collects the columns and drops the found candidates. An uninitialised map throws, and no searchable table means no exclusion. |
| Purge.PlanFor | src/console/controllers/PurgeController.php:72-252 | The command's decisions up to the confirmation: refused options, no candidates, an uninitialised column map, nothing left or a declined prompt stop it with their outcome; otherwise the selected assets are deleted. |
| Purge.PlanDeletion | src/console/controllers/PurgeController.php:72-252 | Gives the plan of `PlanFor`: a stop with its outcome, or the assets to delete. The column map is collected only when the options resolve, there are candidates, and the search is on. |
| Purge.DeleteSelected | src/console/controllers/PurgeController.php:253-300 | The distinct folders of the selected assets are taken before deletion, and only with `deleteFolders`. Assets are deleted first, then folders, and the counts are reported. |
| Purge.ActionIndex | src/console/controllers/PurgeController.php:72-305 | The command stops with its outcome and changes nothing when the options are refused, there are no candidates, the column map is uninitialised, nothing is left, or the confirmation is declined. Otherwise it deletes the selected assets and cleans their folders, with the counts above. The column map changes only when content tables are searched. |

## Left out

- Console output, progress bars, timing and translations (`Craft::t`) are left out. Messages are
  the error values themselves.
- The current time is the parameter `now`. `durationInSeconds` has already been applied to the
  `lastUpdatedBefore` option, which is None when the option is falsy.
- The image library and file I/O are left out:
  - `loadImage`, `resize`, `setQuality`, `saveAs` and `rotate` are recorded as a trace of calls;
    they are not performed.
  - Imagick's success is the input `written`.
  - `getCopyOfFile` is the input `copy` in Resize. In Validate, the size of the temporary file
    or of the copy is the input `fileSize`.
- Validate.ValidateAsset: when `tempFilePath` is falsy, the source calls `getCopyOfFile()`
  (src/services/Validate.php:54), which can throw. Then no error is added and the exception
  propagates to the caller. The model always has a size, so it does not capture this outcome.
- Validate.ValidateAsset: a failed `filesize()` (src/services/Validate.php:55) returns false. PHP
  then compares false with the bounds as booleans. The model has the caller pass 0 instead, which
  gives the same errors whenever both bounds in bytes are positive. The failure itself is not
  modelled.
- Resize.ResizeImage: a host exception between the load and the last save is caught and logged in
  the source, so the calls after it do not happen. The trace records the calls as if none throws.
- Convert.ConvertAsset: only statement order shows that the original file is unlinked after the
  asset fields are updated. The contract gives the final state only.
- The database is left out:
  - SQL, `REGEXP` and `JSON_EXTRACT` matching belong to the database engine. Their results are the
    host function `search`, and the safety lemmas state their assumption about it
    (`AlwaysReturns`).
  - Relation targets, file kinds, volume handles and row counts are inputs.
- Purge.SearchContentTables: the tables are visited in the order of a Dafny map, not the
  database's, so the contract states the found ids as a set, together with the absence of
  duplicates, rather than their order.
- Purge.Candidates: `in_array` for the kind is a loose comparison in the source. The model compares
  strings exactly.
- Purge.GetAssetIdsFromContentTableRows: cells are strings or null. A non-string cell, which the
  source skips, is not modelled.
- `Json::isJsonObject` and `Json::decode` are the input `parseJson`. A decode that throws on a
  malformed object is not modelled.
- Purge.Library.MaybeDeleteFolder: the host's `deleteFoldersByIds` is assumed to remove the folder
  with its subfolders. An exception it throws is the input `ok` being false.
- Asset deletion through `deleteElementById` is the input `deleteOk`. False covers both a false
  result and an exception.
- The purge command iterates the selected assets with `each()` while deleting them. The model
  iterates the selection as it stood before deletion.
- Dirname and basename follow the last `/`. PHP's handling of trailing and repeated slashes, and of
  Windows separators, is not modelled.
- The EXIF orientation constants are the EXIF standard's codes: 3, 6 and 8.
- `convertUnmanipulable` is a setting in the model, but `VolumeSettings`
  (src/models/VolumeSettings.php) declares no such field. It is modelled as an optional boolean of
  each volume's configuration.
- Registration of the services on asset events (src/AssetMate.php) is not part of this model. That
  file registers Validate and Resize but not Convert.
- The helpers `AssetMateHelper` and `CpHelper` are not part of this model. The volume they resolve
  is an input.
