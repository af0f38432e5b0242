/**
 * The purge console command: select the assets that look unused (no relation points at them
 * and, optionally, no content-table cell references them), then delete them one by one and
 * remove the folders they leave empty.
 *
 * The database is an input: the assets and folders live in a `Library`, and the search for
 * reference tags in content tables is the host function `search`, which returns the rows of a
 * table that the reference-tag and JSON queries match for a batch of asset ids.
 */
module Purge {
  import opened Wrappers
  import opened Php
  import opened ContentTables
  import Settings

  /** The number of candidate assets fetched per batch while searching content tables. */
  const BATCH_SIZE: nat := 500

  /** What a reference tag starts with, as in `{asset:12:url}`. */
  const TAG_OPEN: string := "{asset:"

  /** The JSON `type` that marks a link to an asset. */
  const ASSET_TYPE: string := "asset"

  /** A row of the assets table, reduced to what the command filters on. */
  datatype AssetRecord = AssetRecord(id: int, volumeId: int, kind: string, dateUpdated: int, folderId: int)

  /** A volume folder; `path` is its path inside its volume, a prefix of its subfolders' paths. */
  datatype Folder = Folder(parentId: Option<int>, volumeId: int, path: string)

  /** The command's options. `lastUpdatedBefore` is the option's duration in seconds, or None
      when the option is falsy (which disables the age filter). */
  datatype Options = Options(
    volume: string,
    kind: string,
    lastUpdatedBefore: Option<int>,
    searchContentTables: bool,
    deleteFolders: bool,
    interactive: bool)

  /** A content-table cell as the extraction sees it: not a JSON object, or a JSON object with
      its `type` (None when it is absent or not a string) and its `value` cast to int. */
  datatype JsonValue = NotJsonObject | JsonObject(typ: Option<string>, value: int)

  /** A row of selected text columns; a null cell is None. */
  type Row = seq<Option<string>>

  /** What the command ends with. `UnknownVolume` and `UnknownKind` are the error exit code;
      `ColumnsUninitialised` is the error thrown by reading the column map before anything was
      appended to it; the others exit normally. */
  datatype Outcome =
    | UnknownVolume
    | UnknownKind
    | NoUnusedAssets
    | ColumnsUninitialised
    | Declined
    | Purged(numDeleted: nat, numErrors: nat)

  /** Everything the command reads from the host besides the library. */
  datatype Env = Env(
    volumes: map<string, int>,
    fileKinds: set<string>,
    now: int,
    relationTargets: set<int>,
    fields: seq<Field>,
    columnHost: ColumnHost,
    rowCount: string -> nat,
    search: (string, seq<string>, seq<int>) -> seq<Row>,
    parseJson: string -> JsonValue,
    confirm: bool,
    deleteOk: int -> bool,
    folderDeleteOk: int -> bool)

  function SetOf(s: seq<int>): set<int> {
    set x | x in s
  }

  // ---------------------------------------------------------------------------
  // Selection
  // ---------------------------------------------------------------------------

  /** The filters of the candidate query: a volume id and a kind (None for '*'), and the
      moment assets must have been updated before (None when the age filter is off). */
  datatype Selection = Selection(volumeId: Option<int>, kind: Option<string>, cutoff: Option<int>)

  datatype Resolution = Resolved(selection: Selection) | Refused(error: Outcome)

  /** The options resolved against the host: an unknown volume handle is refused first, then
      an unknown file kind. */
  function Resolve(opts: Options, volumes: map<string, int>, fileKinds: set<string>, now: int): (r: Resolution)
    ensures r.Refused? ==> r.error == UnknownVolume || r.error == UnknownKind
    ensures r == Refused(UnknownVolume) <==> opts.volume != Settings.WILDCARD && opts.volume !in volumes
    ensures r == Refused(UnknownKind) <==>
              && (opts.volume == Settings.WILDCARD || opts.volume in volumes)
              && opts.kind != Settings.WILDCARD && opts.kind !in fileKinds
    ensures r.Resolved? ==>
              && (r.selection.volumeId.None? <==> opts.volume == Settings.WILDCARD)
              && (r.selection.kind.None? <==> opts.kind == Settings.WILDCARD)
              && r.selection.cutoff == (if opts.lastUpdatedBefore.Some? then Some(now - opts.lastUpdatedBefore.value) else None)
  {
    if opts.volume != Settings.WILDCARD && opts.volume !in volumes then Refused(UnknownVolume)
    else if opts.kind != Settings.WILDCARD && opts.kind !in fileKinds then Refused(UnknownKind)
    else
      Resolved(Selection(
        if opts.volume == Settings.WILDCARD then None else Some(volumes[opts.volume]),
        if opts.kind == Settings.WILDCARD then None else Some(opts.kind),
        if opts.lastUpdatedBefore.Some? then Some(now - opts.lastUpdatedBefore.value) else None))
  }

  /** An asset the candidate query returns: in the volume, of the kind, updated strictly before
      the cutoff, and the target of no relation. */
  predicate IsCandidate(a: AssetRecord, sel: Selection, relationTargets: set<int>) {
    && (sel.volumeId.None? || a.volumeId == sel.volumeId.value)
    && (sel.kind.None? || a.kind == sel.kind.value)
    && (sel.cutoff.None? || a.dateUpdated < sel.cutoff.value)
    && a.id !in relationTargets
  }

  /** The candidates, in the order of the assets table. */
  function Candidates(assets: seq<AssetRecord>, sel: Selection, relationTargets: set<int>): (r: seq<AssetRecord>)
    ensures forall a :: a in r <==> a in assets && IsCandidate(a, sel, relationTargets)
    ensures |r| <= |assets|
  {
    if |assets| == 0 then []
    else
      var front := Candidates(assets[..|assets| - 1], sel, relationTargets);
      var a := assets[|assets| - 1];
      assert forall b :: b in assets <==> b in assets[..|assets| - 1] || b == a by {
        assert assets == assets[..|assets| - 1] + [a];
      }
      if IsCandidate(a, sel, relationTargets) then front + [a] else front
  }

  function Ids(records: seq<AssetRecord>): seq<int> {
    seq(|records|, i requires 0 <= i < |records| => records[i].id)
  }

  function FolderIds(records: seq<AssetRecord>): seq<int> {
    seq(|records|, i requires 0 <= i < |records| => records[i].folderId)
  }

  // ---------------------------------------------------------------------------
  // Asset ids referenced by content-table rows
  // ---------------------------------------------------------------------------

  /** A reference tag `{asset:<digits>:` starts at index `i` of `s`. */
  predicate TagAt(s: string, i: nat) {
    && i + |TAG_OPEN| <= |s|
    && s[i..i + |TAG_OPEN|] == TAG_OPEN
    && var digits := LeadingDigits(s[i + |TAG_OPEN|..]);
       && |digits| > 0
       && i + |TAG_OPEN| + |digits| < |s|
       && s[i + |TAG_OPEN| + |digits|] == ':'
  }

  /** The id of the tag at `i`: `intval()` of its digits. */
  function TagId(s: string, i: nat): int
    requires TagAt(s, i)
  {
    IntvalDigits(LeadingDigits(s[i + |TAG_OPEN|..]))
  }

  /** The id of the tag starting at index `i`, if one does. */
  function TagIdAt(s: string, i: nat): seq<int>
    requires i < |s|
  {
    if TagAt(s, i) then [TagId(s, i)] else []
  }

  /** `preg_match_all('/{asset:(\d+):/', $s)` mapped through `intval()`: the tag at every
      index, which `TagIdsAreRegexMatches` shows to be the regular expression's matches. */
  function TagIds(s: string): seq<int> {
    TagsFrom(s, 0)
  }

  /** The index just past the tag at `i`, its closing ':' included. */
  function MatchEnd(s: string, i: nat): (e: nat)
    requires TagAt(s, i)
    ensures i < e <= |s|
  {
    i + |TAG_OPEN| + |LeadingDigits(s[i + |TAG_OPEN|..])| + 1
  }

  /** The scan of `preg_match_all()` from index `i`: a match at `i` is taken whole and the scan
      resumes after it; otherwise the scan moves on by one character. `\d+` is greedy and must
      be followed by ':', so a match at `i` exists exactly when `TagAt(s, i)`. */
  function RegexMatches(s: string, i: nat): seq<int>
    requires i <= |s|
    decreases |s| - i
  {
    if i == |s| then []
    else if TagAt(s, i) then [TagId(s, i)] + RegexMatches(s, MatchEnd(s, i))
    else RegexMatches(s, i + 1)
  }

  /** The ids of the tags starting at index `i` or later, left to right. */
  function TagsFrom(s: string, i: nat): seq<int>
    requires i <= |s|
    decreases |s| - i
  {
    if i == |s| then []
    else TagIdAt(s, i) + TagsFrom(s, i + 1)
  }

  /** Indices where no tag starts add nothing to the tags from them. */
  lemma {:induction false} TagsFromSkip(s: string, j: nat, e: nat)
    requires j <= e <= |s|
    requires forall k :: j <= k < e ==> TagIdAt(s, k) == []
    ensures TagsFrom(s, j) == TagsFrom(s, e)
    decreases e - j
  {
    if j < e {
      assert TagIdAt(s, j) == [];
      TagsFromSkip(s, j + 1, e);
    }
  }

  /** No tag starts inside a tag, so the tags from any index inside it are those after it. */
  lemma TagsFromInside(s: string, i: nat, j: nat)
    requires TagAt(s, i)
    requires i < j <= MatchEnd(s, i)
    ensures TagsFrom(s, j) == TagsFrom(s, MatchEnd(s, i))
  {
    forall k | j <= k < MatchEnd(s, i)
      ensures TagIdAt(s, k) == []
    {
      TagsDoNotOverlap(s, i, k);
    }
    TagsFromSkip(s, j, MatchEnd(s, i));
  }

  /** The regular expression's scan from `i` finds exactly the tags starting at `i` or later. */
  lemma {:induction false} RegexMatchesAreTags(s: string, i: nat)
    requires i <= |s|
    ensures RegexMatches(s, i) == TagsFrom(s, i)
    decreases |s| - i
  {
    if i < |s| {
      if TagAt(s, i) {
        RegexMatchesAreTags(s, MatchEnd(s, i));
        TagsFromInside(s, i, i + 1);
      } else {
        RegexMatchesAreTags(s, i + 1);
      }
    }
  }

  /** Testing every index finds the same ids, in the same order, as `preg_match_all()`. */
  lemma TagIdsAreRegexMatches(s: string)
    ensures TagIds(s) == RegexMatches(s, 0)
  {
    RegexMatchesAreTags(s, 0);
  }

  /** A tag holds no '{' after its first character, so no other tag starts inside it. */
  lemma TagsDoNotOverlap(s: string, i: nat, j: nat)
    requires TagAt(s, i)
    requires i < j <= i + |TAG_OPEN| + |LeadingDigits(s[i + |TAG_OPEN|..])|
    ensures !TagAt(s, j)
  {
    var digits := LeadingDigits(s[i + |TAG_OPEN|..]);
    if j < i + |TAG_OPEN| {
      assert s[j] == s[i..i + |TAG_OPEN|][j - i];
    } else if j < i + |TAG_OPEN| + |digits| {
      assert s[j] == digits[j - i - |TAG_OPEN|];
    } else {
      assert s[j] == ':';
    }
    TagStartsWithBrace(s, j);
  }

  /** A tag starts with '{'. */
  lemma TagStartsWithBrace(s: string, j: nat)
    ensures TagAt(s, j) ==> s[j] == '{'
  {
    if TagAt(s, j) {
      assert s[j] == s[j..j + |TAG_OPEN|][0];
    }
  }

  /** `array_filter()` of a list of ids: the zeros are dropped. */
  function NonZero(ids: seq<int>): (r: seq<int>)
    ensures forall x :: x in r <==> x in ids && x != 0
  {
    if |ids| == 0 then []
    else
      var front := NonZero(ids[..|ids| - 1]);
      assert forall x :: x in ids <==> x in ids[..|ids| - 1] || x == ids[|ids| - 1] by {
        assert ids == ids[..|ids| - 1] + [ids[|ids| - 1]];
      }
      if ids[|ids| - 1] == 0 then front else front + [ids[|ids| - 1]]
  }

  /** `array_filter(array_values($row))`: the cells that are neither null nor falsy strings. */
  function TruthyCells(row: Row): seq<string> {
    if |row| == 0 then []
    else
      var cell := row[|row| - 1];
      TruthyCells(row[..|row| - 1]) + (if IsTruthy(cell) then [cell.value] else [])
  }

  /** The ids one cell yields. A JSON object yields its `value` when its `type` is "asset" and
      the value is not zero; any other cell yields the tags of `text`, the whole row's truthy
      cells joined, zeros dropped. */
  function CellIds(cell: string, text: string, parseJson: string -> JsonValue): seq<int> {
    match parseJson(cell)
    case JsonObject(typ, value) => if typ == Some(ASSET_TYPE) && value != 0 then [value] else []
    case NotJsonObject => NonZero(TagIds(text))
  }

  function CellsIds(cells: seq<string>, text: string, parseJson: string -> JsonValue): seq<int> {
    if |cells| == 0 then []
    else CellsIds(cells[..|cells| - 1], text, parseJson) + CellIds(cells[|cells| - 1], text, parseJson)
  }

  /** The ids one row yields, cell after cell. */
  function RowIds(row: Row, parseJson: string -> JsonValue): seq<int> {
    var cells := TruthyCells(row);
    CellsIds(cells, Implode("", cells), parseJson)
  }

  /** The ids a list of rows yields, before duplicates are dropped. */
  function RowsIds(rows: seq<Row>, parseJson: string -> JsonValue): seq<int> {
    if |rows| == 0 then []
    else RowsIds(rows[..|rows| - 1], parseJson) + RowIds(rows[|rows| - 1], parseJson)
  }

  /** `_getAssetIdsFromContentTableRows($rows)`: the ids of every row, duplicates dropped. */
  method GetAssetIdsFromContentTableRows(rows: seq<Row>, parseJson: string -> JsonValue) returns (ids: seq<int>)
    ensures ids == Unique(RowsIds(rows, parseJson))
  {
    var assetIds: seq<int> := [];
    for r := 0 to |rows|
      invariant assetIds == RowsIds(rows[..r], parseJson)
    {
      var rowIds := RowAssetIds(rows[r], parseJson);
      assetIds := assetIds + rowIds;
      assert rows[..r + 1][..r] == rows[..r];
    }
    assert rows[..|rows|] == rows;
    ids := Unique(assetIds);
  }

  /** The inner loop of `_getAssetIdsFromContentTableRows`, over the truthy cells of one row. */
  method RowAssetIds(row: Row, parseJson: string -> JsonValue) returns (ids: seq<int>)
    ensures ids == RowIds(row, parseJson)
  {
    var columns := TruthyCells(row);
    ids := [];
    for c := 0 to |columns|
      invariant ids == CellsIds(columns[..c], Implode("", columns), parseJson)
    {
      CellsIdsStep(columns, c, Implode("", columns), parseJson);
      var json := parseJson(columns[c]);
      if json.JsonObject? {
        if json.typ == Some(ASSET_TYPE) && json.value != 0 {
          ids := ids + [json.value];
        }
      } else {
        var tags := NonZero(TagIds(Implode("", columns)));
        ids := ids + tags;
      }
    }
    assert columns[..|columns|] == columns;
  }

  /** One more cell adds its own ids at the end. */
  lemma CellsIdsStep(cells: seq<string>, c: nat, text: string, parseJson: string -> JsonValue)
    requires c < |cells|
    ensures CellsIds(cells[..c + 1], text, parseJson)
            == CellsIds(cells[..c], text, parseJson) + CellIds(cells[c], text, parseJson)
  {
    assert cells[..c + 1][..c] == cells[..c];
  }

  lemma {:induction false} CellsIdsMember(cells: seq<string>, text: string, parseJson: string -> JsonValue, i: nat, x: int)
    requires i < |cells| && x in CellIds(cells[i], text, parseJson)
    ensures x in CellsIds(cells, text, parseJson)
  {
    if i < |cells| - 1 {
      CellsIdsMember(cells[..|cells| - 1], text, parseJson, i, x);
    }
  }

  lemma {:induction false} RowsIdsMember(rows: seq<Row>, parseJson: string -> JsonValue, i: nat, x: int)
    requires i < |rows| && x in RowIds(rows[i], parseJson)
    ensures x in RowsIds(rows, parseJson)
  {
    if i < |rows| - 1 {
      RowsIdsMember(rows[..|rows| - 1], parseJson, i, x);
    }
  }

  /** The id of every tag from index `n` on is among the tags from `n`. */
  lemma {:induction false} TagsFromMember(s: string, n: nat, i: nat)
    requires n <= i < |s| && TagAt(s, i)
    ensures TagId(s, i) in TagsFrom(s, n)
    decreases i - n
  {
    if n < i {
      TagsFromMember(s, n + 1, i);
    }
  }

  /** A truthy JSON cell of type "asset" with a non-zero value yields its value. */
  lemma JsonReferenceFound(row: Row, parseJson: string -> JsonValue, i: nat)
    requires i < |TruthyCells(row)|
    requires parseJson(TruthyCells(row)[i]).JsonObject?
    requires parseJson(TruthyCells(row)[i]).typ == Some(ASSET_TYPE)
    requires parseJson(TruthyCells(row)[i]).value != 0
    ensures parseJson(TruthyCells(row)[i]).value in RowIds(row, parseJson)
  {
    var cells := TruthyCells(row);
    CellsIdsMember(cells, Implode("", cells), parseJson, i, parseJson(cells[i]).value);
  }

  /** A reference tag with a non-zero id anywhere in the row's joined truthy cells is found,
      provided the row has at least one truthy cell that is not a JSON object. */
  lemma TagReferenceFound(row: Row, parseJson: string -> JsonValue, i: nat, at: nat)
    requires i < |TruthyCells(row)| && parseJson(TruthyCells(row)[i]).NotJsonObject?
    requires TagAt(Implode("", TruthyCells(row)), at)
    requires TagId(Implode("", TruthyCells(row)), at) != 0
    ensures TagId(Implode("", TruthyCells(row)), at) in RowIds(row, parseJson)
  {
    var cells := TruthyCells(row);
    var text := Implode("", cells);
    TagsFromMember(text, 0, at);
    CellsIdsMember(cells, text, parseJson, i, TagId(text, at));
  }

  /** No cell ever yields the id 0. */
  lemma {:induction false} CellsIdsNonZero(cells: seq<string>, text: string, parseJson: string -> JsonValue)
    ensures 0 !in CellsIds(cells, text, parseJson)
  {
    if |cells| > 0 {
      CellsIdsNonZero(cells[..|cells| - 1], text, parseJson);
    }
  }

  /** The extracted ids never include 0 and hold no duplicates. */
  lemma {:induction false} ExtractedIdsNonZero(rows: seq<Row>, parseJson: string -> JsonValue)
    ensures 0 !in Unique(RowsIds(rows, parseJson))
    ensures NoDuplicates(Unique(RowsIds(rows, parseJson)))
  {
    RowsIdsNonZero(rows, parseJson);
  }

  lemma {:induction false} RowsIdsNonZero(rows: seq<Row>, parseJson: string -> JsonValue)
    ensures 0 !in RowsIds(rows, parseJson)
  {
    if |rows| > 0 {
      RowsIdsNonZero(rows[..|rows| - 1], parseJson);
      var cells := TruthyCells(rows[|rows| - 1]);
      CellsIdsNonZero(cells, Implode("", cells), parseJson);
    }
  }

  // ---------------------------------------------------------------------------
  // The batched content-table search
  // ---------------------------------------------------------------------------

  /** The ids of a batch that have not been found yet. */
  function Pending(batch: seq<int>, found: set<int>): (r: seq<int>)
    ensures forall x :: x in r <==> x in batch && x !in found
  {
    if |batch| == 0 then []
    else
      var front := Pending(batch[..|batch| - 1], found);
      assert forall x :: x in batch <==> x in batch[..|batch| - 1] || x == batch[|batch| - 1] by {
        assert batch == batch[..|batch| - 1] + [batch[|batch| - 1]];
      }
      if batch[|batch| - 1] in found then front else front + [batch[|batch| - 1]]
  }

  /** `array_diff($batch, $found)` keeps the batch's order and tests membership only. */
  lemma {:induction false} DiffIsPending(a: seq<int>, b: seq<int>)
    ensures Diff(a, b) == Pending(a, SetOf(b))
  {
    if |a| > 0 {
      DiffIsPending(a[..|a| - 1], b);
    }
  }

  /** The ids the searches of one batch find, over every searchable table. */
  function BatchFound(tables: map<string, Searchable>, pending: seq<int>,
                      search: (string, seq<string>, seq<int>) -> seq<Row>, parseJson: string -> JsonValue): set<int>
  {
    set t, x | t in tables && x in RowsIds(search(t, tables[t].columns, pending), parseJson) :: x
  }

  /** The ids found after one batch: its ids not found yet are searched, unless there are none,
      in which case the batch is skipped without searching. */
  function AfterBatch(found: set<int>, batch: seq<int>, tables: map<string, Searchable>,
                      search: (string, seq<string>, seq<int>) -> seq<Row>, parseJson: string -> JsonValue): set<int>
  {
    var pending := Pending(batch, found);
    if pending == [] then found else found + BatchFound(tables, pending, search, parseJson)
  }

  /** The ids found after scanning `ids` in batches of `BATCH_SIZE`, starting from `found`. */
  function ScanFound(found: set<int>, ids: seq<int>, tables: map<string, Searchable>,
                     search: (string, seq<string>, seq<int>) -> seq<Row>, parseJson: string -> JsonValue): set<int>
    decreases |ids|
  {
    if |ids| == 0 then found
    else
      var k := if |ids| < BATCH_SIZE then |ids| else BATCH_SIZE;
      ScanFound(AfterBatch(found, ids[..k], tables, search, parseJson), ids[k..], tables, search, parseJson)
  }

  /** One batch of the scan, taken from the middle of the candidate ids. */
  lemma ScanStep(found: set<int>, ids: seq<int>, start: nat, end: nat, tables: map<string, Searchable>,
                 search: (string, seq<string>, seq<int>) -> seq<Row>, parseJson: string -> JsonValue)
    requires start < end <= |ids|
    requires end == if |ids| - start < BATCH_SIZE then |ids| else start + BATCH_SIZE
    ensures ScanFound(found, ids[start..], tables, search, parseJson)
            == ScanFound(AfterBatch(found, ids[start..end], tables, search, parseJson), ids[end..], tables, search, parseJson)
  {
    var rest := ids[start..];
    var k := end - start;
    assert ScanFound(found, rest, tables, search, parseJson)
           == ScanFound(AfterBatch(found, rest[..k], tables, search, parseJson), rest[k..], tables, search, parseJson);
    assert rest[..k] == ids[start..end];
    assert rest[k..] == ids[end..];
  }

  /** The scan only adds ids. */
  lemma {:induction false} ScanFoundGrows(found: set<int>, ids: seq<int>, tables: map<string, Searchable>,
                                          search: (string, seq<string>, seq<int>) -> seq<Row>,
                                          parseJson: string -> JsonValue)
    ensures found <= ScanFound(found, ids, tables, search, parseJson)
    decreases |ids|
  {
    if |ids| > 0 {
      var k := if |ids| < BATCH_SIZE then |ids| else BATCH_SIZE;
      var next := AfterBatch(found, ids[..k], tables, search, parseJson);
      ScanFoundGrows(next, ids[k..], tables, search, parseJson);
    }
  }

  /** The database returns `row` from `table` whenever the searched ids include `id`. */
  ghost predicate AlwaysReturns(search: (string, seq<string>, seq<int>) -> seq<Row>, table: string,
                          columns: seq<string>, row: Row, id: int)
  {
    forall ids: seq<int> {:trigger search(table, columns, ids)} :: id in ids ==> row in search(table, columns, ids)
  }

  /** The scan misses no reference: an id to scan (or already found) that some row of a
      searchable table references is found, as long as the database returns that row whenever
      the id is searched for. */
  lemma {:induction false} ReferencedIdIsFound(found: set<int>, ids: seq<int>, tables: map<string, Searchable>,
                                               search: (string, seq<string>, seq<int>) -> seq<Row>,
                                               parseJson: string -> JsonValue, id: int, table: string, row: Row)
    requires id in ids || id in found
    requires table in tables && id in RowIds(row, parseJson)
    requires AlwaysReturns(search, table, tables[table].columns, row, id)
    ensures id in ScanFound(found, ids, tables, search, parseJson)
    decreases |ids|
  {
    if id in found {
      ScanFoundGrows(found, ids, tables, search, parseJson);
    } else {
      var k := if |ids| < BATCH_SIZE then |ids| else BATCH_SIZE;
      var pending := Pending(ids[..k], found);
      var next := AfterBatch(found, ids[..k], tables, search, parseJson);
      if id in ids[..k] {
        assert id in pending;
        var rows := search(table, tables[table].columns, pending);
        assert row in rows;
        var i :| 0 <= i < |rows| && rows[i] == row;
        RowsIdsMember(rows, parseJson, i, id);
        assert id in next;
        ScanFoundGrows(next, ids[k..], tables, search, parseJson);
      } else {
        assert ids == ids[..k] + ids[k..];
        ReferencedIdIsFound(next, ids[k..], tables, search, parseJson, id, table, row);
      }
    }
  }

  /** An accumulator holding the ids found before and the ids of every table's rows holds
      exactly the found set after the batch. */
  lemma BatchAccumulated(found: seq<int>, acc: seq<int>, tables: map<string, Searchable>, pending: seq<int>,
                         search: (string, seq<string>, seq<int>) -> seq<Row>, parseJson: string -> JsonValue)
    requires forall x :: x in acc <==>
               x in found || exists t :: t in tables && x in RowsIds(search(t, tables[t].columns, pending), parseJson)
    ensures SetOf(acc) == SetOf(found) + BatchFound(tables, pending, search, parseJson)
  {
    var batch := BatchFound(tables, pending, search, parseJson);
    forall x
      ensures x in SetOf(acc) <==> x in SetOf(found) + batch
    {
      if x in acc && x !in found {
        var t :| t in tables && x in RowsIds(search(t, tables[t].columns, pending), parseJson);
        assert x in batch;
      }
      if x in batch {
        var t :| t in tables && x in RowsIds(search(t, tables[t].columns, pending), parseJson);
        assert x in acc;
      }
    }
  }

  /** The loop over the candidates in batches: for each batch, the ids not found yet are
      searched in every searchable table, the ids the rows yield are appended, and duplicates
      are dropped. */
  method SearchContentTables(ids: seq<int>, tables: map<string, Searchable>,
                             search: (string, seq<string>, seq<int>) -> seq<Row>,
                             parseJson: string -> JsonValue)
    returns (found: seq<int>)
    ensures SetOf(found) == ScanFound({}, ids, tables, search, parseJson)
    ensures NoDuplicates(found)
  {
    found := [];
    var start := 0;
    assert ids[start..] == ids && SetOf(found) == {};
    while start < |ids|
      invariant 0 <= start <= |ids|
      invariant NoDuplicates(found)
      invariant ScanFound(SetOf(found), ids[start..], tables, search, parseJson)
                == ScanFound({}, ids, tables, search, parseJson)
      decreases |ids| - start
    {
      var end := if |ids| - start < BATCH_SIZE then |ids| else start + BATCH_SIZE;
      var pending := Diff(ids[start..end], found);
      DiffIsPending(ids[start..end], found);
      ScanStep(SetOf(found), ids, start, end, tables, search, parseJson);
      if pending == [] {
        start := end;
        continue;
      }
      var acc := SearchBatch(found, pending, tables, search, parseJson);
      found := Unique(acc);
      assert SetOf(found) == SetOf(acc);
      start := end;
    }
    assert ids[start..] == [];
  }

  /** One batch of `SearchContentTables`: the rows every searchable table returns for the
      pending ids, their ids appended to those found so far. */
  method SearchBatch(found: seq<int>, pending: seq<int>, tables: map<string, Searchable>,
                     search: (string, seq<string>, seq<int>) -> seq<Row>,
                     parseJson: string -> JsonValue)
    returns (acc: seq<int>)
    ensures SetOf(acc) == SetOf(found) + BatchFound(tables, pending, search, parseJson)
  {
    acc := found;
    var remaining := tables.Keys;
    while remaining != {}
      invariant remaining <= tables.Keys
      invariant forall x :: x in acc <==>
                  x in found || exists t :: t in tables && t !in remaining
                                            && x in RowsIds(search(t, tables[t].columns, pending), parseJson)
      decreases remaining
    {
      var t :| t in remaining;
      var rowIds := GetAssetIdsFromContentTableRows(search(t, tables[t].columns, pending), parseJson);
      acc := acc + rowIds;
      remaining := remaining - {t};
    }
    BatchAccumulated(found, acc, tables, pending, search, parseJson);
  }

  // ---------------------------------------------------------------------------
  // Deletion
  // ---------------------------------------------------------------------------

  /** The assets without the given ids: the candidates a `NOT IN` condition keeps, and the
      assets table after the assets with those ids are deleted. */
  function RemoveIds(assets: seq<AssetRecord>, ids: set<int>): (r: seq<AssetRecord>)
    ensures forall a :: a in r <==> a in assets && a.id !in ids
  {
    if |assets| == 0 then []
    else
      var front := RemoveIds(assets[..|assets| - 1], ids);
      var a := assets[|assets| - 1];
      assert forall b :: b in assets <==> b in assets[..|assets| - 1] || b == a by {
        assert assets == assets[..|assets| - 1] + [a];
      }
      if a.id in ids then front else front + [a]
  }

  lemma SetOfAppend(s: seq<int>, x: int)
    ensures SetOf(s + [x]) == SetOf(s) + {x}
  {
  }

  /** Removing no id changes nothing. */
  lemma {:induction false} RemoveNoIds(assets: seq<AssetRecord>)
    ensures RemoveIds(assets, {}) == assets
  {
    if |assets| > 0 {
      var front, last := assets[..|assets| - 1], assets[|assets| - 1];
      RemoveNoIds(front);
      assert RemoveIds(assets, {}) == RemoveIds(front, {}) + [last];
      assert front + [last] == assets;
    }
  }

  /** Removing ids in two steps removes them all. */
  lemma {:induction false} RemoveIdsTwice(assets: seq<AssetRecord>, a: set<int>, b: set<int>)
    ensures RemoveIds(RemoveIds(assets, a), b) == RemoveIds(assets, a + b)
  {
    if |assets| > 0 {
      RemoveIdsTwice(assets[..|assets| - 1], a, b);
      var front := RemoveIds(assets[..|assets| - 1], a);
      var last := assets[|assets| - 1];
      if last.id !in a {
        assert RemoveIds(assets, a) == front + [last];
        assert (front + [last])[..|front|] == front;
      }
    }
  }

  /** The ids of the selected assets whose deletion succeeds, in order. */
  function DeletedIds(selected: seq<AssetRecord>, deleteOk: int -> bool): (r: seq<int>)
    ensures |r| <= |selected|
  {
    if |selected| == 0 then []
    else
      var a := selected[|selected| - 1];
      DeletedIds(selected[..|selected| - 1], deleteOk) + (if deleteOk(a.id) then [a.id] else [])
  }

  /** The deletion loop: every selected asset is attempted once; a failure is counted and the
      loop goes on. */
  method DeleteAssets(lib: Library, selected: seq<AssetRecord>, deleteOk: int -> bool)
    returns (numDeleted: nat, numErrors: nat)
    modifies lib`assets
    ensures numDeleted == |DeletedIds(selected, deleteOk)|
    ensures numDeleted + numErrors == |selected|
    ensures lib.assets == RemoveIds(old(lib.assets), SetOf(DeletedIds(selected, deleteOk)))
  {
    numDeleted, numErrors := 0, 0;
    RemoveNoIds(lib.assets);
    assert SetOf(DeletedIds(selected[..0], deleteOk)) == {};
    for i := 0 to |selected|
      invariant numDeleted == |DeletedIds(selected[..i], deleteOk)|
      invariant numDeleted + numErrors == i
      invariant lib.assets == RemoveIds(old(lib.assets), SetOf(DeletedIds(selected[..i], deleteOk)))
    {
      var id := selected[i].id;
      assert selected[..i + 1][..i] == selected[..i];
      ghost var done := SetOf(DeletedIds(selected[..i], deleteOk));
      assert DeletedIds(selected[..i + 1], deleteOk)
             == DeletedIds(selected[..i], deleteOk) + (if deleteOk(id) then [id] else []);
      if deleteOk(id) {
        RemoveIdsTwice(old(lib.assets), done, {id});
        SetOfAppend(DeletedIds(selected[..i], deleteOk), id);
        lib.assets := RemoveIds(lib.assets, {id});
        numDeleted := numDeleted + 1;
        assert lib.assets == RemoveIds(old(lib.assets), SetOf(DeletedIds(selected[..i + 1], deleteOk)));
      } else {
        numErrors := numErrors + 1;
        assert DeletedIds(selected[..i + 1], deleteOk) == DeletedIds(selected[..i], deleteOk);
      }
    }
    assert selected[..|selected|] == selected;
  }

  /** The folder with id `folderId` or one of its subfolders holds the asset. */
  predicate InFolder(a: AssetRecord, folders: map<int, Folder>, folderId: int)
    requires folderId in folders
  {
    a.folderId == folderId
    || (a.folderId in folders && folders[a.folderId].volumeId == folders[folderId].volumeId
        && IsPrefix(folders[folderId].path, folders[a.folderId].path))
  }

  predicate IsPrefix(p: string, s: string) {
    |p| <= |s| && s[..|p|] == p
  }

  /** No asset is in the folder or below it. */
  predicate IsEmptyFolder(assets: seq<AssetRecord>, folders: map<int, Folder>, folderId: int)
    requires folderId in folders
  {
    forall a :: a in assets ==> !InFolder(a, folders, folderId)
  }

  /** A root folder has no parent (a null or zero `parentId`). */
  predicate IsRoot(f: Folder) {
    f.parentId.None? || f.parentId == Some(0)
  }

  /** The folder and its subfolders, which the host deletes together. */
  function Subtree(folders: map<int, Folder>, folderId: int): set<int>
    requires folderId in folders
  {
    set k | k in folders && (k == folderId || (folders[k].volumeId == folders[folderId].volumeId
                                               && IsPrefix(folders[folderId].path, folders[k].path)))
  }

  /** `_maybeDeleteFolder($folderId)`: a missing folder, a root folder and a folder that still
      holds assets (also below it) are left alone; otherwise the host deletes the folder and its
      subfolders unless that fails (`ok` false). */
  function FoldersAfterMaybeDelete(folders: map<int, Folder>, assets: seq<AssetRecord>, folderId: int, ok: bool)
    : map<int, Folder>
  {
    if folderId !in folders || IsRoot(folders[folderId]) || !IsEmptyFolder(assets, folders, folderId) || !ok
    then folders
    else folders - Subtree(folders, folderId)
  }

  /** Deleting folders never strands an asset: every asset whose folder existed still has it. */
  lemma NoAssetLosesItsFolder(folders: map<int, Folder>, assets: seq<AssetRecord>, folderId: int, ok: bool)
    ensures forall a :: a in assets && a.folderId in folders ==>
              a.folderId in FoldersAfterMaybeDelete(folders, assets, folderId, ok)
  {
    forall a | a in assets && a.folderId in folders
      ensures a.folderId in FoldersAfterMaybeDelete(folders, assets, folderId, ok)
    {
      if folderId in folders && !IsRoot(folders[folderId]) && IsEmptyFolder(assets, folders, folderId) && ok {
        assert !InFolder(a, folders, folderId);
        assert a.folderId !in Subtree(folders, folderId);
      }
    }
  }

  /** The folders after `_maybeDeleteFolder` on each id in turn. */
  function FoldersAfterAll(folders: map<int, Folder>, assets: seq<AssetRecord>, folderIds: seq<int>,
                           ok: int -> bool): map<int, Folder>
  {
    if |folderIds| == 0 then folders
    else
      var id := folderIds[|folderIds| - 1];
      FoldersAfterMaybeDelete(FoldersAfterAll(folders, assets, folderIds[..|folderIds| - 1], ok), assets, id, ok(id))
  }

  /** The whole folder pass strands no asset either. */
  lemma {:induction false} FolderPassKeepsAssetFolders(folders: map<int, Folder>, assets: seq<AssetRecord>,
                                                       folderIds: seq<int>, ok: int -> bool)
    ensures forall a :: a in assets && a.folderId in folders ==>
              a.folderId in FoldersAfterAll(folders, assets, folderIds, ok)
  {
    if |folderIds| > 0 {
      var front := folderIds[..|folderIds| - 1];
      FolderPassKeepsAssetFolders(folders, assets, front, ok);
      var id := folderIds[|folderIds| - 1];
      NoAssetLosesItsFolder(FoldersAfterAll(folders, assets, front, ok), assets, id, ok(id));
    }
  }

  /** The assets and folders of the installation. */
  class Library {
    var assets: seq<AssetRecord>
    var folders: map<int, Folder>

    constructor (assets: seq<AssetRecord>, folders: map<int, Folder>)
      ensures this.assets == assets && this.folders == folders
    {
      this.assets := assets;
      this.folders := folders;
    }

    /** `_maybeDeleteFolder($folderId)`. */
    method MaybeDeleteFolder(folderId: int, ok: bool)
      modifies this`folders
      ensures folders == FoldersAfterMaybeDelete(old(folders), assets, folderId, ok)
    {
      if folderId !in folders {
        return;
      }
      var folder := folders[folderId];
      if IsRoot(folder) {
        return;
      }
      var isEmpty := IsEmptyFolder(assets, folders, folderId);
      if !isEmpty {
        return;
      }
      if ok {
        folders := folders - Subtree(folders, folderId);
      }
    }

    /** The folder loop, after the assets are deleted. */
    method DeleteFolders(folderIds: seq<int>, ok: int -> bool)
      modifies this`folders
      ensures folders == FoldersAfterAll(old(folders), assets, folderIds, ok)
    {
      for i := 0 to |folderIds|
        invariant folders == FoldersAfterAll(old(folders), assets, folderIds[..i], ok)
      {
        MaybeDeleteFolder(folderIds[i], ok(folderIds[i]));
        assert folderIds[..i + 1][..i] == folderIds[..i];
      }
      assert folderIds[..|folderIds|] == folderIds;
    }
  }

  // ---------------------------------------------------------------------------
  // The command
  // ---------------------------------------------------------------------------

  /** Where the command is headed before it deletes anything: an outcome to stop with, or the
      assets to delete. */
  datatype Plan = Stop(outcome: Outcome) | Delete(selected: seq<AssetRecord>)

  /** Whether the command collects text columns: the options resolve, there are candidates,
      and content tables are to be searched. */
  predicate CollectsColumns(opts: Options, env: Env, assets: seq<AssetRecord>) {
    var resolution := Resolve(opts, env.volumes, env.fileKinds, env.now);
    && resolution.Resolved?
    && Candidates(assets, resolution.selection, env.relationTargets) != []
    && opts.searchContentTables
  }

  /** The ids found in content tables, given the searchable tables. */
  function FoundIds(candidates: seq<AssetRecord>, tables: map<string, Searchable>, env: Env): set<int> {
    if tables == map[] then {} else ScanFound({}, Ids(candidates), tables, env.search, env.parseJson)
  }

  /** The candidates left once content-table references are excluded; None when the column map
      is read before anything was appended to it. With `searchContentTables` off, every
      candidate is kept. */
  function Unsearched(candidates: seq<AssetRecord>, opts: Options, env: Env, columns: ColumnsByTable)
    : Option<seq<AssetRecord>>
  {
    if !opts.searchContentTables then Some(candidates)
    else
      var collected := AddFields(env.columnHost, columns, env.fields);
      if collected.None? then None
      else
        var found := FoundIds(candidates, Searchables(collected.value, env.rowCount), env);
        Some(if found == {} then candidates else RemoveIds(candidates, found))
  }

  /** The decisions of `actionIndex` up to the confirmation prompt. */
  function PlanFor(opts: Options, env: Env, assets: seq<AssetRecord>, columns: ColumnsByTable): Plan {
    match Resolve(opts, env.volumes, env.fileKinds, env.now)
    case Refused(error) => Stop(error)
    case Resolved(sel) =>
      var candidates := Candidates(assets, sel, env.relationTargets);
      if candidates == [] then Stop(NoUnusedAssets)
      else
        match Unsearched(candidates, opts, env, columns)
        case None => Stop(ColumnsUninitialised)
        case Some(selected) =>
          if selected == [] then Stop(NoUnusedAssets)
          else if opts.interactive && !env.confirm then Stop(Declined)
          else Delete(selected)
  }

  /** The folders considered after deletion: the distinct folders of the selected assets when
      `deleteFolders` is set, none otherwise. */
  function FoldersToClean(selected: seq<AssetRecord>, deleteFolders: bool): seq<int> {
    if deleteFolders then Unique(FolderIds(selected)) else []
  }

  /** An unknown volume or kind stops the command before anything is counted or deleted, the
      volume being checked first. */
  lemma RefusedOptionsStopEarly(opts: Options, env: Env, assets: seq<AssetRecord>, columns: ColumnsByTable)
    requires opts.volume != Settings.WILDCARD && opts.volume !in env.volumes
    ensures PlanFor(opts, env, assets, columns) == Stop(UnknownVolume)
    ensures !CollectsColumns(opts, env, assets)
  {
  }

  /** Declining the confirmation deletes nothing. */
  lemma DeclineDeletesNothing(opts: Options, env: Env, assets: seq<AssetRecord>, columns: ColumnsByTable)
    requires opts.interactive && !env.confirm
    ensures PlanFor(opts, env, assets, columns).Stop?
  {
  }

  /** Only candidates are deleted, and with `searchContentTables` off, all of them are. */
  lemma SelectedAreCandidates(opts: Options, env: Env, assets: seq<AssetRecord>, columns: ColumnsByTable)
    requires PlanFor(opts, env, assets, columns).Delete?
    ensures var sel := Resolve(opts, env.volumes, env.fileKinds, env.now).selection;
            var selected := PlanFor(opts, env, assets, columns).selected;
            && (forall a :: a in selected ==> a in assets && IsCandidate(a, sel, env.relationTargets))
            && (!opts.searchContentTables ==> selected == Candidates(assets, sel, env.relationTargets))
  {
  }

  /** The command never deletes an asset that a content-table row references, as long as the
      row sits in a searchable table and the database returns it whenever the asset's id is
      searched for. */
  lemma ReferencedAssetIsKept(opts: Options, env: Env, assets: seq<AssetRecord>, columns: ColumnsByTable,
                              a: AssetRecord, table: string, row: Row)
    requires opts.searchContentTables
    requires PlanFor(opts, env, assets, columns).Delete?
    requires var collected := AddFields(env.columnHost, columns, env.fields);
             && collected.Some?
             && table in Searchables(collected.value, env.rowCount)
             && AlwaysReturns(env.search, table, Searchables(collected.value, env.rowCount)[table].columns, row, a.id)
    requires a.id in RowIds(row, env.parseJson)
    ensures a !in PlanFor(opts, env, assets, columns).selected
  {
    var sel := Resolve(opts, env.volumes, env.fileKinds, env.now).selection;
    var candidates := Candidates(assets, sel, env.relationTargets);
    var tables := Searchables(AddFields(env.columnHost, columns, env.fields).value, env.rowCount);
    if a in candidates {
      assert a.id in Ids(candidates) by {
        var i :| 0 <= i < |candidates| && candidates[i] == a;
        assert Ids(candidates)[i] == a.id;
      }
      assert tables != map[];
      ReferencedIdIsFound({}, Ids(candidates), tables, env.search, env.parseJson, a.id, table, row);
    }
  }

  /** The content-table part of `actionIndex()`: collect the text columns, and when some table
      has rows, search the candidates' ids in batches and keep the candidates not found. */
  method ExcludeReferenced(candidates: seq<AssetRecord>, opts: Options, env: Env, columns: ColumnMap)
    returns (selected: Option<seq<AssetRecord>>)
    modifies columns
    ensures selected == Unsearched(candidates, opts, env, old(columns.textColumnsByTable))
    ensures columns.textColumnsByTable ==
              if opts.searchContentTables
              then AddFields(env.columnHost, old(columns.textColumnsByTable), env.fields)
              else old(columns.textColumnsByTable)
  {
    if !opts.searchContentTables {
      return Some(candidates);
    }
    columns.AddForAllFields(env.columnHost, env.fields);
    var tables := columns.TablesToSearch(env.rowCount);
    if tables.None? {
      return None;
    }
    ghost var expected := FoundIds(candidates, tables.value, env);
    selected := Some(candidates);
    if tables.value != map[] {
      var found := SearchContentTables(Ids(candidates), tables.value, env.search, env.parseJson);
      assert SetOf(found) == expected;
      if |found| > 0 {
        assert found[0] in expected;
        selected := Some(RemoveIds(candidates, SetOf(found)));
      } else {
        assert expected == {};
      }
    } else {
      assert expected == {};
    }
  }

  /** The deletion part of `actionIndex()`: the folders to clean are taken from the selected
      assets first, then the assets are deleted, then the folders. */
  method DeleteSelected(selected: seq<AssetRecord>, opts: Options, env: Env, lib: Library) returns (outcome: Outcome)
    modifies lib
    ensures var deleted := DeletedIds(selected, env.deleteOk);
            && outcome == Purged(|deleted|, |selected| - |deleted|)
            && lib.assets == RemoveIds(old(lib.assets), SetOf(deleted))
            && lib.folders == FoldersAfterAll(old(lib.folders), lib.assets,
                                              FoldersToClean(selected, opts.deleteFolders), env.folderDeleteOk)
  {
    var folderIds := if opts.deleteFolders then Unique(FolderIds(selected)) else [];
    var numDeleted, numErrors := DeleteAssets(lib, selected, env.deleteOk);
    if |folderIds| > 0 {
      lib.DeleteFolders(folderIds, env.folderDeleteOk);
    }
    outcome := Purged(numDeleted, numErrors);
  }

  /** The part of `actionIndex()` before any deletion: resolve the options, select the
      candidates, exclude the referenced ones and ask for confirmation. */
  method PlanDeletion(opts: Options, env: Env, columns: ColumnMap, assets: seq<AssetRecord>) returns (plan: Plan)
    modifies columns
    ensures plan == PlanFor(opts, env, assets, old(columns.textColumnsByTable))
    ensures columns.textColumnsByTable ==
              if CollectsColumns(opts, env, assets)
              then AddFields(env.columnHost, old(columns.textColumnsByTable), env.fields)
              else old(columns.textColumnsByTable)
  {
    var resolution := Resolve(opts, env.volumes, env.fileKinds, env.now);
    if resolution.Refused? {
      return Stop(resolution.error);
    }
    var candidates := Candidates(assets, resolution.selection, env.relationTargets);
    if |candidates| == 0 {
      return Stop(NoUnusedAssets);
    }
    var selected := ExcludeReferenced(candidates, opts, env, columns);
    if selected.None? {
      return Stop(ColumnsUninitialised);
    }
    if |selected.value| == 0 {
      return Stop(NoUnusedAssets);
    }
    if opts.interactive && !env.confirm {
      return Stop(Declined);
    }
    plan := Delete(selected.value);
  }

  /** `actionIndex()`: `columns` is the command's column map, `lib` the installation's assets
      and folders. */
  method ActionIndex(opts: Options, env: Env, columns: ColumnMap, lib: Library) returns (outcome: Outcome)
    modifies columns, lib
    ensures columns.textColumnsByTable ==
              if CollectsColumns(opts, env, old(lib.assets))
              then AddFields(env.columnHost, old(columns.textColumnsByTable), env.fields)
              else old(columns.textColumnsByTable)
    ensures match PlanFor(opts, env, old(lib.assets), old(columns.textColumnsByTable))
            case Stop(o) => outcome == o && lib.assets == old(lib.assets) && lib.folders == old(lib.folders)
            case Delete(selected) =>
              var deleted := DeletedIds(selected, env.deleteOk);
              && outcome == Purged(|deleted|, |selected| - |deleted|)
              && lib.assets == RemoveIds(old(lib.assets), SetOf(deleted))
              && lib.folders == FoldersAfterAll(old(lib.folders), lib.assets,
                                                FoldersToClean(selected, opts.deleteFolders), env.folderDeleteOk)
  {
    var plan := PlanDeletion(opts, env, columns, lib.assets);
    match plan
    case Stop(o) =>
      outcome := o;
    case Delete(selected) =>
      outcome := DeleteSelected(selected, opts, env, lib);
  }
}
