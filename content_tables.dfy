/**
 * Text-column collection: which textual columns of which content tables can hold a reference
 * to an asset. Every field is dispatched to the Matrix, the Super Table or the plain
 * content-table handler; each textual column it owns is appended to a map from table name to
 * column list, and the tables that hold no rows are then dropped.
 *
 * The same code lives in the `ContentTablesHelper` class (where the map is a static property
 * that is never cleared) and in the purge console command (where it is a property of the
 * command); `ColumnMap` models both.
 */
module ContentTables {
  import opened Wrappers

  /** `Table::CONTENT`, the main content table. */
  const CONTENT_TABLE: string := "{{%content}}"

  /** The column prefix of a field in the main content table and in a Super Table table. */
  const FIELD_PREFIX: string := "field_"

  /** A field's content column type: one database type, or an ordered array from key to type
      (one sub-column per key). */
  datatype ColumnType = Scalar(dbType: string) | Composite(entries: seq<(string, string)>)

  /** A field that may own columns in a content table. */
  datatype ContentField = ContentField(
    handle: string,
    columnSuffix: Option<string>,
    hasContentColumn: bool,
    columnType: ColumnType)

  /** A Matrix block type and its own fields. */
  datatype BlockType = BlockType(handle: string, fields: seq<ContentField>)

  /** The fields the handlers tell apart: a Matrix field (with its block types), a Super Table
      field (with its block type fields), and any other field. */
  datatype Field =
    | MatrixField(contentTable: string, blockTypes: seq<BlockType>)
    | SuperTableField(contentTable: string, blockTypeFields: seq<ContentField>)
    | OtherField(field: ContentField)

  /** The host helpers the handlers call: `Db::isTextualColumnType()` and
      `ElementHelper::fieldColumn($prefix, $handle, $suffix, $key)`. */
  datatype ColumnHost = ColumnHost(
    isTextual: string -> bool,
    fieldColumn: (string, string, Option<string>, Option<string>) -> string)

  // ---------------------------------------------------------------------------
  // The columns a field contributes
  // ---------------------------------------------------------------------------

  /** The key a sub-column is named with: none for the first key, the key itself after it. */
  function KeyAt(entries: seq<(string, string)>, i: nat): Option<string>
    requires i < |entries|
  {
    if i == 0 then None else Some(entries[i].0)
  }

  function SubColumn(host: ColumnHost, prefix: string, field: ContentField,
                     entries: seq<(string, string)>, i: nat): string
    requires i < |entries|
  {
    host.fieldColumn(prefix, field.handle, field.columnSuffix, KeyAt(entries, i))
  }

  /** The sub-columns of the first `n` keys of an array column type, in key order: exactly the
      keys whose type is textual, each named with its key except the first one. */
  function CompositeColumns(host: ColumnHost, prefix: string, field: ContentField,
                            entries: seq<(string, string)>, n: nat): (r: seq<string>)
    requires n <= |entries|
    ensures forall c :: c in r <==>
              exists i :: 0 <= i < n && host.isTextual(entries[i].1) && c == SubColumn(host, prefix, field, entries, i)
    ensures |r| <= n
  {
    if n == 0 then []
    else
      var front := CompositeColumns(host, prefix, field, entries, n - 1);
      var last := if host.isTextual(entries[n - 1].1) then [SubColumn(host, prefix, field, entries, n - 1)] else [];
      assert forall c :: c in front + last <==> c in front || c in last;
      front + last
  }

  /** When the first key is textual, its column comes first and carries no key. */
  lemma {:induction false} FirstSubColumnHasNoKey(host: ColumnHost, prefix: string, field: ContentField,
                                                  entries: seq<(string, string)>, n: nat)
    requires 1 <= n <= |entries|
    requires host.isTextual(entries[0].1)
    ensures var r := CompositeColumns(host, prefix, field, entries, n);
            |r| > 0 && r[0] == host.fieldColumn(prefix, field.handle, field.columnSuffix, None)
  {
    if n > 1 {
      FirstSubColumnHasNoKey(host, prefix, field, entries, n - 1);
    }
  }

  /** The columns a field owns, named with `prefix`: none without a content column; for a
      scalar type one column without a key when the type is textual; for an array type the
      textual sub-columns. */
  function FieldColumns(host: ColumnHost, prefix: string, field: ContentField): seq<string> {
    if !field.hasContentColumn then []
    else match field.columnType
      case Scalar(dbType) =>
        if host.isTextual(dbType) then [host.fieldColumn(prefix, field.handle, field.columnSuffix, None)] else []
      case Composite(entries) => CompositeColumns(host, prefix, field, entries, |entries|)
  }

  /** The columns of a list of fields sharing one prefix, field after field. */
  function FieldsColumns(host: ColumnHost, prefix: string, fields: seq<ContentField>): seq<string> {
    if |fields| == 0 then []
    else FieldsColumns(host, prefix, fields[..|fields| - 1]) + FieldColumns(host, prefix, fields[|fields| - 1])
  }

  /** The column prefix of a Matrix block type's fields. */
  function BlockPrefix(blockType: BlockType): string {
    FIELD_PREFIX + blockType.handle + "_"
  }

  /** The columns of a Matrix field's block types, block type after block type. */
  function BlockTypesColumns(host: ColumnHost, blockTypes: seq<BlockType>): seq<string> {
    if |blockTypes| == 0 then []
    else
      var bt := blockTypes[|blockTypes| - 1];
      BlockTypesColumns(host, blockTypes[..|blockTypes| - 1]) + FieldsColumns(host, BlockPrefix(bt), bt.fields)
  }

  /** The table a field's columns go to: the Matrix or Super Table field's own content table,
      or the main content table. */
  function FieldTable(f: Field): string {
    match f
    case MatrixField(table, _) => table
    case SuperTableField(table, _) => table
    case OtherField(_) => CONTENT_TABLE
  }

  /** The columns a field contributes, after dispatch on its kind. */
  function ColumnsOf(host: ColumnHost, f: Field): seq<string> {
    match f
    case MatrixField(_, blockTypes) => BlockTypesColumns(host, blockTypes)
    case SuperTableField(_, fields) => FieldsColumns(host, FIELD_PREFIX, fields)
    case OtherField(field) => FieldColumns(host, FIELD_PREFIX, field)
  }

  /** A field outside Matrix and Super Table with a textual scalar type adds exactly one column,
      `field_<handle>` with its suffix, to the main content table. */
  lemma PlainTextFieldColumn(host: ColumnHost, field: ContentField)
    requires field.hasContentColumn && field.columnType.Scalar? && host.isTextual(field.columnType.dbType)
    ensures FieldTable(OtherField(field)) == CONTENT_TABLE
    ensures ColumnsOf(host, OtherField(field)) == [host.fieldColumn(FIELD_PREFIX, field.handle, field.columnSuffix, None)]
  {
  }

  /** Every column of a Matrix field is named with the prefix `field_<blockHandle>_` of one of
      its block types and belongs to one of that block type's fields. */
  lemma {:induction false} MatrixColumnsUseBlockPrefix(host: ColumnHost, blockTypes: seq<BlockType>, c: string)
    requires c in BlockTypesColumns(host, blockTypes)
    ensures exists b, f :: 0 <= b < |blockTypes| && 0 <= f < |blockTypes[b].fields|
              && c in FieldColumns(host, BlockPrefix(blockTypes[b]), blockTypes[b].fields[f])
  {
    var n := |blockTypes|;
    var bt := blockTypes[n - 1];
    if c in BlockTypesColumns(host, blockTypes[..n - 1]) {
      MatrixColumnsUseBlockPrefix(host, blockTypes[..n - 1], c);
      var b, f :| 0 <= b < n - 1 && 0 <= f < |blockTypes[..n - 1][b].fields|
                  && c in FieldColumns(host, BlockPrefix(blockTypes[..n - 1][b]), blockTypes[..n - 1][b].fields[f]);
      assert blockTypes[..n - 1][b] == blockTypes[b];
    } else {
      var f := FieldsColumnsMember(host, BlockPrefix(bt), bt.fields, c);
      assert c in FieldColumns(host, BlockPrefix(blockTypes[n - 1]), blockTypes[n - 1].fields[f]);
    }
  }

  /** A column of a list of fields comes from one of them. */
  lemma {:induction false} FieldsColumnsMember(host: ColumnHost, prefix: string, fields: seq<ContentField>, c: string)
    returns (f: nat)
    requires c in FieldsColumns(host, prefix, fields)
    ensures f < |fields| && c in FieldColumns(host, prefix, fields[f])
  {
    var n := |fields|;
    if c in FieldsColumns(host, prefix, fields[..n - 1]) {
      f := FieldsColumnsMember(host, prefix, fields[..n - 1], c);
      assert fields[..n - 1][f] == fields[f];
    } else {
      f := n - 1;
    }
  }

  // ---------------------------------------------------------------------------
  // The table -> columns map
  // ---------------------------------------------------------------------------

  /** The map from table name to its textual columns. It is a typed property without an
      initial value, so it is None until the first column is appended to it. */
  type ColumnsByTable = Option<map<string, seq<string>>>

  /** The columns recorded for `table` so far. */
  function ColumnsFor(m: ColumnsByTable, table: string): seq<string> {
    if m.Some? && table in m.value then m.value[table] else []
  }

  /** `$map[$table][] = $column` for each of `cols` in turn; nothing at all happens for none. */
  function AppendColumns(m: ColumnsByTable, table: string, cols: seq<string>): ColumnsByTable {
    if cols == [] then m
    else
      var base := if m.Some? then m.value else map[];
      Some(base[table := ColumnsFor(m, table) + cols])
  }

  /** Appending touches only its own table, and only at the end of its list. */
  lemma AppendColumnsFor(m: ColumnsByTable, table: string, cols: seq<string>, t: string)
    ensures ColumnsFor(AppendColumns(m, table, cols), t) == ColumnsFor(m, t) + (if t == table then cols else [])
  {
  }

  /** Two appends to one table are one append of both lists. */
  lemma AppendColumnsTwice(m: ColumnsByTable, table: string, a: seq<string>, b: seq<string>)
    ensures AppendColumns(AppendColumns(m, table, a), table, b) == AppendColumns(m, table, a + b)
  {
    if a == [] {
      assert a + b == b;
    } else if b == [] {
      assert a + b == a;
    } else {
      var base := if m.Some? then m.value else map[];
      var once := base[table := ColumnsFor(m, table) + a];
      assert AppendColumns(m, table, a) == Some(once);
      assert ColumnsFor(Some(once), table) == ColumnsFor(m, table) + a;
      assert ColumnsFor(m, table) + a + b == ColumnsFor(m, table) + (a + b);
      assert once[table := ColumnsFor(m, table) + a + b] == base[table := ColumnsFor(m, table) + (a + b)];
    }
  }

  /** The map after adding the columns of `fields`, one field after the other. */
  function AddFields(host: ColumnHost, m: ColumnsByTable, fields: seq<Field>): ColumnsByTable {
    if |fields| == 0 then m
    else
      var f := fields[|fields| - 1];
      AppendColumns(AddFields(host, m, fields[..|fields| - 1]), FieldTable(f), ColumnsOf(host, f))
  }

  /** What `fields` contribute to `table`, field after field. */
  function TableColumns(host: ColumnHost, fields: seq<Field>, table: string): seq<string> {
    if |fields| == 0 then []
    else
      var f := fields[|fields| - 1];
      TableColumns(host, fields[..|fields| - 1], table) + (if FieldTable(f) == table then ColumnsOf(host, f) else [])
  }

  /** Adding fields only appends: each table keeps what it had and gets its fields' columns
      after it. */
  lemma {:induction false} AddFieldsColumns(host: ColumnHost, m: ColumnsByTable, fields: seq<Field>, table: string)
    ensures ColumnsFor(AddFields(host, m, fields), table) == ColumnsFor(m, table) + TableColumns(host, fields, table)
  {
    if |fields| > 0 {
      var f, front := fields[|fields| - 1], fields[..|fields| - 1];
      var prev := AddFields(host, m, front);
      var own := if FieldTable(f) == table then ColumnsOf(host, f) else [];
      assert AddFields(host, m, fields) == AppendColumns(prev, FieldTable(f), ColumnsOf(host, f));
      assert TableColumns(host, fields, table) == TableColumns(host, front, table) + own;
      AddFieldsColumns(host, m, front, table);
      AppendColumnsFor(prev, FieldTable(f), ColumnsOf(host, f), table);
      assert ColumnsFor(m, table) + TableColumns(host, front, table) + own
             == ColumnsFor(m, table) + (TableColumns(host, front, table) + own);
    }
  }

  /** The map stays uninitialised exactly when it was and no field contributes a column. */
  lemma {:induction false} AddFieldsInitialises(host: ColumnHost, m: ColumnsByTable, fields: seq<Field>)
    ensures AddFields(host, m, fields).None? <==>
              m.None? && forall i :: 0 <= i < |fields| ==> ColumnsOf(host, fields[i]) == []
  {
    if |fields| > 0 {
      AddFieldsInitialises(host, m, fields[..|fields| - 1]);
      assert forall i :: 0 <= i < |fields| - 1 ==> fields[..|fields| - 1][i] == fields[i];
    }
  }

  /** The map is never cleared, so collecting the same fields a second time (a second call of
      the helper in one process) lists every column twice. */
  lemma SecondCollectionRepeatsColumns(host: ColumnHost, fields: seq<Field>, table: string)
    ensures var once := AddFields(host, None, fields);
            ColumnsFor(AddFields(host, once, fields), table) == ColumnsFor(once, table) + ColumnsFor(once, table)
  {
    var once := AddFields(host, None, fields);
    AddFieldsColumns(host, None, fields, table);
    AddFieldsColumns(host, once, fields, table);
  }

  /** One content table to search: its textual columns and its row count. */
  datatype Searchable = Searchable(columns: seq<string>, count: nat)

  /** The tables with at least one row, each with its columns and row count. */
  function Searchables(m: map<string, seq<string>>, rowCount: string -> nat): map<string, Searchable> {
    map t | t in m && rowCount(t) > 0 :: Searchable(m[t], rowCount(t))
  }

  /** The column map: the helper's static property, or the purge command's own property. */
  class ColumnMap {
    var textColumnsByTable: ColumnsByTable

    constructor ()
      ensures textColumnsByTable.None?
    {
      textColumnsByTable := None;
    }

    /** `$map[$table][] = $column`. */
    method AddColumn(table: string, column: string)
      modifies this
      ensures textColumnsByTable == AppendColumns(old(textColumnsByTable), table, [column])
    {
      var base := if textColumnsByTable.Some? then textColumnsByTable.value else map[];
      var columns := if table in base then base[table] else [];
      textColumnsByTable := Some(base[table := columns + [column]]);
    }

    /** `_addTextColumnsForContentTableField($field, $table, $prefix)`. */
    method AddForContentTableField(host: ColumnHost, field: ContentField, table: string, prefix: string)
      modifies this
      ensures textColumnsByTable == AppendColumns(old(textColumnsByTable), table, FieldColumns(host, prefix, field))
    {
      if !field.hasContentColumn {
        return;
      }
      match field.columnType {
        case Composite(entries) =>
          for i := 0 to |entries|
            invariant textColumnsByTable ==
                        AppendColumns(old(textColumnsByTable), table, CompositeColumns(host, prefix, field, entries, i))
          {
            if host.isTextual(entries[i].1) {
              var column := host.fieldColumn(prefix, field.handle, field.columnSuffix, if i != 0 then Some(entries[i].0) else None);
              AddColumn(table, column);
              AppendColumnsTwice(old(textColumnsByTable), table, CompositeColumns(host, prefix, field, entries, i), [column]);
              assert CompositeColumns(host, prefix, field, entries, i + 1)
                     == CompositeColumns(host, prefix, field, entries, i) + [column];
            } else {
              assert CompositeColumns(host, prefix, field, entries, i + 1)
                     == CompositeColumns(host, prefix, field, entries, i);
            }
          }
        case Scalar(dbType) =>
          if host.isTextual(dbType) {
            var column := host.fieldColumn(prefix, field.handle, field.columnSuffix, None);
            AddColumn(table, column);
          }
      }
    }

    /** The fields of one list, each with the same table and prefix. */
    method AddForFields(host: ColumnHost, fields: seq<ContentField>, table: string, prefix: string)
      modifies this
      ensures textColumnsByTable == AppendColumns(old(textColumnsByTable), table, FieldsColumns(host, prefix, fields))
    {
      for i := 0 to |fields|
        invariant textColumnsByTable == AppendColumns(old(textColumnsByTable), table, FieldsColumns(host, prefix, fields[..i]))
      {
        AddForContentTableField(host, fields[i], table, prefix);
        AppendColumnsTwice(old(textColumnsByTable), table, FieldsColumns(host, prefix, fields[..i]), FieldColumns(host, prefix, fields[i]));
        assert fields[..i + 1][..i] == fields[..i];
      }
      assert fields[..|fields|] == fields;
    }

    /** `_addTextColumnsForSuperTableField($field)`: its block type fields, prefix `field_`,
        into the Super Table field's own table. */
    method AddForSuperTableField(host: ColumnHost, contentTable: string, fields: seq<ContentField>)
      modifies this
      ensures textColumnsByTable ==
                AppendColumns(old(textColumnsByTable), contentTable, ColumnsOf(host, SuperTableField(contentTable, fields)))
    {
      AddForFields(host, fields, contentTable, FIELD_PREFIX);
    }

    /** `_addTextColumnsForMatrixField($field)`: each block type's fields, prefix
        `field_<blockHandle>_`, into the Matrix field's own table. */
    method AddForMatrixField(host: ColumnHost, contentTable: string, blockTypes: seq<BlockType>)
      modifies this
      ensures textColumnsByTable ==
                AppendColumns(old(textColumnsByTable), contentTable, ColumnsOf(host, MatrixField(contentTable, blockTypes)))
    {
      for i := 0 to |blockTypes|
        invariant textColumnsByTable ==
                    AppendColumns(old(textColumnsByTable), contentTable, BlockTypesColumns(host, blockTypes[..i]))
      {
        var prefix := FIELD_PREFIX + blockTypes[i].handle + "_";
        AddForFields(host, blockTypes[i].fields, contentTable, prefix);
        AppendColumnsTwice(old(textColumnsByTable), contentTable, BlockTypesColumns(host, blockTypes[..i]),
                           FieldsColumns(host, prefix, blockTypes[i].fields));
        assert blockTypes[..i + 1][..i] == blockTypes[..i];
      }
      assert blockTypes[..|blockTypes|] == blockTypes;
    }

    /** `_addTextColumnsForField($field)`: Matrix first, then Super Table, then any other field. */
    method AddForField(host: ColumnHost, f: Field)
      modifies this
      ensures textColumnsByTable == AppendColumns(old(textColumnsByTable), FieldTable(f), ColumnsOf(host, f))
    {
      match f {
        case MatrixField(table, blockTypes) => AddForMatrixField(host, table, blockTypes);
        case SuperTableField(table, fields) => AddForSuperTableField(host, table, fields);
        case OtherField(field) => AddForContentTableField(host, field, CONTENT_TABLE, FIELD_PREFIX);
      }
    }

    /** The loop over all fields of the installation. */
    method AddForAllFields(host: ColumnHost, fields: seq<Field>)
      modifies this
      ensures textColumnsByTable == AddFields(host, old(textColumnsByTable), fields)
    {
      for i := 0 to |fields|
        invariant textColumnsByTable == AddFields(host, old(textColumnsByTable), fields[..i])
      {
        AddForField(host, fields[i]);
        assert fields[..i + 1][..i] == fields[..i];
      }
      assert fields[..|fields|] == fields;
    }

    /** The loop that drops the tables without rows. Reading the map while it is still
        uninitialised throws, which is the None result. */
    method TablesToSearch(rowCount: string -> nat) returns (r: Option<map<string, Searchable>>)
      ensures textColumnsByTable.None? ==> r.None?
      ensures textColumnsByTable.Some? ==> r == Some(Searchables(textColumnsByTable.value, rowCount))
    {
      if textColumnsByTable.None? {
        return None;
      }
      var m := textColumnsByTable.value;
      var ret: map<string, Searchable> := map[];
      var remaining := m.Keys;
      while remaining != {}
        invariant remaining <= m.Keys
        invariant ret == map t | t in m && t !in remaining && rowCount(t) > 0 :: Searchable(m[t], rowCount(t))
        decreases remaining
      {
        var t :| t in remaining;
        var count := rowCount(t);
        if count > 0 {
          ret := ret[t := Searchable(m[t], count)];
        }
        remaining := remaining - {t};
      }
      assert ret == Searchables(m, rowCount);
      return Some(ret);
    }

    /** `getTextColumnsByTable()`: collect the columns of all fields into the map, then keep the
        tables that have rows. */
    method GetTextColumnsByTable(host: ColumnHost, fields: seq<Field>, rowCount: string -> nat)
      returns (r: Option<map<string, Searchable>>)
      modifies this
      ensures textColumnsByTable == AddFields(host, old(textColumnsByTable), fields)
      ensures r == if textColumnsByTable.None? then None else Some(Searchables(textColumnsByTable.value, rowCount))
    {
      AddForAllFields(host, fields);
      r := TablesToSearch(rowCount);
    }
  }

  /** A searchable table lists exactly the columns its fields contributed, when the map was
      uninitialised before the collection. */
  lemma SearchableColumns(host: ColumnHost, fields: seq<Field>, rowCount: string -> nat, table: string)
    requires AddFields(host, None, fields).Some?
    requires table in Searchables(AddFields(host, None, fields).value, rowCount)
    ensures Searchables(AddFields(host, None, fields).value, rowCount)[table]
              == Searchable(TableColumns(host, fields, table), rowCount(table))
    ensures rowCount(table) > 0
  {
    AddFieldsColumns(host, None, fields, table);
  }
}
