/** Assembly of transactions from logical replication messages
    (internal/wal/decode.go, internal/wal/relation.go): the handlers as they update
    their state, and what any message stream makes them emit. */
module Assembly {
  import opened WalTypes

  // ----- Messages -----

  datatype ColumnDef = ColumnDef(name: string, oid: nat, key: bool)

  datatype RelationMessage = RelationMessage(oid: nat, schema: string, table: string, columns: seq<ColumnDef>)

  datatype CellKind = NullCell | ToastCell | DataCell

  datatype Cell = Cell(kind: CellKind, data: string)

  type Tuple = Option<seq<Cell>>

  datatype Message =
    | Begin(xid: nat, finalLSN: LSN)
    | RelationMsg(rel: RelationMessage)
    | Insert(oid: nat, tuple: Tuple)
    | Update(oid: nat, oldTuple: Tuple, newTuple: Tuple)
    | Delete(oid: nat, oldTuple: Tuple)
    | Commit(lsn: LSN, time: int)
    | Other

  // ----- Relations -----

  datatype RelationInfo = RelationInfo(
    oid: nat,
    schema: string,
    table: string,
    pkCols: seq<string>,
    pkColOID: nat,
    columns: seq<ColumnDef>)

  // int2, int4, int8, uuid, text
  predicate AllowedPKOID(oid: nat) {
    oid == 21 || oid == 23 || oid == 20 || oid == 2950 || oid == 25
  }

  function KeyColumns(columns: seq<ColumnDef>): seq<ColumnDef> {
    if columns == [] then []
    else
      var last := columns[|columns| - 1];
      KeyColumns(columns[..|columns| - 1]) + if last.key then [last] else []
  }

  predicate Accepted(msg: RelationMessage) {
    |KeyColumns(msg.columns)| == 1 && AllowedPKOID(KeyColumns(msg.columns)[0].oid)
  }

  function InfoOf(msg: RelationMessage): RelationInfo
    requires Accepted(msg)
  {
    var pk := KeyColumns(msg.columns)[0];
    RelationInfo(msg.oid, msg.schema, msg.table, [pk.name], pk.oid, msg.columns)
  }

  type Relations = map<nat, RelationInfo>

  class RelationCache {
    var m: Relations

    constructor ()
      ensures m == map[]
    {
      m := map[];
    }

    // A rejected message leaves the entry that is there.
    method Update(msg: RelationMessage) returns (ok: bool)
      modifies this
      ensures ok <==> Accepted(msg)
      ensures m == if Accepted(msg) then old(m)[msg.oid := InfoOf(msg)] else old(m)
    {
      var pkCols: seq<ColumnDef> := [];
      for n := 0 to |msg.columns|
        invariant pkCols == KeyColumns(msg.columns[..n])
        invariant m == old(m)
      {
        assert msg.columns[..n + 1][..n] == msg.columns[..n];
        if msg.columns[n].key {
          pkCols := pkCols + [msg.columns[n]];
        }
      }
      assert msg.columns[..|msg.columns|] == msg.columns;
      if |pkCols| > 1 || |pkCols| == 0 {
        return false;
      }
      var pk := pkCols[0];
      if !AllowedPKOID(pk.oid) {
        return false;
      }
      m := m[msg.oid := RelationInfo(msg.oid, msg.schema, msg.table, [pk.name], pk.oid, msg.columns)];
      ok := true;
    }

    method Get(oid: nat) returns (info: Option<RelationInfo>)
      ensures info == Lookup(m, oid)
    {
      info := if oid in m then Some(m[oid]) else None;
    }
  }

  function Lookup(m: Relations, oid: nat): Option<RelationInfo> {
    if oid in m then Some(m[oid]) else None
  }

  // ----- Rows -----

  // The value mapper by type OID; None is a mapping error.
  type Mapper = (nat, string) -> Option<Value>

  function MapValue(mapper: Mapper, oid: nat, cell: Cell): Option<Value> {
    if cell.kind.NullCell? then Some(Null) else mapper(oid, cell.data)
  }

  function TextPK(cell: Cell): string {
    if cell.kind.DataCell? then cell.data else ""
  }

  function KeyName(rel: RelationInfo): string {
    if |rel.pkCols| > 0 then rel.pkCols[0] else ""
  }

  // Extra cells, and columns without a cell, are ignored.
  function Width(rel: RelationInfo, cells: seq<Cell>): nat {
    if |cells| < |rel.columns| then |cells| else |rel.columns|
  }

  datatype Row = Row(columns: Option<Columns>, pk: string, pkCol: string)

  // An update leaves unchanged out-of-line values out.
  predicate Used(cell: Cell, skipToast: bool) {
    !(skipToast && cell.kind.ToastCell?)
  }

  function RowUpTo(mapper: Mapper, rel: RelationInfo, cells: seq<Cell>, skipToast: bool, n: nat): (r: Option<Row>)
    requires n <= Width(rel, cells)
    ensures r.Some? ==> r.value.columns.Some?
  {
    if n == 0 then Some(Row(Some(map[]), "", ""))
    else
      var before := RowUpTo(mapper, rel, cells, skipToast, n - 1);
      var cell, col := cells[n - 1], rel.columns[n - 1];
      if before.None? || !Used(cell, skipToast) then before
      else
        var v := MapValue(mapper, col.oid, cell);
        if v.None? then None
        else
          var columns := Some(before.value.columns.value[col.name := v.value]);
          if col.name == KeyName(rel) then Some(Row(columns, TextPK(cell), col.name))
          else Some(before.value.(columns := columns))
  }

  function RowOf(mapper: Mapper, rel: RelationInfo, tuple: Tuple, skipToast: bool): Option<Row> {
    if tuple.None? then Some(Row(None, "", ""))
    else RowUpTo(mapper, rel, tuple.value, skipToast, Width(rel, tuple.value))
  }

  lemma {:induction false} RowFails(mapper: Mapper, rel: RelationInfo, cells: seq<Cell>, skipToast: bool, n: nat,
                                    m: nat)
    requires n <= m <= Width(rel, cells) && RowUpTo(mapper, rel, cells, skipToast, n).None?
    ensures RowUpTo(mapper, rel, cells, skipToast, m).None?
  {
    if n < m {
      RowFails(mapper, rel, cells, skipToast, n, m - 1);
    }
  }

  method BuildDataMap(tuple: Tuple, rel: RelationInfo, mapper: Mapper) returns (row: Option<Row>)
    ensures row == RowOf(mapper, rel, tuple, false)
  {
    if tuple.None? {
      return Some(Row(None, "", ""));
    }
    var data: Columns, pk, pkCol := map[], "", "";
    var cells := tuple.value;
    var i := 0;
    while i < |cells| && i < |rel.columns|
      invariant i <= Width(rel, cells)
      invariant RowUpTo(mapper, rel, cells, false, i) == Some(Row(Some(data), pk, pkCol))
    {
      var relCol := rel.columns[i];
      var v := MapValue(mapper, relCol.oid, cells[i]);
      if v.None? {
        RowFails(mapper, rel, cells, false, i + 1, Width(rel, cells));
        return None;
      }
      data := data[relCol.name := v.value];
      if relCol.name == KeyName(rel) {
        pk := TextPK(cells[i]);
        pkCol := relCol.name;
      }
      i := i + 1;
    }
    row := Some(Row(Some(data), pk, pkCol));
  }

  method BuildChangedMap(tuple: Tuple, rel: RelationInfo, mapper: Mapper) returns (row: Option<Row>)
    ensures row == RowOf(mapper, rel, tuple, true)
  {
    if tuple.None? {
      return Some(Row(None, "", ""));
    }
    var changed: Columns, pk, pkCol := map[], "", "";
    var cells := tuple.value;
    var i := 0;
    while i < |cells| && i < |rel.columns|
      invariant i <= Width(rel, cells)
      invariant RowUpTo(mapper, rel, cells, true, i) == Some(Row(Some(changed), pk, pkCol))
    {
      var relCol := rel.columns[i];
      if cells[i].kind.ToastCell? {
        i := i + 1;
        continue;
      }
      var v := MapValue(mapper, relCol.oid, cells[i]);
      if v.None? {
        RowFails(mapper, rel, cells, true, i + 1, Width(rel, cells));
        return None;
      }
      changed := changed[relCol.name := v.value];
      if relCol.name == KeyName(rel) {
        pk := TextPK(cells[i]);
        pkCol := relCol.name;
      }
      i := i + 1;
    }
    row := Some(Row(Some(changed), pk, pkCol));
  }

  function KeyFrom(rel: RelationInfo, cells: seq<Cell>, n: nat): (key: Option<(string, string)>)
    requires n <= Width(rel, cells) && |rel.pkCols| > 0
    decreases Width(rel, cells) - n
  {
    if n == Width(rel, cells) then None
    else if rel.columns[n].name == rel.pkCols[0] then Some((TextPK(cells[n]), rel.columns[n].name))
    else KeyFrom(rel, cells, n + 1)
  }

  function KeyOf(rel: RelationInfo, tuple: Tuple): Option<(string, string)> {
    if tuple.None? || |rel.pkCols| == 0 then Some(("", "")) else KeyFrom(rel, tuple.value, 0)
  }

  method ExtractPKFromTuple(tuple: Tuple, rel: RelationInfo) returns (key: Option<(string, string)>)
    ensures key == KeyOf(rel, tuple)
  {
    if tuple.None? || |rel.pkCols| == 0 {
      return Some(("", ""));
    }
    var cells := tuple.value;
    var i := 0;
    while i < |cells| && i < |rel.columns|
      invariant i <= Width(rel, cells)
      invariant KeyFrom(rel, cells, i) == KeyFrom(rel, cells, 0)
    {
      if rel.columns[i].name == rel.pkCols[0] {
        return Some((TextPK(cells[i]), rel.columns[i].name));
      }
      i := i + 1;
    }
    key := None;
  }

  // ----- What rows and keys are -----

  // None when the tuple has no cell for the key column.
  ghost predicate IsKeyOf(rel: RelationInfo, cells: seq<Cell>, key: Option<(string, string)>) {
    if |rel.pkCols| == 0 then key == Some(("", ""))
    else if key.None? then forall i :: 0 <= i < Width(rel, cells) ==> rel.columns[i].name != rel.pkCols[0]
    else exists i :: IsFirstKeyAt(rel, cells, i) && key.value == (TextPK(cells[i]), rel.pkCols[0])
  }

  ghost predicate IsFirstKeyAt(rel: RelationInfo, cells: seq<Cell>, i: int) {
    && 0 <= i < Width(rel, cells) && |rel.pkCols| > 0 && rel.columns[i].name == rel.pkCols[0]
    && forall j :: 0 <= j < i ==> rel.columns[j].name != rel.pkCols[0]
  }

  lemma {:induction false} KeyFromIsFirst(rel: RelationInfo, cells: seq<Cell>, n: nat)
    requires n <= Width(rel, cells) && |rel.pkCols| > 0
    requires forall i :: 0 <= i < n ==> rel.columns[i].name != rel.pkCols[0]
    ensures IsKeyOf(rel, cells, KeyFrom(rel, cells, n))
    decreases Width(rel, cells) - n
  {
    if n < Width(rel, cells) {
      if rel.columns[n].name == rel.pkCols[0] {
        assert IsFirstKeyAt(rel, cells, n);
      } else {
        KeyFromIsFirst(rel, cells, n + 1);
      }
    }
  }

  /** The key of an old row is the text of the first cell of the key column. */
  lemma KeyIsFirst(rel: RelationInfo, cells: seq<Cell>)
    ensures IsKeyOf(rel, cells, KeyOf(rel, Some(cells)))
  {
    if |rel.pkCols| > 0 {
      KeyFromIsFirst(rel, cells, 0);
    }
  }

  ghost predicate DistinctNames(columns: seq<ColumnDef>, n: nat)
    requires n <= |columns|
  {
    forall i, j :: 0 <= i < j < n ==> columns[i].name != columns[j].name
  }

  // The row's columns are exactly the used cells, each mapped by its column's type.
  ghost predicate Maps(mapper: Mapper, rel: RelationInfo, cells: seq<Cell>, skipToast: bool, n: nat, columns: Columns)
    requires n <= Width(rel, cells)
  {
    && (forall i :: 0 <= i < n && Used(cells[i], skipToast) ==>
          && rel.columns[i].name in columns
          && MapValue(mapper, rel.columns[i].oid, cells[i]) == Some(columns[rel.columns[i].name]))
    && (forall k :: k in columns ==> exists i :: 0 <= i < n && Used(cells[i], skipToast) && rel.columns[i].name == k)
  }

  lemma {:induction false} RowFailsExactly(mapper: Mapper, rel: RelationInfo, cells: seq<Cell>, skipToast: bool, n: nat)
    requires n <= Width(rel, cells)
    ensures RowUpTo(mapper, rel, cells, skipToast, n).None? <==>
              exists i ::
                0 <= i < n && Used(cells[i], skipToast) && MapValue(mapper, rel.columns[i].oid, cells[i]).None?
  {
    if n > 0 {
      RowFailsExactly(mapper, rel, cells, skipToast, n - 1);
    }
  }

  lemma MapsMore(mapper: Mapper, rel: RelationInfo, cells: seq<Cell>, skipToast: bool, n: nat, columns: Columns,
                 v: Value)
    requires n < Width(rel, cells) && DistinctNames(rel.columns, n + 1)
    requires Maps(mapper, rel, cells, skipToast, n, columns)
    requires Used(cells[n], skipToast) && MapValue(mapper, rel.columns[n].oid, cells[n]) == Some(v)
    ensures Maps(mapper, rel, cells, skipToast, n + 1, columns[rel.columns[n].name := v])
  {
  }

  lemma MapsSkip(mapper: Mapper, rel: RelationInfo, cells: seq<Cell>, skipToast: bool, n: nat, columns: Columns)
    requires n < Width(rel, cells) && Maps(mapper, rel, cells, skipToast, n, columns) && !Used(cells[n], skipToast)
    ensures Maps(mapper, rel, cells, skipToast, n + 1, columns)
  {
  }

  lemma RowColumns(mapper: Mapper, rel: RelationInfo, cells: seq<Cell>, skipToast: bool, n: nat)
    requires 0 < n <= Width(rel, cells) && RowUpTo(mapper, rel, cells, skipToast, n).Some?
    ensures RowUpTo(mapper, rel, cells, skipToast, n - 1).Some?
    ensures var before := RowUpTo(mapper, rel, cells, skipToast, n - 1).value.columns.value;
      var after := RowUpTo(mapper, rel, cells, skipToast, n).value.columns.value;
      if Used(cells[n - 1], skipToast) then
        var v := MapValue(mapper, rel.columns[n - 1].oid, cells[n - 1]);
        v.Some? && after == before[rel.columns[n - 1].name := v.value]
      else after == before
  {
  }

  lemma {:induction false} RowMaps(mapper: Mapper, rel: RelationInfo, cells: seq<Cell>, skipToast: bool, n: nat)
    requires n <= Width(rel, cells) && DistinctNames(rel.columns, n)
    requires RowUpTo(mapper, rel, cells, skipToast, n).Some?
    ensures Maps(mapper, rel, cells, skipToast, n, RowUpTo(mapper, rel, cells, skipToast, n).value.columns.value)
  {
    if n > 0 {
      RowColumns(mapper, rel, cells, skipToast, n);
      RowMaps(mapper, rel, cells, skipToast, n - 1);
      var columns := RowUpTo(mapper, rel, cells, skipToast, n - 1).value.columns.value;
      if Used(cells[n - 1], skipToast) {
        var v := MapValue(mapper, rel.columns[n - 1].oid, cells[n - 1]).value;
        MapsMore(mapper, rel, cells, skipToast, n - 1, columns, v);
      } else {
        MapsSkip(mapper, rel, cells, skipToast, n - 1, columns);
      }
    }
  }

  lemma {:induction false} RowTakesKey(mapper: Mapper, rel: RelationInfo, cells: seq<Cell>, skipToast: bool, n: nat,
                                       i: nat)
    requires i < n <= Width(rel, cells) && DistinctNames(rel.columns, n)
    requires RowUpTo(mapper, rel, cells, skipToast, n).Some?
    requires Used(cells[i], skipToast) && rel.columns[i].name == KeyName(rel)
    ensures var row := RowUpTo(mapper, rel, cells, skipToast, n).value;
      row.pk == TextPK(cells[i]) && row.pkCol == KeyName(rel)
  {
    if i < n - 1 {
      RowTakesKey(mapper, rel, cells, skipToast, n - 1, i);
    }
  }

  /** With distinct column names a row holds every used cell under its own name, fails
      exactly when one of them cannot be mapped, and takes its key from the key
      column's cell. */
  lemma RowIsExact(mapper: Mapper, rel: RelationInfo, cells: seq<Cell>, skipToast: bool)
    requires DistinctNames(rel.columns, Width(rel, cells))
    ensures var row, n := RowOf(mapper, rel, Some(cells), skipToast), Width(rel, cells);
      && (row.None? <==> exists i :: 0 <= i < n && Used(cells[i], skipToast)
                                     && MapValue(mapper, rel.columns[i].oid, cells[i]).None?)
      && (row.Some? ==> row.value.columns.Some? && Maps(mapper, rel, cells, skipToast, n, row.value.columns.value))
      && (forall i :: row.Some? && 0 <= i < n && Used(cells[i], skipToast) && rel.columns[i].name == KeyName(rel) ==>
            row.value.pk == TextPK(cells[i]) && row.value.pkCol == KeyName(rel))
  {
    var n := Width(rel, cells);
    RowFailsExactly(mapper, rel, cells, skipToast, n);
    if RowOf(mapper, rel, Some(cells), skipToast).Some? {
      RowMaps(mapper, rel, cells, skipToast, n);
      forall i | 0 <= i < n && Used(cells[i], skipToast) && rel.columns[i].name == KeyName(rel)
        ensures RowOf(mapper, rel, Some(cells), skipToast).value.pk == TextPK(cells[i])
        ensures RowOf(mapper, rel, Some(cells), skipToast).value.pkCol == KeyName(rel)
      {
        RowTakesKey(mapper, rel, cells, skipToast, n, i);
      }
    }
  }

  // ----- Changes -----

  function InsertOf(mapper: Mapper, rel: RelationInfo, tuple: Tuple): Option<Change> {
    var row := RowOf(mapper, rel, tuple, false);
    if row.None? then None
    else Some(Change(rel.schema, rel.table, OpInsert, row.value.pk, row.value.pkCol, row.value.columns, None))
  }

  // The old key stands in when the new row has none.
  function UpdateOf(mapper: Mapper, rel: RelationInfo, oldTuple: Tuple, newTuple: Tuple): Option<Change> {
    var row := RowOf(mapper, rel, newTuple, true);
    if row.None? then None
    else
      var fallback := row.value.pk == "" && oldTuple.Some? && KeyOf(rel, oldTuple).Some?;
      var (pk, pkCol) := if fallback then KeyOf(rel, oldTuple).value else (row.value.pk, row.value.pkCol);
      Some(Change(rel.schema, rel.table, OpUpdate, pk, pkCol, None, row.value.columns))
  }

  function DeleteOf(rel: RelationInfo, oldTuple: Tuple): Option<Change> {
    var key := if oldTuple.Some? then KeyOf(rel, oldTuple) else None;
    var (pk, pkCol) := if key.Some? then key.value else ("", "");
    Some(Change(rel.schema, rel.table, OpDelete, pk, pkCol, None, None))
  }

  predicate IsRowMessage(msg: Message) {
    msg.Insert? || msg.Update? || msg.Delete?
  }

  // The change a row message stands for; None is an error, and the change is skipped.
  function Decoded(mapper: Mapper, rel: Option<RelationInfo>, msg: Message): Option<Change>
    requires IsRowMessage(msg)
  {
    if rel.None? then None
    else
      match msg
      case Insert(_, tuple) => InsertOf(mapper, rel.value, tuple)
      case Update(_, oldTuple, newTuple) => UpdateOf(mapper, rel.value, oldTuple, newTuple)
      case Delete(_, oldTuple) => DeleteOf(rel.value, oldTuple)
  }

  // ----- What change a row message becomes -----

  // The value a cell stands for.
  ghost predicate StandsFor(mapper: Mapper, oid: nat, cell: Cell, v: Value) {
    if cell.kind == NullCell then v == Null else mapper(oid, cell.data) == Some(v)
  }

  // Cell i is there, and its column; an update leaves out what it did not change.
  ghost predicate IsThere(columns: seq<ColumnDef>, cells: seq<Cell>, isUpdate: bool, i: int) {
    0 <= i < |cells| && i < |columns| && !(isUpdate && cells[i].kind == ToastCell)
  }

  // Every cell there is under its column's name, and nothing else.
  ghost predicate HoldsCells(mapper: Mapper, columns: seq<ColumnDef>, cells: seq<Cell>, isUpdate: bool, row: Columns) {
    && (forall i :: IsThere(columns, cells, isUpdate, i) ==>
          columns[i].name in row && StandsFor(mapper, columns[i].oid, cells[i], row[columns[i].name]))
    && (forall k :: k in row ==> exists i :: IsThere(columns, cells, isUpdate, i) && columns[i].name == k)
  }

  // The key in a new row: the text of the key column's cell, or empty without one.
  ghost predicate HoldsKey(columns: seq<ColumnDef>, key: string, tuple: Tuple, isUpdate: bool, pk: string,
                           pkCol: string)
  {
    if tuple.Some? && exists i :: IsThere(columns, tuple.value, isUpdate, i) && columns[i].name == key then
      exists i ::
        && IsThere(columns, tuple.value, isUpdate, i) && columns[i].name == key && pkCol == key
        && pk == if tuple.value[i].kind == DataCell then tuple.value[i].data else ""
    else pk == "" && pkCol == ""
  }

  // The first cell of the key column in an old row.
  ghost predicate OldKeyAt(columns: seq<ColumnDef>, key: string, tuple: Tuple, i: int) {
    && tuple.Some? && 0 <= i < |tuple.value| && i < |columns| && columns[i].name == key
    && forall j :: 0 <= j < i ==> columns[j].name != key
  }

  ghost predicate HoldsOldKey(columns: seq<ColumnDef>, key: string, tuple: Tuple, pk: string, pkCol: string) {
    exists i ::
      && OldKeyAt(columns, key, tuple, i) && pkCol == key
      && pk == if tuple.value[i].kind == DataCell then tuple.value[i].data else ""
  }

  ghost predicate HasOldKey(columns: seq<ColumnDef>, key: string, tuple: Tuple) {
    exists i :: OldKeyAt(columns, key, tuple, i)
  }

  ghost predicate IsInsert(mapper: Mapper, schema: string, table: string, columns: seq<ColumnDef>, key: string,
                           tuple: Tuple, c: Change)
  {
    && (c.schema, c.table, c.op) == (schema, table, OpInsert)
    && c.changed.None? && (c.data.Some? <==> tuple.Some?)
    && (tuple.Some? ==> HoldsCells(mapper, columns, tuple.value, false, c.data.value))
    && HoldsKey(columns, key, tuple, false, c.pk, c.pkCol)
  }

  // The old key stands in where the new row shows none.
  ghost predicate IsUpdate(mapper: Mapper, schema: string, table: string, columns: seq<ColumnDef>, key: string,
                           oldTuple: Tuple, newTuple: Tuple, c: Change)
  {
    && (c.schema, c.table, c.op) == (schema, table, OpUpdate)
    && c.data.None? && (c.changed.Some? <==> newTuple.Some?)
    && (newTuple.Some? ==> HoldsCells(mapper, columns, newTuple.value, true, c.changed.value))
    && exists pk, pkCol ::
         && HoldsKey(columns, key, newTuple, true, pk, pkCol)
         && (if pk == "" && HasOldKey(columns, key, oldTuple) then HoldsOldKey(columns, key, oldTuple, c.pk, c.pkCol)
             else (c.pk, c.pkCol) == (pk, pkCol))
  }

  ghost predicate IsDelete(schema: string, table: string, columns: seq<ColumnDef>, key: string, oldTuple: Tuple,
                           c: Change)
  {
    && (c.schema, c.table, c.op, c.data, c.changed) == (schema, table, OpDelete, None, None)
    && (if HasOldKey(columns, key, oldTuple) then HoldsOldKey(columns, key, oldTuple, c.pk, c.pkCol)
        else c.pk == "" && c.pkCol == "")
  }

  ghost predicate IsChangeOf(mapper: Mapper, schema: string, table: string, columns: seq<ColumnDef>, key: string,
                             msg: Message, c: Change)
    requires IsRowMessage(msg)
  {
    match msg
    case Insert(_, tuple) => IsInsert(mapper, schema, table, columns, key, tuple, c)
    case Update(_, oldTuple, newTuple) => IsUpdate(mapper, schema, table, columns, key, oldTuple, newTuple, c)
    case Delete(_, oldTuple) => IsDelete(schema, table, columns, key, oldTuple, c)
  }

  // A known relation has one key column, and the server gives columns distinct names.
  ghost predicate Regular(rel: RelationInfo) {
    |rel.pkCols| == 1 && DistinctNames(rel.columns, |rel.columns|)
  }

  lemma RowHoldsCells(mapper: Mapper, rel: RelationInfo, cells: seq<Cell>, isUpdate: bool)
    requires Regular(rel) && RowOf(mapper, rel, Some(cells), isUpdate).Some?
    ensures var row := RowOf(mapper, rel, Some(cells), isUpdate).value;
      row.columns.Some? && HoldsCells(mapper, rel.columns, cells, isUpdate, row.columns.value)
  {
    RowIsExact(mapper, rel, cells, isUpdate);
    var row, n := RowOf(mapper, rel, Some(cells), isUpdate).value.columns.value, Width(rel, cells);
    forall k | k in row
      ensures exists i :: IsThere(rel.columns, cells, isUpdate, i) && rel.columns[i].name == k
    {
      var i :| 0 <= i < n && Used(cells[i], isUpdate) && rel.columns[i].name == k;
      assert IsThere(rel.columns, cells, isUpdate, i);
    }
  }

  lemma {:induction false} NoKeyNoText(mapper: Mapper, rel: RelationInfo, cells: seq<Cell>, isUpdate: bool, n: nat)
    requires n <= Width(rel, cells) && RowUpTo(mapper, rel, cells, isUpdate, n).Some?
    requires forall i :: 0 <= i < n && IsThere(rel.columns, cells, isUpdate, i) ==> rel.columns[i].name != KeyName(rel)
    ensures var row := RowUpTo(mapper, rel, cells, isUpdate, n).value; row.pk == "" && row.pkCol == ""
  {
    if n > 0 {
      assert IsThere(rel.columns, cells, isUpdate, n - 1) <==> Used(cells[n - 1], isUpdate);
      NoKeyNoText(mapper, rel, cells, isUpdate, n - 1);
    }
  }

  lemma RowHoldsKey(mapper: Mapper, rel: RelationInfo, tuple: Tuple, isUpdate: bool)
    requires Regular(rel) && RowOf(mapper, rel, tuple, isUpdate).Some?
    ensures var row := RowOf(mapper, rel, tuple, isUpdate).value;
      HoldsKey(rel.columns, rel.pkCols[0], tuple, isUpdate, row.pk, row.pkCol)
  {
    if tuple.Some? {
      RowIsExact(mapper, rel, tuple.value, isUpdate);
      if i :| IsThere(rel.columns, tuple.value, isUpdate, i) && rel.columns[i].name == rel.pkCols[0] {
        assert Used(tuple.value[i], isUpdate);
      } else {
        NoKeyNoText(mapper, rel, tuple.value, isUpdate, Width(rel, tuple.value));
      }
    }
  }

  lemma OldKeyIsHeld(rel: RelationInfo, tuple: Tuple)
    requires Regular(rel) && tuple.Some?
    ensures KeyOf(rel, tuple).Some? <==> HasOldKey(rel.columns, rel.pkCols[0], tuple)
    ensures KeyOf(rel, tuple).Some? ==>
              HoldsOldKey(rel.columns, rel.pkCols[0], tuple, KeyOf(rel, tuple).value.0, KeyOf(rel, tuple).value.1)
  {
    KeyIsFirst(rel, tuple.value);
    if KeyOf(rel, tuple).Some? {
      var i :| IsFirstKeyAt(rel, tuple.value, i)
               && KeyOf(rel, tuple).value == (TextPK(tuple.value[i]), rel.pkCols[0]);
      assert OldKeyAt(rel.columns, rel.pkCols[0], tuple, i);
    }
  }

  lemma InsertIsExact(mapper: Mapper, rel: RelationInfo, tuple: Tuple)
    requires Regular(rel) && InsertOf(mapper, rel, tuple).Some?
    ensures IsInsert(mapper, rel.schema, rel.table, rel.columns, rel.pkCols[0], tuple,
                     InsertOf(mapper, rel, tuple).value)
  {
    RowHoldsKey(mapper, rel, tuple, false);
    if tuple.Some? {
      RowHoldsCells(mapper, rel, tuple.value, false);
    }
  }

  lemma UpdateIsExact(mapper: Mapper, rel: RelationInfo, oldTuple: Tuple, newTuple: Tuple)
    requires Regular(rel) && UpdateOf(mapper, rel, oldTuple, newTuple).Some?
    ensures IsUpdate(mapper, rel.schema, rel.table, rel.columns, rel.pkCols[0], oldTuple, newTuple,
                     UpdateOf(mapper, rel, oldTuple, newTuple).value)
  {
    var row := RowOf(mapper, rel, newTuple, true).value;
    RowHoldsKey(mapper, rel, newTuple, true);
    if newTuple.Some? {
      RowHoldsCells(mapper, rel, newTuple.value, true);
    }
    if oldTuple.Some? {
      OldKeyIsHeld(rel, oldTuple);
    }
    assert HoldsKey(rel.columns, rel.pkCols[0], newTuple, true, row.pk, row.pkCol);
  }

  lemma DeleteIsExact(rel: RelationInfo, oldTuple: Tuple)
    requires Regular(rel)
    ensures DeleteOf(rel, oldTuple).Some?
    ensures IsDelete(rel.schema, rel.table, rel.columns, rel.pkCols[0], oldTuple, DeleteOf(rel, oldTuple).value)
  {
    if oldTuple.Some? {
      OldKeyIsHeld(rel, oldTuple);
    }
  }

  lemma DecodedIsChange(mapper: Mapper, rel: RelationInfo, msg: Message)
    requires IsRowMessage(msg) && Regular(rel) && Decoded(mapper, Some(rel), msg).Some?
    ensures IsChangeOf(mapper, rel.schema, rel.table, rel.columns, rel.pkCols[0], msg,
                       Decoded(mapper, Some(rel), msg).value)
  {
    match msg
    case Insert(_, tuple) => InsertIsExact(mapper, rel, tuple);
    case Update(_, oldTuple, newTuple) => UpdateIsExact(mapper, rel, oldTuple, newTuple);
    case Delete(_, oldTuple) => DeleteIsExact(rel, oldTuple);
  }

  ghost predicate OnlyKeyAt(columns: seq<ColumnDef>, k: int) {
    0 <= k < |columns| && columns[k].key && forall i :: 0 <= i < |columns| && i != k ==> !columns[i].key
  }

  lemma {:induction false} KeysAre(columns: seq<ColumnDef>)
    ensures |KeyColumns(columns)| == 0 <==> forall i :: 0 <= i < |columns| ==> !columns[i].key
    ensures |KeyColumns(columns)| == 1 <==> exists k :: OnlyKeyAt(columns, k)
    ensures forall k :: OnlyKeyAt(columns, k) ==> KeyColumns(columns) == [columns[k]]
  {
    if columns != [] {
      var n := |columns| - 1;
      var init := columns[..n];
      KeysAre(init);
      forall k | 0 <= k < n
        ensures OnlyKeyAt(columns, k) <==> OnlyKeyAt(init, k) && !columns[n].key
      {
        if OnlyKeyAt(init, k) && !columns[n].key {
          assert forall i :: 0 <= i < n ==> columns[i] == init[i];
        }
        if OnlyKeyAt(columns, k) {
          assert forall i :: 0 <= i < n ==> columns[i] == init[i];
        }
      }
      assert OnlyKeyAt(columns, n) <==> columns[n].key && forall i :: 0 <= i < n ==> !init[i].key;
      if |KeyColumns(columns)| == 1 {
        if columns[n].key {
          assert OnlyKeyAt(columns, n);
        } else {
          var k :| OnlyKeyAt(init, k);
          assert OnlyKeyAt(columns, k);
        }
      }
    }
  }

  /** A Relation is accepted exactly with one key column, of type int2, int4, int8, uuid
      or text; what is kept of it are its names, its columns and that key. */
  lemma AcceptedIsExact(msg: RelationMessage)
    ensures Accepted(msg) <==>
              exists k :: OnlyKeyAt(msg.columns, k) && msg.columns[k].oid in {21, 23, 20, 2950, 25}
    ensures forall k :: Accepted(msg) && OnlyKeyAt(msg.columns, k) ==>
              InfoOf(msg) == RelationInfo(msg.oid, msg.schema, msg.table, [msg.columns[k].name], msg.columns[k].oid,
                                          msg.columns)
  {
    KeysAre(msg.columns);
  }

  /** A row message under an accepted Relation becomes the change of its own kind: an
      insert or update shows the cells there, each mapped by its column's type, an update
      only as changed columns; the key is the key column's text, the old row's where the
      new one shows none, or empty. It is skipped only for a cell that cannot be mapped. */
  lemma ChangeIsExact(mapper: Mapper, rel: RelationMessage, k: nat, msg: Message)
    requires Accepted(rel) && OnlyKeyAt(rel.columns, k) && DistinctNames(rel.columns, |rel.columns|)
    requires IsRowMessage(msg)
    ensures var c := Decoded(mapper, Some(InfoOf(rel)), msg);
      && (c.Some? ==> IsChangeOf(mapper, rel.schema, rel.table, rel.columns, rel.columns[k].name, msg, c.value))
      && (c.None? <==> && !msg.Delete?
                       && var cells := if msg.Insert? then msg.tuple else msg.newTuple;
                          && cells.Some?
                          && exists i :: IsThere(rel.columns, cells.value, msg.Update?, i)
                                         && cells.value[i].kind != NullCell
                                         && mapper(rel.columns[i].oid, cells.value[i].data).None?)
  {
    AcceptedIsExact(rel);
    var info := InfoOf(rel);
    if Decoded(mapper, Some(info), msg).Some? {
      DecodedIsChange(mapper, info, msg);
    }
    if !msg.Delete? {
      DecodedFails(mapper, info, if msg.Insert? then msg.tuple else msg.newTuple, msg.Update?);
    }
  }

  lemma DecodedFails(mapper: Mapper, rel: RelationInfo, tuple: Tuple, isUpdate: bool)
    ensures RowOf(mapper, rel, tuple, isUpdate).None? <==>
              tuple.Some? && exists i :: IsThere(rel.columns, tuple.value, isUpdate, i)
                                         && tuple.value[i].kind != NullCell
                                         && mapper(rel.columns[i].oid, tuple.value[i].data).None?
  {
    if tuple.Some? {
      var n := Width(rel, tuple.value);
      RowFailsExactly(mapper, rel, tuple.value, isUpdate, n);
      forall i
        ensures IsThere(rel.columns, tuple.value, isUpdate, i) <==> 0 <= i < n && Used(tuple.value[i], isUpdate)
      {
      }
    }
  }

  // ----- The builder -----

  datatype InFlight = InFlight(xid: nat, finalLSN: LSN, changes: seq<Change>)

  function Extended(inFlight: Option<InFlight>, change: Option<Change>): Option<InFlight> {
    if inFlight.Some? && change.Some? then
      Some(inFlight.value.(changes := inFlight.value.changes + [change.value]))
    else inFlight
  }

  class TxBuilder {
    var inFlight: Option<InFlight>
    const mapper: Mapper

    constructor (mapper: Mapper)
      ensures this.mapper == mapper && inFlight == None
    {
      this.mapper, inFlight := mapper, None;
    }

    method Reset()
      modifies this
      ensures inFlight == None
    {
      inFlight := None;
    }

    // The last change of the open transaction.
    ghost predicate Appended(rel: RelationInfo, msg: Message)
      requires IsRowMessage(msg)
      reads this
    {
      && inFlight.Some? && inFlight.value.changes != []
      && var changes := inFlight.value.changes;
         IsChangeOf(mapper, rel.schema, rel.table, rel.columns, KeyName(rel), msg, changes[|changes| - 1])
    }

    predicate InTx()
      reads this
    {
      inFlight.Some?
    }

    method HandleBegin(xid: nat, finalLSN: LSN)
      modifies this
      ensures inFlight == Some(InFlight(xid, finalLSN, []))
    {
      inFlight := Some(InFlight(xid, finalLSN, []));
    }

    method Append(change: Change)
      modifies this
      ensures inFlight == Extended(old(inFlight), Some(change))
    {
      if inFlight.Some? {
        inFlight := Some(inFlight.value.(changes := inFlight.value.changes + [change]));
      }
    }

    // append(t.inFlight.Changes, ch), for the change the message stands for.
    method AppendDecoded(ghost rel: RelationInfo, ghost msg: Message, change: Change)
      requires inFlight.Some? && IsRowMessage(msg) && Decoded(mapper, Some(rel), msg) == Some(change)
      modifies this
      ensures inFlight == Extended(old(inFlight), Some(change))
      ensures Regular(rel) ==> Appended(rel, msg)
    {
      if Regular(rel) {
        DecodedIsChange(mapper, rel, msg);
      }
      Append(change);
    }

    method HandleInsert(oid: nat, tuple: Tuple, cache: RelationCache) returns (ok: bool)
      modifies this
      ensures inFlight == Extended(old(inFlight), Decoded(mapper, Lookup(cache.m, oid), Insert(oid, tuple)))
      ensures ok <==> old(inFlight).None? || Decoded(mapper, Lookup(cache.m, oid), Insert(oid, tuple)).Some?
      ensures ok && old(inFlight).Some? ==>
                oid in cache.m && (Regular(cache.m[oid]) ==> Appended(cache.m[oid], Insert(oid, tuple)))
    {
      if inFlight.None? {
        return true;
      }
      var rel := cache.Get(oid);
      if rel.None? {
        return false;
      }
      var row := BuildDataMap(tuple, rel.value, mapper);
      if row.None? {
        return false;
      }
      var ch := Change(rel.value.schema, rel.value.table, OpInsert, row.value.pk, row.value.pkCol,
                       row.value.columns, None);
      AppendDecoded(rel.value, Insert(oid, tuple), ch);
      ok := true;
    }

    method HandleUpdate(oid: nat, oldTuple: Tuple, newTuple: Tuple, cache: RelationCache) returns (ok: bool)
      modifies this
      ensures inFlight
              == Extended(old(inFlight), Decoded(mapper, Lookup(cache.m, oid), Update(oid, oldTuple, newTuple)))
      ensures ok <==>
                old(inFlight).None? || Decoded(mapper, Lookup(cache.m, oid), Update(oid, oldTuple, newTuple)).Some?
      ensures ok && old(inFlight).Some? ==>
                oid in cache.m && (Regular(cache.m[oid]) ==> Appended(cache.m[oid], Update(oid, oldTuple, newTuple)))
    {
      if inFlight.None? {
        return true;
      }
      var rel := cache.Get(oid);
      if rel.None? {
        return false;
      }
      var row := BuildChangedMap(newTuple, rel.value, mapper);
      if row.None? {
        return false;
      }
      var ch := Change(rel.value.schema, rel.value.table, OpUpdate, row.value.pk, row.value.pkCol,
                       None, row.value.columns);
      if ch.pk == "" && oldTuple.Some? {
        var key := ExtractPKFromTuple(oldTuple, rel.value);
        if key.Some? {
          ch := ch.(pk := key.value.0, pkCol := key.value.1);
        }
      }
      AppendDecoded(rel.value, Update(oid, oldTuple, newTuple), ch);
      ok := true;
    }

    method HandleDelete(oid: nat, oldTuple: Tuple, cache: RelationCache) returns (ok: bool)
      modifies this
      ensures inFlight == Extended(old(inFlight), Decoded(mapper, Lookup(cache.m, oid), Delete(oid, oldTuple)))
      ensures ok <==> old(inFlight).None? || Lookup(cache.m, oid).Some?
      ensures ok && old(inFlight).Some? ==>
                oid in cache.m && (Regular(cache.m[oid]) ==> Appended(cache.m[oid], Delete(oid, oldTuple)))
    {
      if inFlight.None? {
        return true;
      }
      var rel := cache.Get(oid);
      if rel.None? {
        return false;
      }
      var ch := Change(rel.value.schema, rel.value.table, OpDelete, "", "", None, None);
      if oldTuple.Some? {
        var key := ExtractPKFromTuple(oldTuple, rel.value);
        if key.Some? {
          ch := ch.(pk := key.value.0, pkCol := key.value.1);
        }
      }
      AppendDecoded(rel.value, Delete(oid, oldTuple), ch);
      ok := true;
    }

    method HandleCommit(lsn: LSN, time: int) returns (tx: Option<Tx>)
      modifies this
      ensures inFlight == None
      ensures tx == Committed(old(inFlight), lsn, time)
    {
      if inFlight.None? {
        return None;
      }
      tx := Some(Tx(inFlight.value.xid, lsn, time, inFlight.value.changes));
      inFlight := None;
    }
  }

  function Committed(inFlight: Option<InFlight>, lsn: LSN, time: int): Option<Tx> {
    if inFlight.None? then None else Some(Tx(inFlight.value.xid, lsn, time, inFlight.value.changes))
  }

  // ----- One message, on values -----

  datatype Builder = Builder(inFlight: Option<InFlight>, relations: Relations)

  const Empty := Builder(None, map[])

  function After(mapper: Mapper, b: Builder, msg: Message): Builder {
    match msg
    case Begin(xid, finalLSN) => b.(inFlight := Some(InFlight(xid, finalLSN, [])))
    case RelationMsg(rel) => if Accepted(rel) then b.(relations := b.relations[rel.oid := InfoOf(rel)]) else b
    case Commit(_, _) => b.(inFlight := None)
    case Other => b
    case _ => b.(inFlight := Extended(b.inFlight, Decoded(mapper, Lookup(b.relations, msg.oid), msg)))
  }

  function Emits(b: Builder, msg: Message): Option<Tx> {
    if msg.Commit? then Committed(b.inFlight, msg.lsn, msg.time) else None
  }

  function BuilderAfter(mapper: Mapper, msgs: seq<Message>): Builder {
    if msgs == [] then Empty
    else After(mapper, BuilderAfter(mapper, msgs[..|msgs| - 1]), msgs[|msgs| - 1])
  }

  function EmittedBy(mapper: Mapper, msgs: seq<Message>): seq<Tx> {
    if msgs == [] then []
    else
      var init := msgs[..|msgs| - 1];
      var tx := Emits(BuilderAfter(mapper, init), msgs[|msgs| - 1]);
      EmittedBy(mapper, init) + if tx.Some? then [tx.value] else []
  }

  // ----- What a message stream means, without a builder -----

  // The latest Relation message for the OID that meets the key constraint.
  function LastAccepted(msgs: seq<Message>, oid: nat): Option<RelationInfo> {
    if msgs == [] then None
    else
      var last := msgs[|msgs| - 1];
      if last.RelationMsg? && last.rel.oid == oid && Accepted(last.rel) then Some(InfoOf(last.rel))
      else LastAccepted(msgs[..|msgs| - 1], oid)
  }

  // The Begin at b has no later Begin or Commit.
  ghost predicate OpenAt(msgs: seq<Message>, b: int) {
    && 0 <= b < |msgs| && msgs[b].Begin?
    && forall i :: b < i < |msgs| ==> !msgs[i].Begin? && !msgs[i].Commit?
  }

  // The decodable changes after position b, each under the relation known by then.
  function ChangesSince(mapper: Mapper, msgs: seq<Message>, b: int): seq<Change> {
    if msgs == [] || |msgs| <= b + 1 then []
    else
      var init, last := msgs[..|msgs| - 1], msgs[|msgs| - 1];
      ChangesSince(mapper, init, b) +
      if IsRowMessage(last) && Decoded(mapper, LastAccepted(init, last.oid), last).Some? then
        [Decoded(mapper, LastAccepted(init, last.oid), last).value]
      else []
  }

  // Positions of the Commits that find an open Begin, with that Begin.
  ghost predicate Closes(msgs: seq<Message>, b: int, c: int) {
    0 <= c < |msgs| && msgs[c].Commit? && OpenAt(msgs[..c], b)
  }

  ghost function TxOf(mapper: Mapper, msgs: seq<Message>, b: int, c: int): Tx
    requires Closes(msgs, b, c)
  {
    Tx(msgs[b].xid, msgs[c].lsn, msgs[c].time, ChangesSince(mapper, msgs[..c], b))
  }

  // ----- The builder computes it -----

  ghost predicate Tracks(mapper: Mapper, msgs: seq<Message>, b: Builder) {
    && (forall oid: nat :: Lookup(b.relations, oid) == LastAccepted(msgs, oid))
    && (b.inFlight.None? ==> forall i :: !OpenAt(msgs, i))
    && (b.inFlight.Some? ==> exists i :: OpenAt(msgs, i) && b.inFlight.value.xid == msgs[i].xid
                                         && b.inFlight.value.finalLSN == msgs[i].finalLSN
                                         && b.inFlight.value.changes == ChangesSince(mapper, msgs, i))
  }

  lemma OpenAppend(msgs: seq<Message>, m: Message, b: int)
    ensures OpenAt(msgs + [m], b) <==>
              if m.Begin? then b == |msgs| else !m.Commit? && OpenAt(msgs, b)
  {
    var all := msgs + [m];
    if OpenAt(msgs, b) && !m.Begin? && !m.Commit? {
      assert all[b] == msgs[b];
      assert forall i :: b < i < |all| ==> all[i] == (if i < |msgs| then msgs[i] else m);
    }
    if OpenAt(all, b) && b < |msgs| {
      assert all[|msgs|] == m && all[b] == msgs[b];
      assert forall i :: b < i < |msgs| ==> all[i] == msgs[i];
    }
  }

  lemma SinceAppend(mapper: Mapper, msgs: seq<Message>, m: Message, b: int)
    requires b < |msgs|
    ensures ChangesSince(mapper, msgs + [m], b) == ChangesSince(mapper, msgs, b) +
              if IsRowMessage(m) && Decoded(mapper, LastAccepted(msgs, m.oid), m).Some? then
                [Decoded(mapper, LastAccepted(msgs, m.oid), m).value]
              else []
  {
    assert (msgs + [m])[..|msgs|] == msgs;
  }

  lemma AcceptedAppend(msgs: seq<Message>, m: Message, oid: nat)
    ensures LastAccepted(msgs + [m], oid) ==
              if m.RelationMsg? && m.rel.oid == oid && Accepted(m.rel) then Some(InfoOf(m.rel))
              else LastAccepted(msgs, oid)
  {
    assert (msgs + [m])[..|msgs|] == msgs;
  }

  lemma TracksRelations(mapper: Mapper, msgs: seq<Message>, b: Builder, m: Message)
    requires forall oid: nat :: Lookup(b.relations, oid) == LastAccepted(msgs, oid)
    ensures forall oid: nat :: Lookup(After(mapper, b, m).relations, oid) == LastAccepted(msgs + [m], oid)
  {
    forall oid: nat
      ensures Lookup(After(mapper, b, m).relations, oid) == LastAccepted(msgs + [m], oid)
    {
      AcceptedAppend(msgs, m, oid);
    }
  }

  lemma TracksStep(mapper: Mapper, msgs: seq<Message>, b: Builder, m: Message)
    requires Tracks(mapper, msgs, b)
    ensures Tracks(mapper, msgs + [m], After(mapper, b, m))
  {
    var all, b' := msgs + [m], After(mapper, b, m);
    TracksRelations(mapper, msgs, b, m);
    forall i
      ensures OpenAt(all, i) <==> if m.Begin? then i == |msgs| else !m.Commit? && OpenAt(msgs, i)
    {
      OpenAppend(msgs, m, i);
    }
    if m.Begin? {
      assert OpenAt(all, |msgs|) && ChangesSince(mapper, all, |msgs|) == [];
    } else if !m.Commit? && b.inFlight.Some? {
      var i :| OpenAt(msgs, i) && b.inFlight.value.xid == msgs[i].xid
               && b.inFlight.value.finalLSN == msgs[i].finalLSN
               && b.inFlight.value.changes == ChangesSince(mapper, msgs, i);
      SinceAppend(mapper, msgs, m, i);
      assert all[i] == msgs[i] && OpenAt(all, i);
    }
  }

  lemma {:induction false} TracksAll(mapper: Mapper, msgs: seq<Message>)
    ensures Tracks(mapper, msgs, BuilderAfter(mapper, msgs))
  {
    if msgs != [] {
      var n := |msgs| - 1;
      TracksAll(mapper, msgs[..n]);
      assert msgs[..n] + [msgs[n]] == msgs;
      TracksStep(mapper, msgs[..n], BuilderAfter(mapper, msgs[..n]), msgs[n]);
    }
  }

  lemma OnlyOneOpen(msgs: seq<Message>, a: int, b: int)
    requires OpenAt(msgs, a) && OpenAt(msgs, b)
    ensures a == b
  {
  }

  ghost predicate Sorted(cs: seq<int>) {
    forall j, k :: 0 <= j < k < |cs| ==> cs[j] < cs[k]
  }

  // cs and bs are the closing Commits in order and their Begins.
  ghost predicate Pairs(mapper: Mapper, msgs: seq<Message>, txs: seq<Tx>, bs: seq<int>, cs: seq<int>) {
    && |bs| == |cs| == |txs|
    && Sorted(cs)
    && (forall k :: 0 <= k < |cs| ==> Closes(msgs, bs[k], cs[k]) && txs[k] == TxOf(mapper, msgs, bs[k], cs[k]))
    && (forall b, c :: Closes(msgs, b, c) ==> c in cs)
  }

  // The transactions of a prefix stay what they are.
  lemma PairsKept(mapper: Mapper, msgs: seq<Message>, txs: seq<Tx>, bs: seq<int>, cs: seq<int>)
    requires msgs != [] && Pairs(mapper, msgs[..|msgs| - 1], txs, bs, cs)
    ensures forall k :: 0 <= k < |cs| ==>
              Closes(msgs, bs[k], cs[k]) && txs[k] == TxOf(mapper, msgs, bs[k], cs[k]) && cs[k] < |msgs| - 1
    ensures forall b, c :: Closes(msgs, b, c) && c < |msgs| - 1 ==> c in cs
  {
    var init := msgs[..|msgs| - 1];
    forall b, c | 0 <= c < |init|
      ensures Closes(init, b, c) <==> Closes(msgs, b, c)
      ensures Closes(init, b, c) ==> TxOf(mapper, init, b, c) == TxOf(mapper, msgs, b, c)
    {
      assert init[..c] == msgs[..c];
    }
  }

  lemma PairsQuiet(mapper: Mapper, msgs: seq<Message>, txs: seq<Tx>, bs: seq<int>, cs: seq<int>, n: nat)
    requires |msgs| == n + 1 && Pairs(mapper, msgs[..n], txs, bs, cs)
    requires forall b :: !Closes(msgs, b, n)
    ensures Pairs(mapper, msgs, txs, bs, cs)
  {
    PairsKept(mapper, msgs, txs, bs, cs);
  }

  lemma PairsCommit(mapper: Mapper, msgs: seq<Message>, txs: seq<Tx>, bs: seq<int>, cs: seq<int>, b: int)
    requires msgs != [] && Pairs(mapper, msgs[..|msgs| - 1], txs, bs, cs)
    requires Closes(msgs, b, |msgs| - 1)
    ensures Pairs(mapper, msgs, txs + [TxOf(mapper, msgs, b, |msgs| - 1)], bs + [b], cs + [|msgs| - 1])
  {
    var n := |msgs| - 1;
    PairsKept(mapper, msgs, txs, bs, cs);
    forall b1, c1 | Closes(msgs, b1, c1)
      ensures c1 in cs + [n]
    {
      assert c1 == n || c1 in cs;
      assert (cs + [n])[|cs|] == n;
      assert forall c :: c in cs ==> c in cs + [n];
    }
  }

  /** Assembly: whatever the message stream, one transaction is emitted for each
      Commit with an open Begin, in order, and no other; it carries that Begin's id,
      the Commit's position and time, and the decodable changes since the Begin, each
      under the last accepted Relation for its OID. */
  lemma {:induction false} AssemblyIsExact(mapper: Mapper, msgs: seq<Message>) returns (bs: seq<int>, cs: seq<int>)
    ensures Pairs(mapper, msgs, EmittedBy(mapper, msgs), bs, cs)
  {
    if msgs == [] {
      bs, cs := [], [];
    } else {
      var n := |msgs| - 1;
      bs, cs := AssemblyIsExact(mapper, msgs[..n]);
      TracksAll(mapper, msgs[..n]);
      var open := LastEmission(mapper, msgs);
      if open.Some? {
        PairsCommit(mapper, msgs, EmittedBy(mapper, msgs[..n]), bs, cs, open.value);
        bs, cs := bs + [open.value], cs + [n];
      } else {
        PairsQuiet(mapper, msgs, EmittedBy(mapper, msgs[..n]), bs, cs, n);
        assert EmittedBy(mapper, msgs[..n]) + [] == EmittedBy(mapper, msgs[..n]);
      }
    }
  }

  // What the last message emits: the transaction of the Begin it closes, if any.
  lemma LastEmission(mapper: Mapper, msgs: seq<Message>) returns (open: Option<int>)
    requires msgs != [] && Tracks(mapper, msgs[..|msgs| - 1], BuilderAfter(mapper, msgs[..|msgs| - 1]))
    ensures var n := |msgs| - 1; var tx := Emits(BuilderAfter(mapper, msgs[..n]), msgs[n]);
      && (open.Some? ==> Closes(msgs, open.value, n) && tx == Some(TxOf(mapper, msgs, open.value, n)))
      && (open.None? ==> tx == None && forall b :: !Closes(msgs, b, n))
  {
    var n := |msgs| - 1;
    var init, builder := msgs[..n], BuilderAfter(mapper, msgs[..n]);
    if msgs[n].Commit? && builder.inFlight.Some? {
      var b :| OpenAt(init, b) && builder.inFlight.value.xid == init[b].xid
               && builder.inFlight.value.changes == ChangesSince(mapper, init, b);
      open := Some(b);
    } else {
      open := None;
    }
  }

  // ----- What crosses a transaction boundary -----

  ghost predicate Plain(msgs: seq<Message>) {
    forall i :: 0 <= i < |msgs| ==> !msgs[i].Begin? && !msgs[i].Commit?
  }

  ghost predicate SameRelations(p: seq<Message>, q: seq<Message>) {
    forall oid: nat :: LastAccepted(p, oid) == LastAccepted(q, oid)
  }

  lemma {:induction false} AcceptedAfter(p: seq<Message>, q: seq<Message>, more: seq<Message>)
    requires SameRelations(p, q)
    ensures SameRelations(p + more, q + more)
  {
    if more == [] {
      assert p + more == p && q + more == q;
    } else {
      var n := |more| - 1;
      AcceptedAfter(p, q, more[..n]);
      assert p + more == p + more[..n] + [more[n]] && q + more == q + more[..n] + [more[n]];
      forall oid: nat
        ensures LastAccepted(p + more, oid) == LastAccepted(q + more, oid)
      {
        AcceptedAppend(p + more[..n], more[n], oid);
        AcceptedAppend(q + more[..n], more[n], oid);
      }
    }
  }

  lemma {:induction false} SinceAfter(mapper: Mapper, p: seq<Message>, q: seq<Message>, body: seq<Message>)
    requires p != [] && q != [] && SameRelations(p, q)
    ensures ChangesSince(mapper, p + body, |p| - 1) == ChangesSince(mapper, q + body, |q| - 1)
  {
    if body == [] {
      assert p + body == p && q + body == q;
    } else {
      var n := |body| - 1;
      SinceAfter(mapper, p, q, body[..n]);
      AcceptedAfter(p, q, body[..n]);
      assert p + body == p + body[..n] + [body[n]] && q + body == q + body[..n] + [body[n]];
      SinceAppend(mapper, p + body[..n], body[n], |p| - 1);
      SinceAppend(mapper, q + body[..n], body[n], |q| - 1);
    }
  }

  lemma {:induction false} StaysOpen(p: seq<Message>, body: seq<Message>)
    requires p != [] && p[|p| - 1].Begin? && Plain(body)
    ensures OpenAt(p + body, |p| - 1)
  {
  }

  /** Nothing leaks: of what came before its Begin, a transaction depends only on the
      relations known then. Changes of an unfinished transaction before it, and stray
      changes outside any, never show up in it. */
  lemma NothingLeaks(mapper: Mapper, p: seq<Message>, q: seq<Message>, begin: Message, body: seq<Message>,
                     commit: Message)
    requires SameRelations(p, q) && begin.Begin? && Plain(body) && commit.Commit?
    ensures Emits(BuilderAfter(mapper, p + [begin] + body), commit)
         == Emits(BuilderAfter(mapper, q + [begin] + body), commit)
         == Some(Tx(begin.xid, commit.lsn, commit.time, ChangesSince(mapper, p + [begin] + body, |p|)))
  {
    var pb, qb := p + [begin], q + [begin];
    AcceptedAfter(p, q, [begin]);
    SinceAfter(mapper, pb, qb, body);
    OpenEmits(mapper, pb, body);
    OpenEmits(mapper, qb, body);
  }

  lemma OpenEmits(mapper: Mapper, p: seq<Message>, body: seq<Message>)
    requires p != [] && p[|p| - 1].Begin? && Plain(body)
    ensures var b := BuilderAfter(mapper, p + body);
      && b.inFlight.Some? && b.inFlight.value.xid == p[|p| - 1].xid
      && b.inFlight.value.changes == ChangesSince(mapper, p + body, |p| - 1)
  {
    StaysOpen(p, body);
    TracksAll(mapper, p + body);
    var b := BuilderAfter(mapper, p + body);
    assert b.inFlight.Some?;
    var i :| OpenAt(p + body, i) && b.inFlight.value.xid == (p + body)[i].xid
             && b.inFlight.value.finalLSN == (p + body)[i].finalLSN
             && b.inFlight.value.changes == ChangesSince(mapper, p + body, i);
    OnlyOneOpen(p + body, i, |p| - 1);
  }

  lemma OneMore(mapper: Mapper, msgs: seq<Message>, m: Message)
    ensures BuilderAfter(mapper, msgs + [m]) == After(mapper, BuilderAfter(mapper, msgs), m)
    ensures var tx := Emits(BuilderAfter(mapper, msgs), m);
      EmittedBy(mapper, msgs + [m]) == EmittedBy(mapper, msgs) + if tx.Some? then [tx.value] else []
  {
    assert (msgs + [m])[..|msgs|] == msgs;
  }

  /** A rejected Relation message is as if it had never been sent: rows keep being
      decoded under the older entry for the same OID. */
  lemma {:induction false} RejectedRelationIsIgnored(mapper: Mapper, p: seq<Message>, rejected: Message,
                                                     more: seq<Message>)
    requires rejected.RelationMsg? && !Accepted(rejected.rel)
    ensures BuilderAfter(mapper, p + [rejected] + more) == BuilderAfter(mapper, p + more)
    ensures EmittedBy(mapper, p + [rejected] + more) == EmittedBy(mapper, p + more)
    decreases |more|
  {
    if more == [] {
      assert p + [rejected] + more == p + [rejected] && p + more == p;
      OneMore(mapper, p, rejected);
    } else {
      var n := |more| - 1;
      RejectedRelationIsIgnored(mapper, p, rejected, more[..n]);
      assert p + [rejected] + more == p + [rejected] + more[..n] + [more[n]];
      assert p + more == p + more[..n] + [more[n]];
      OneMore(mapper, p + [rejected] + more[..n], more[n]);
      OneMore(mapper, p + more[..n], more[n]);
    }
  }
}
