/** Changes and transactions as the WAL reader hands them to the router
    (internal/wal/types.go). */
module WalTypes {

  datatype Option<+T> = None | Some(value: T)

  // A WAL position. The program only stores and compares positions.
  type LSN = nat

  // A column value in JSON form. Scalar stands for the library-bound cases of
  // the value mapper (numbers, timestamps, embedded JSON, ...).
  datatype Value =
    | Null
    | Text(text: string)
    | Scalar(oid: nat, repr: string)
    | List(elems: seq<Value>)

  datatype Op = OpInsert | OpUpdate | OpDelete | OpOther(name: string)

  type Columns = map<string, Value>

  // data and changed are None where the program leaves the map nil.
  datatype Change = Change(
    schema: string,
    table: string,
    op: Op,
    pk: string,
    pkCol: string,
    data: Option<Columns>,
    changed: Option<Columns>)
  {
    function Key(): string {
      schema + "." + table + ":" + pk
    }

    function WildcardKey(): string {
      schema + "." + table
    }
  }

  const ZeroChange := Change("", "", OpOther(""), "", "", None, None)

  datatype Tx = Tx(id: nat, commitLSN: LSN, commitTS: int, changes: seq<Change>)

  // Ranging over a nil map visits nothing.
  function Entries(columns: Option<Columns>): Columns {
    if columns.Some? then columns.value else map[]
  }

  /** Key strings do not identify rows: a table name or key holding ':' or '.'
      gives two different rows the same string. */
  lemma KeyNotInjective()
    ensures exists a: Change, b: Change ::
      a.Key() == b.Key() && (a.table != b.table && a.pk != b.pk)
  {
    var a := ZeroChange.(schema := "public", table := "a", pk := "b:c");
    var b := ZeroChange.(schema := "public", table := "a:b", pk := "c");
    assert a.Key() == b.Key() by {
      assert "public" + "." + "a" + ":" + "b:c" == "public.a:b:c";
      assert "public" + "." + "a:b" + ":" + "c" == "public.a:b:c";
    }
  }
}
