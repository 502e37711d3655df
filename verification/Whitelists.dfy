/** Column grants and the filter they define (internal/auth/map.go). */
module Whitelists {
  import opened WalTypes

  datatype Whitelist = Whitelist(
    userID: string,
    tables: map<string, set<string>>,
    ttlSeconds: int,
    refreshLSN: LSN,
    initialData: Option<string>)
  {
    predicate Allowed(table: string, column: string) {
      table in tables && column in tables[table]
    }
  }

  // Columns a subscriber may see of a row: its key column and the granted ones.
  function Granted(columns: Columns, pkCol: string, cols: set<string>): Columns {
    map k | k in columns && (k == pkCol || k in cols) :: columns[k]
  }

  // What a grant lets through of a change; None means the change is dropped.
  // A missing grant lets nothing through.
  function Visible(grant: Option<Whitelist>, c: Change): Option<Change> {
    if grant.None? || c.table !in grant.value.tables then None
    else
      var cols := grant.value.tables[c.table];
      match c.op
      case OpInsert =>
        Some(c.(data := Some(Granted(Entries(c.data), c.pkCol, cols)), changed := None))
      case OpUpdate =>
        if exists k :: k in Entries(c.changed) && k != c.pkCol && k in cols then
          Some(c.(data := None, changed := Some(Granted(Entries(c.changed), c.pkCol, cols))))
        else None
      case OpDelete => Some(c.(data := None, changed := None))
      case OpOther(_) => None
  }

  method CopyGranted(columns: Columns, pkCol: string, cols: set<string>)
    returns (out: Columns, keptNonPK: bool)
    ensures out == Granted(columns, pkCol, cols)
    ensures keptNonPK <==> exists k :: k in columns && k != pkCol && k in cols
  {
    out, keptNonPK := map[], false;
    var todo := columns.Keys;
    while todo != {}
      invariant todo <= columns.Keys
      invariant out == map k | k in columns && k !in todo && (k == pkCol || k in cols) :: columns[k]
      invariant keptNonPK <==> exists k :: k in columns && k !in todo && k != pkCol && k in cols
      decreases todo
    {
      var k :| k in todo;
      if k == pkCol {
        out := out[k := columns[k]];
      } else if k in cols {
        out := out[k := columns[k]];
        keptNonPK := true;
      }
      todo := todo - {k};
    }
  }

  // Nothing granted is withheld: with its table granted an insert or a delete is kept,
  // and an update that changed a granted column other than the key.
  method Filter(grant: Option<Whitelist>, c: Change) returns (out: Change, drop: bool)
    ensures !drop <==>
              && grant.Some? && c.table in grant.value.tables
              && (c.op == OpInsert || c.op == OpDelete
                  || (c.op == OpUpdate && c.changed.Some?
                      && exists k :: k in c.changed.value && k != c.pkCol && k in grant.value.tables[c.table]))
    ensures !drop ==> (out.schema, out.table, out.op, out.pk, out.pkCol) == (c.schema, c.table, c.op, c.pk, c.pkCol)
    ensures drop <==> Visible(grant, c).None?
    ensures !drop ==> Visible(grant, c) == Some(out)
    ensures drop ==> out == ZeroChange
  {
    out, drop := ZeroChange, true;
    if grant.None? || c.table !in grant.value.tables {
      return;
    }
    var cols := grant.value.tables[c.table];
    match c.op
    case OpInsert =>
      var data, _ := CopyGranted(Entries(c.data), c.pkCol, cols);
      out, drop := c.(data := Some(data), changed := None), false;
    case OpUpdate =>
      var changed, keptNonPK := CopyGranted(Entries(c.changed), c.pkCol, cols);
      if keptNonPK {
        out, drop := c.(data := None, changed := Some(changed)), false;
      }
    case OpDelete =>
      out, drop := c.(data := None, changed := None), false;
    case OpOther(_) =>
  }

  // The grant lets the change through, if perhaps not all of its columns.
  ghost predicate LetsThrough(grant: Option<Whitelist>, c: Change) {
    && grant.Some? && c.table in grant.value.tables
    && (c.op == OpInsert || c.op == OpDelete || (c.op == OpUpdate && ChangesGranted(grant.value, c)))
  }

  // The update changed a granted column that is not the key.
  ghost predicate ChangesGranted(w: Whitelist, c: Change) {
    c.changed.Some? && exists k :: k in c.changed.value && k != c.pkCol && w.Allowed(c.table, k)
  }

  /** Nothing granted is withheld and nothing else passes, for every operation. */
  lemma NothingIsWithheld(grant: Option<Whitelist>, c: Change)
    ensures Visible(grant, c).Some? <==> LetsThrough(grant, c)
  {
    if grant.Some? && c.table in grant.value.tables && c.op == OpUpdate && c.changed.Some? {
      assert forall k :: grant.value.Allowed(c.table, k) <==> k in grant.value.tables[c.table];
    }
  }

  // The whitelist a filter call resolves to: transactions at or below the
  // current grant's boundary are judged by the previous grant.
  function Resolve(auth: Option<Whitelist>, prev: Option<Whitelist>, txLSN: LSN): Option<Whitelist> {
    if auth.None? then None
    else if txLSN <= auth.value.refreshLSN then prev
    else auth
  }

  // The columns a frame shows of a change.
  function Shown(c: Change): Columns {
    if c.data.Some? then c.data.value else Entries(c.changed)
  }

  /** A surviving change keeps its identity, and shows exactly the key column
      and the granted columns of the new row, unaltered. */
  lemma VisibleIsExact(w: Whitelist, c: Change)
    requires Visible(Some(w), c).Some?
    ensures var v := Visible(Some(w), c).value;
      && (v.schema, v.table, v.op, v.pk, v.pkCol) == (c.schema, c.table, c.op, c.pk, c.pkCol)
      && var row := if c.op == OpInsert then Entries(c.data)
                    else if c.op == OpUpdate then Entries(c.changed) else map[];
         && (forall k :: k in Shown(v) <==> k in row && (k == c.pkCol || w.Allowed(c.table, k)))
         && (forall k :: k in Shown(v) ==> Shown(v)[k] == row[k])
  {
  }

  // The two changes are the same to anyone holding the grant.
  ghost predicate SameUnder(grant: Option<Whitelist>, a: Change, b: Change) {
    && (a.schema, a.table, a.op, a.pk, a.pkCol) == (b.schema, b.table, b.op, b.pk, b.pkCol)
    && (grant.Some? && a.table in grant.value.tables ==>
          forall k :: k == a.pkCol || grant.value.Allowed(a.table, k) ==>
            SameAt(Entries(a.data), Entries(b.data), k) && SameAt(Entries(a.changed), Entries(b.changed), k))
  }

  ghost predicate SameAt(x: Columns, y: Columns, k: string) {
    (k in x <==> k in y) && (k in x && k in y ==> x[k] == y[k])
  }

  lemma GrantedIgnoresUngranted(x: Columns, y: Columns, pkCol: string, cols: set<string>)
    requires forall k :: k == pkCol || k in cols ==> SameAt(x, y, k)
    ensures Granted(x, pkCol, cols) == Granted(y, pkCol, cols)
  {
    var gx, gy := Granted(x, pkCol, cols), Granted(y, pkCol, cols);
    forall k
      ensures k in gx <==> k in gy
      ensures k in gx ==> gx[k] == gy[k]
    {
      assert k == pkCol || k in cols ==> SameAt(x, y, k);
    }
  }

  lemma VisibleIgnoresUngranted(grant: Option<Whitelist>, a: Change, b: Change)
    requires SameUnder(grant, a, b)
    ensures Visible(grant, a) == Visible(grant, b)
  {
    if grant.Some? && a.table in grant.value.tables {
      var cols := grant.value.tables[a.table];
      forall k | k == a.pkCol || k in cols
        ensures SameAt(Entries(a.data), Entries(b.data), k) && SameAt(Entries(a.changed), Entries(b.changed), k)
      {
        assert k == a.pkCol || grant.value.Allowed(a.table, k);
      }
      GrantedIgnoresUngranted(Entries(a.data), Entries(b.data), a.pkCol, cols);
      GrantedIgnoresUngranted(Entries(a.changed), Entries(b.changed), a.pkCol, cols);
      assert forall k :: k in cols ==> (k in Entries(a.changed) <==> k in Entries(b.changed));
    }
  }
}
