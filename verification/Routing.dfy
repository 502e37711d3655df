/** What one transaction means for one subscriber: the pure core of
    internal/router/router.go, with the guard loop proved against its meaning. */
module Routing {
  import opened WalTypes
  import opened Whitelists

  datatype Kind = Exact | Wildcard

  // The identity a subscriber registers under.
  datatype Channel = Channel(kind: Kind, schema: string, table: string, pk: string)
  {
    function Key(): string {
      schema + "." + table + (if kind == Exact then ":" + pk else "")
    }
  }

  datatype Event = Event(tx: Tx, matchedIndices: seq<int>)

  // encode yields None when the frame exceeds the payload limit.
  datatype Config = Config(maxChangesPerTx: nat, encode: Event -> Option<string>)

  datatype Outcome =
    | Skip
    | TooLarge
    | Frame(kept: seq<Change>, text: string)

  predicate OwnTable(ch: Channel, c: Change) {
    c.schema == ch.schema && c.table == ch.table
  }

  // Component-wise comparison, unlike the string keys of the indexes.
  predicate MatchesAnchor(ch: Channel, c: Change) {
    OwnTable(ch, c) && (ch.kind == Exact ==> c.pk == ch.pk)
  }

  // The lookup that finds ch for change c in the string-keyed indexes.
  predicate KeyMatches(ch: Channel, c: Change) {
    ch.Key() == if ch.kind == Exact then c.Key() else c.WildcardKey()
  }

  /** The string lookup never misses a subscriber the anchor test would take;
      it may find more, which the anchor test then rejects. */
  lemma AnchorImpliesKey(ch: Channel, c: Change)
    ensures MatchesAnchor(ch, c) ==> KeyMatches(ch, c)
  {
  }

  ghost predicate Unfound(ch: Channel, changes: seq<Change>) {
    forall c :: c in changes ==> !KeyMatches(ch, c)
  }

  lemma UnfoundAppend(ch: Channel, changes: seq<Change>, c: Change)
    ensures Unfound(ch, changes + [c]) <==> Unfound(ch, changes) && !KeyMatches(ch, c)
  {
    assert c in changes + [c];
    assert forall d :: d in changes ==> d in changes + [c];
  }

  // ----- The guard against several root rows -----

  ghost predicate RootClash(changes: seq<Change>, schema: string, table: string) {
    exists i, j :: 0 <= i < j < |changes| && RootPair(changes[i], changes[j], schema, table)
  }

  // Two rows of the table, the first with a usable key, the keys different.
  ghost predicate RootPair(a: Change, b: Change, schema: string, table: string) {
    && a.schema == b.schema == schema
    && a.table == b.table == table
    && a.pk != ""
    && a.pk != b.pk
  }

  method HasMultipleAnchorRoots(tx: Tx, schema: string, table: string) returns (multiple: bool)
    ensures multiple <==> RootClash(tx.changes, schema, table)
  {
    var first := "";
    ghost var at := 0;
    for n := 0 to |tx.changes|
      invariant first != "" ==> 0 <= at < n && tx.changes[at].schema == schema && tx.changes[at].table == table
                                && tx.changes[at].pk == first
      invariant forall i :: 0 <= i < n && tx.changes[i].schema == schema && tx.changes[i].table == table ==>
                  tx.changes[i].pk == "" || tx.changes[i].pk == first
      invariant first != "" ==>
                  forall i :: at < i < n && tx.changes[i].schema == schema && tx.changes[i].table == table ==>
                    tx.changes[i].pk == first
      invariant !RootClash(tx.changes[..n], schema, table)
    {
      var c := tx.changes[n];
      if c.schema != schema || c.table != table {
        continue;
      }
      if first == "" {
        first := c.pk;
        at := n;
        continue;
      }
      if c.pk != first {
        assert RootPair(tx.changes[at], tx.changes[n], schema, table);
        return true;
      }
    }
    assert tx.changes[..|tx.changes|] == tx.changes;
    multiple := false;
  }

  // What the guard is documented to detect.
  ghost predicate ManyRoots(changes: seq<Change>, schema: string, table: string) {
    exists i, j :: 0 <= i < j < |changes| && DistinctRoots(changes[i], changes[j], schema, table)
  }

  ghost predicate DistinctRoots(a: Change, b: Change, schema: string, table: string) {
    && a.schema == b.schema == schema
    && a.table == b.table == table
    && a.pk != b.pk
  }

  // One non-empty key preceded by empty ones: the sentinel hides the second root.
  ghost predicate EmptyThenOneRoot(changes: seq<Change>, schema: string, table: string) {
    exists e, r ::
      && 0 <= e < r < |changes|
      && DistinctRoots(changes[e], changes[r], schema, table)
      && changes[e].pk == ""
      && (forall i :: 0 <= i < r && changes[i].schema == schema && changes[i].table == table ==> changes[i].pk == "")
      && (forall i :: r <= i < |changes| && changes[i].schema == schema && changes[i].table == table ==>
            changes[i].pk == changes[r].pk)
  }

  /** The guard agrees with its documentation except when empty keys come first
      and exactly one non-empty key follows. */
  lemma GuardMeetsDocumentation(changes: seq<Change>, schema: string, table: string)
    ensures (RootClash(changes, schema, table) <==> ManyRoots(changes, schema, table))
       <==> !EmptyThenOneRoot(changes, schema, table)
  {
    if RootClash(changes, schema, table) {
      var i, j :| 0 <= i < j < |changes| && RootPair(changes[i], changes[j], schema, table);
      assert DistinctRoots(changes[i], changes[j], schema, table);
    } else if ManyRoots(changes, schema, table) {
      var e, r0 :| 0 <= e < r0 < |changes| && DistinctRoots(changes[e], changes[r0], schema, table);
      assert !RootPair(changes[e], changes[r0], schema, table);
      var r := FirstRoot(changes, schema, table, r0);
      assert e < r;
      forall i | r <= i < |changes| && changes[i].schema == schema && changes[i].table == table
        ensures changes[i].pk == changes[r].pk
      {
        assert i == r || !RootPair(changes[r], changes[i], schema, table);
      }
      assert DistinctRoots(changes[e], changes[r], schema, table);
    }
  }

  // The first change of the table whose key is not empty.
  lemma {:induction false} FirstRoot(changes: seq<Change>, schema: string, table: string, r0: nat) returns (r: nat)
    requires r0 < |changes| && changes[r0].schema == schema && changes[r0].table == table && changes[r0].pk != ""
    ensures r <= r0 && changes[r].schema == schema && changes[r].table == table && changes[r].pk != ""
    ensures forall i :: 0 <= i < r && changes[i].schema == schema && changes[i].table == table ==> changes[i].pk == ""
  {
    if i :| 0 <= i < r0 && changes[i].schema == schema && changes[i].table == table && changes[i].pk != "" {
      r := FirstRoot(changes, schema, table, i);
    } else {
      r := r0;
    }
  }

  /** The sentinel does hide a second root on a concrete transaction. */
  lemma SentinelHidesRoot()
    ensures exists changes :: ManyRoots(changes, "public", "orders") && !RootClash(changes, "public", "orders")
  {
    var a := ZeroChange.(schema := "public", table := "orders");
    var b := a.(pk := "42");
    var changes := [a, b];
    assert DistinctRoots(changes[0], changes[1], "public", "orders");
    assert ManyRoots(changes, "public", "orders") && !RootClash(changes, "public", "orders");
  }

  // ----- Filtering and the outcome -----

  // ws[i] is the whitelist the filter call for change i resolved to.
  function Survivors(ch: Channel, ws: seq<Option<Whitelist>>, changes: seq<Change>): seq<Change>
    requires |ws| == |changes|
  {
    if changes == [] then []
    else
      var n := |changes| - 1;
      Survivors(ch, ws[..n], changes[..n]) +
      if changes[n].schema == ch.schema && Visible(ws[n], changes[n]).Some? then [Visible(ws[n], changes[n]).value]
      else []
  }

  predicate AnchorSurvived(ch: Channel, ws: seq<Option<Whitelist>>, changes: seq<Change>)
    requires |ws| == |changes|
  {
    exists i :: 0 <= i < |changes| && MatchesAnchor(ch, changes[i]) && Visible(ws[i], changes[i]).Some?
  }

  // Every filter call resolved to the same whitelist.
  ghost function Constant(w: Option<Whitelist>, n: nat): seq<Option<Whitelist>> {
    seq(n, _ => w)
  }

  // The outcome of dispatching tx to an undropped subscriber with a filter.
  ghost function Decide(cfg: Config, ch: Channel, startLSN: LSN, ws: seq<Option<Whitelist>>, tx: Tx): Outcome
    requires |ws| == |tx.changes|
  {
    if tx.commitLSN <= startLSN then Skip
    else if ch.kind == Exact && RootClash(tx.changes, ch.schema, ch.table) then Skip
    else
      var kept := Survivors(ch, ws, tx.changes);
      if !AnchorSurvived(ch, ws, tx.changes) then Skip
      else if |kept| > cfg.maxChangesPerTx then TooLarge
      else
        match cfg.encode(Event(tx.(changes := kept), seq(|kept|, i => i)))
        case None => TooLarge
        case Some(text) => Frame(kept, text)
  }

  /** A transaction none of whose changes matches the channel by components is
      skipped, whatever the grants: the indexes lose nothing by not finding it. */
  lemma UnmatchedIsSkipped(cfg: Config, ch: Channel, startLSN: LSN, ws: seq<Option<Whitelist>>, tx: Tx)
    requires |ws| == |tx.changes|
    requires Unfound(ch, tx.changes)
    ensures Decide(cfg, ch, startLSN, ws, tx) == Skip
  {
    forall i | 0 <= i < |tx.changes|
      ensures !MatchesAnchor(ch, tx.changes[i])
    {
      assert tx.changes[i] in tx.changes;
      AnchorImpliesKey(ch, tx.changes[i]);
    }
  }

  predicate Passes(ch: Channel, w: Option<Whitelist>, c: Change) {
    c.schema == ch.schema && Visible(w, c).Some?
  }

  ghost predicate Selects(picks: seq<int>, ch: Channel, ws: seq<Option<Whitelist>>, changes: seq<Change>)
    requires |ws| == |changes|
  {
    && (forall j :: 0 <= j < |picks| ==> 0 <= picks[j] < |changes|)
    && (forall j, k :: 0 <= j < k < |picks| ==> picks[j] < picks[k])
    && (forall i :: 0 <= i < |changes| ==>
          (i in picks <==> Passes(ch, ws[i], changes[i])))
  }

  lemma SelectsLast(picks: seq<int>, ch: Channel, ws: seq<Option<Whitelist>>, changes: seq<Change>, n: nat)
    requires |ws| == |changes| == n + 1 && Selects(picks, ch, ws[..n], changes[..n])
    ensures Passes(ch, ws[n], changes[n]) ==> Selects(picks + [n], ch, ws, changes)
    ensures !Passes(ch, ws[n], changes[n]) ==> Selects(picks, ch, ws, changes)
  {
    assert forall i :: i in picks + [n] <==> i in picks || i == n;
    assert n !in picks;
  }

  /** Atomic: the survivors are, in transaction order, the visible form of every
      change of the schema the grants let through, each once, and nothing else. */
  lemma {:induction false} SurvivorsAreExact(ch: Channel, ws: seq<Option<Whitelist>>, changes: seq<Change>)
    returns (picks: seq<int>)
    requires |ws| == |changes|
    ensures Selects(picks, ch, ws, changes)
    ensures |Survivors(ch, ws, changes)| == |picks|
    ensures forall j :: 0 <= j < |picks| ==>
              Visible(ws[picks[j]], changes[picks[j]]) == Some(Survivors(ch, ws, changes)[j])
  {
    picks := [];
    if changes != [] {
      var n := |changes| - 1;
      picks := SurvivorsAreExact(ch, ws[..n], changes[..n]);
      SelectsLast(picks, ch, ws, changes, n);
      if Passes(ch, ws[n], changes[n]) {
        picks := picks + [n];
      }
    }
  }

  lemma {:induction false} SurvivorsSame(ch: Channel, ws: seq<Option<Whitelist>>, vs: seq<Option<Whitelist>>,
                                         a: seq<Change>, b: seq<Change>)
    requires |ws| == |vs| == |a| == |b|
    requires forall i :: 0 <= i < |a| ==> a[i].schema == b[i].schema
    requires forall i :: 0 <= i < |a| && a[i].schema == ch.schema ==> Visible(ws[i], a[i]) == Visible(vs[i], b[i])
    ensures Survivors(ch, ws, a) == Survivors(ch, vs, b)
  {
    if a != [] {
      var n := |a| - 1;
      SurvivorsSame(ch, ws[..n], vs[..n], a[..n], b[..n]);
    }
  }

  /** Only the grants used on changes of the subscriber's schema matter. */
  lemma DecideUsesOwnSchema(cfg: Config, ch: Channel, startLSN: LSN,
                            ws: seq<Option<Whitelist>>, vs: seq<Option<Whitelist>>, tx: Tx)
    requires |ws| == |vs| == |tx.changes|
    requires forall i :: 0 <= i < |ws| && tx.changes[i].schema == ch.schema ==> ws[i] == vs[i]
    ensures Decide(cfg, ch, startLSN, ws, tx) == Decide(cfg, ch, startLSN, vs, tx)
  {
    SurvivorsSame(ch, ws, vs, tx.changes, tx.changes);
    assert AnchorSurvived(ch, ws, tx.changes) == AnchorSurvived(ch, vs, tx.changes);
  }

  lemma RootClashSame(a: seq<Change>, b: seq<Change>, schema: string, table: string)
    requires |a| == |b|
    requires forall i :: 0 <= i < |a| ==> (a[i].schema, a[i].table, a[i].pk) == (b[i].schema, b[i].table, b[i].pk)
    ensures RootClash(a, schema, table) ==> RootClash(b, schema, table)
  {
    if RootClash(a, schema, table) {
      var i, j :| 0 <= i < j < |a| && RootPair(a[i], a[j], schema, table);
      assert RootPair(b[i], b[j], schema, table);
    }
  }

  /** Two transactions that differ only in columns outside the grants, or in the
      data of ungranted tables, give a subscriber the same outcome and frame. */
  lemma UngrantedDataIsInvisible(cfg: Config, ch: Channel, startLSN: LSN, ws: seq<Option<Whitelist>>, s: Tx, t: Tx)
    requires |ws| == |s.changes| == |t.changes|
    requires (s.id, s.commitLSN, s.commitTS) == (t.id, t.commitLSN, t.commitTS)
    requires forall i :: 0 <= i < |ws| ==> SameUnder(ws[i], s.changes[i], t.changes[i])
    ensures Decide(cfg, ch, startLSN, ws, s) == Decide(cfg, ch, startLSN, ws, t)
  {
    forall i | 0 <= i < |ws|
      ensures Visible(ws[i], s.changes[i]) == Visible(ws[i], t.changes[i])
      ensures (s.changes[i].schema, s.changes[i].table, s.changes[i].pk)
           == (t.changes[i].schema, t.changes[i].table, t.changes[i].pk)
      ensures MatchesAnchor(ch, s.changes[i]) == MatchesAnchor(ch, t.changes[i])
    {
      assert SameUnder(ws[i], s.changes[i], t.changes[i]);
      VisibleIgnoresUngranted(ws[i], s.changes[i], t.changes[i]);
    }
    RootClashSame(s.changes, t.changes, ch.schema, ch.table);
    RootClashSame(t.changes, s.changes, ch.schema, ch.table);
    SurvivorsSame(ch, ws, ws, s.changes, t.changes);
    assert AnchorSurvived(ch, ws, s.changes) == AnchorSurvived(ch, ws, t.changes);
    var kept := Survivors(ch, ws, s.changes);
    assert s.(changes := kept) == t.(changes := kept);
  }

  // ----- The outcome -----

  // The transaction means something to the subscriber.
  ghost predicate Concerns(ch: Channel, startLSN: LSN, ws: seq<Option<Whitelist>>, tx: Tx)
    requires |ws| == |tx.changes|
  {
    && tx.commitLSN > startLSN
    && (ch.kind == Exact ==> !RootClash(tx.changes, ch.schema, ch.table))
    && exists i :: IsOwnAndShown(ch, ws, tx.changes, i)
  }

  ghost predicate IsOwnAndShown(ch: Channel, ws: seq<Option<Whitelist>>, changes: seq<Change>, i: int)
    requires |ws| == |changes|
  {
    && 0 <= i < |changes|
    && changes[i].schema == ch.schema && changes[i].table == ch.table
    && (ch.kind == Exact ==> changes[i].pk == ch.pk)
    && LetsThrough(ws[i], changes[i])
  }

  // The positions, in order, of the changes the subscriber is shown.
  ghost predicate ShownAt(picks: seq<int>, ch: Channel, ws: seq<Option<Whitelist>>, changes: seq<Change>)
    requires |ws| == |changes|
  {
    && (forall j :: 0 <= j < |picks| ==> 0 <= picks[j] < |changes|)
    && (forall j, k :: 0 <= j < k < |picks| ==> picks[j] < picks[k])
    && (forall i :: 0 <= i < |changes| ==>
          (i in picks <==> changes[i].schema == ch.schema && LetsThrough(ws[i], changes[i])))
  }

  lemma ShownSurvive(ch: Channel, ws: seq<Option<Whitelist>>, changes: seq<Change>) returns (picks: seq<int>)
    requires |ws| == |changes|
    ensures ShownAt(picks, ch, ws, changes)
    ensures |Survivors(ch, ws, changes)| == |picks|
    ensures forall j :: 0 <= j < |picks| ==>
              Visible(ws[picks[j]], changes[picks[j]]) == Some(Survivors(ch, ws, changes)[j])
  {
    picks := SurvivorsAreExact(ch, ws, changes);
    forall i | 0 <= i < |changes|
      ensures Passes(ch, ws[i], changes[i]) <==> changes[i].schema == ch.schema && LetsThrough(ws[i], changes[i])
    {
      NothingIsWithheld(ws[i], changes[i]);
    }
  }

  lemma AnchorIsShown(ch: Channel, ws: seq<Option<Whitelist>>, changes: seq<Change>)
    requires |ws| == |changes|
    ensures AnchorSurvived(ch, ws, changes) <==> exists i :: IsOwnAndShown(ch, ws, changes, i)
  {
    forall i | 0 <= i < |changes|
      ensures MatchesAnchor(ch, changes[i]) && Visible(ws[i], changes[i]).Some? <==>
                IsOwnAndShown(ch, ws, changes, i)
    {
      NothingIsWithheld(ws[i], changes[i]);
    }
  }

  /** The outcome, exactly: a transaction is skipped only at or below the start, with two
      roots for a row subscriber, or with no own change shown; otherwise it is a frame
      of every change shown, or too large by the number of these or as a frame. */
  lemma OutcomeIsExact(cfg: Config, ch: Channel, startLSN: LSN, ws: seq<Option<Whitelist>>, tx: Tx)
    returns (picks: seq<int>, kept: seq<Change>)
    requires |ws| == |tx.changes|
    ensures ShownAt(picks, ch, ws, tx.changes) && |kept| == |picks|
    ensures forall j :: 0 <= j < |picks| ==> Visible(ws[picks[j]], tx.changes[picks[j]]) == Some(kept[j])
    ensures var decided := Decide(cfg, ch, startLSN, ws, tx);
      if !Concerns(ch, startLSN, ws, tx) then decided == Skip
      else if |picks| > cfg.maxChangesPerTx then decided == TooLarge
      else
        match cfg.encode(Event(tx.(changes := kept), seq(|kept|, i => i)))
        case None => decided == TooLarge
        case Some(text) => decided == Frame(kept, text)
  {
    picks := ShownSurvive(ch, ws, tx.changes);
    kept := Survivors(ch, ws, tx.changes);
    AnchorIsShown(ch, ws, tx.changes);
  }

  /** Nothing granted is withheld, to the frame: an insert of the channel's own row, under
      grants that hold its table, reaches the client with its granted columns, unless
      the transaction is at or below the start, clashes, or breaks a limit. */
  lemma OwnInsertIsFramed(cfg: Config, ch: Channel, startLSN: LSN, ws: seq<Option<Whitelist>>, tx: Tx, i: nat)
    returns (shown: Change)
    requires |ws| == |tx.changes| && i < |tx.changes|
    requires tx.commitLSN > startLSN && (ch.kind == Exact ==> !RootClash(tx.changes, ch.schema, ch.table))
    requires |tx.changes| <= cfg.maxChangesPerTx && forall e :: cfg.encode(e).Some?
    requires var c := tx.changes[i];
      && c.op == OpInsert && c.schema == ch.schema && c.table == ch.table && (ch.kind == Exact ==> c.pk == ch.pk)
      && ws[i].Some? && c.table in ws[i].value.tables
    ensures var c, decided := tx.changes[i], Decide(cfg, ch, startLSN, ws, tx);
      && decided.Frame? && shown in decided.kept
      && (shown.schema, shown.table, shown.op, shown.pk) == (c.schema, c.table, OpInsert, c.pk)
      && shown.data.Some? && shown.changed.None?
      && (forall k :: k in shown.data.value <==>
            c.data.Some? && k in c.data.value && (k == c.pkCol || k in ws[i].value.tables[c.table]))
      && (forall k :: k in shown.data.value ==> shown.data.value[k] == c.data.value[k])
  {
    var picks, kept := OutcomeIsExact(cfg, ch, startLSN, ws, tx);
    assert IsOwnAndShown(ch, ws, tx.changes, i) && i in picks;
    PicksAreFew(picks, |tx.changes|);
    var j :| 0 <= j < |picks| && picks[j] == i;
    shown := kept[j];
  }

  lemma {:induction false} PicksAreFew(picks: seq<int>, n: nat)
    requires forall j :: 0 <= j < |picks| ==> 0 <= picks[j] < n
    requires forall j, k :: 0 <= j < k < |picks| ==> picks[j] < picks[k]
    ensures |picks| <= n
  {
    if picks != [] {
      PicksAreFew(picks[..|picks| - 1], picks[|picks| - 1]);
    }
  }

  // ----- Root isolation -----

  // Nothing of another row of the subscriber's table is in the frame.
  predicate Isolated(ch: Channel, kept: seq<Change>) {
    forall c :: c in kept && OwnTable(ch, c) ==> c.pk == ch.pk
  }

  lemma FrameHoldsOwnRow(cfg: Config, ch: Channel, startLSN: LSN, ws: seq<Option<Whitelist>>, tx: Tx)
    requires |ws| == |tx.changes|
    requires Decide(cfg, ch, startLSN, ws, tx).Frame?
    ensures exists c :: c in Decide(cfg, ch, startLSN, ws, tx).kept && MatchesAnchor(ch, c)
  {
    var kept := Survivors(ch, ws, tx.changes);
    var picks := SurvivorsAreExact(ch, ws, tx.changes);
    var i :| 0 <= i < |tx.changes| && MatchesAnchor(ch, tx.changes[i]) && Visible(ws[i], tx.changes[i]).Some?;
    assert i in picks;
    var j :| 0 <= j < |picks| && picks[j] == i;
    assert kept[j] in kept;
    VisibleIsExact(ws[i].value, tx.changes[i]);
  }

  lemma KeptComesFrom(ch: Channel, ws: seq<Option<Whitelist>>, changes: seq<Change>, c: Change) returns (i: nat)
    requires |ws| == |changes| && c in Survivors(ch, ws, changes)
    ensures i < |changes| && Visible(ws[i], changes[i]) == Some(c)
    ensures (c.schema, c.table, c.pk) == (changes[i].schema, changes[i].table, changes[i].pk)
  {
    var picks := SurvivorsAreExact(ch, ws, changes);
    var j :| 0 <= j < |picks| && Survivors(ch, ws, changes)[j] == c;
    i := picks[j];
    VisibleIsExact(ws[i].value, changes[i]);
  }

  lemma KeptKeysIsolate(cfg: Config, ch: Channel, startLSN: LSN, ws: seq<Option<Whitelist>>, tx: Tx)
    requires |ws| == |tx.changes|
    requires ch.kind == Exact && ch.pk != ""
    requires Decide(cfg, ch, startLSN, ws, tx).Frame?
    ensures var kept := Decide(cfg, ch, startLSN, ws, tx).kept;
      && (exists c :: c in kept && MatchesAnchor(ch, c))
      && (Isolated(ch, kept) <==> forall c :: c in kept && OwnTable(ch, c) ==> c.pk != "")
  {
    FrameHoldsOwnRow(cfg, ch, startLSN, ws, tx);
    var kept := Decide(cfg, ch, startLSN, ws, tx).kept;
    var own :| own in kept && MatchesAnchor(ch, own);
    var i := KeptComesFrom(ch, ws, tx.changes, own);
    forall c | c in kept && OwnTable(ch, c) && c.pk != ""
      ensures c.pk == ch.pk
    {
      var j := KeptComesFrom(ch, ws, tx.changes, c);
      if c.pk != ch.pk {
        assert if i < j then RootPair(tx.changes[i], tx.changes[j], ch.schema, ch.table)
               else RootPair(tx.changes[j], tx.changes[i], ch.schema, ch.table);
      }
    }
  }

  // Of the changes of the subscriber's table, the grants let none with an empty key through.
  ghost predicate ShowsNoEmptyKey(ch: Channel, ws: seq<Option<Whitelist>>, changes: seq<Change>)
    requires |ws| == |changes|
  {
    forall i :: 0 <= i < |changes| && OwnTable(ch, changes[i]) && Visible(ws[i], changes[i]).Some? ==>
      changes[i].pk != ""
  }

  /** A frame for a row subscriber is isolated exactly when the grants let through no
      change of its table with an empty key. */
  lemma RootIsolation(cfg: Config, ch: Channel, startLSN: LSN, ws: seq<Option<Whitelist>>, tx: Tx)
    requires |ws| == |tx.changes|
    requires ch.kind == Exact && ch.pk != ""
    requires Decide(cfg, ch, startLSN, ws, tx).Frame?
    ensures var kept := Decide(cfg, ch, startLSN, ws, tx).kept;
      && (exists c :: c in kept && MatchesAnchor(ch, c))
      && (Isolated(ch, kept) <==> ShowsNoEmptyKey(ch, ws, tx.changes))
  {
    var kept := Decide(cfg, ch, startLSN, ws, tx).kept;
    KeptKeysIsolate(cfg, ch, startLSN, ws, tx);
    if ShowsNoEmptyKey(ch, ws, tx.changes) {
      forall c | c in kept && OwnTable(ch, c)
        ensures c.pk != ""
      {
        var i := KeptComesFrom(ch, ws, tx.changes, c);
      }
    } else {
      var i :| 0 <= i < |tx.changes| && OwnTable(ch, tx.changes[i]) && Visible(ws[i], tx.changes[i]).Some?
               && tx.changes[i].pk == "";
      VisibleIsKept(ch, ws, tx.changes, i);
    }
  }

  lemma VisibleIsKept(ch: Channel, ws: seq<Option<Whitelist>>, changes: seq<Change>, i: nat)
    requires |ws| == |changes| && i < |changes|
    requires changes[i].schema == ch.schema && Visible(ws[i], changes[i]).Some?
    ensures var c := Visible(ws[i], changes[i]).value;
      && c in Survivors(ch, ws, changes)
      && (c.schema, c.table, c.pk) == (changes[i].schema, changes[i].table, changes[i].pk)
  {
    var picks := SurvivorsAreExact(ch, ws, changes);
    assert i in picks;
    var j :| 0 <= j < |picks| && picks[j] == i;
    assert Survivors(ch, ws, changes)[j] in Survivors(ch, ws, changes);
    VisibleIsExact(ws[i].value, changes[i]);
  }

  /** With non-empty keys throughout the table, every frame is isolated. */
  lemma RootIsolationNonEmptyKeys(cfg: Config, ch: Channel, startLSN: LSN, ws: seq<Option<Whitelist>>, tx: Tx)
    requires |ws| == |tx.changes|
    requires ch.kind == Exact && ch.pk != ""
    requires forall c :: c in tx.changes && OwnTable(ch, c) ==> c.pk != ""
    requires Decide(cfg, ch, startLSN, ws, tx).Frame?
    ensures Isolated(ch, Decide(cfg, ch, startLSN, ws, tx).kept)
  {
    RootIsolation(cfg, ch, startLSN, ws, tx);
    forall i | 0 <= i < |tx.changes| && OwnTable(ch, tx.changes[i])
      ensures tx.changes[i].pk != ""
    {
      assert tx.changes[i] in tx.changes;
    }
  }

  lemma TwoSurvivors(ch: Channel, w: Option<Whitelist>, a: Change, b: Change)
    requires a.schema == b.schema == ch.schema && Visible(w, a).Some? && Visible(w, b).Some?
    ensures Survivors(ch, [w, w], [a, b]) == [Visible(w, a).value, Visible(w, b).value]
  {
    assert [a, b][..1] == [a] && [w, w][..1] == [w];
    assert [a][..0] == [] && [w][..0] == [];
    assert Survivors(ch, [w], [a]) == [Visible(w, a).value];
  }

  /** A deleted row with an empty key reaches the subscriber of any other row of its
      table: the guard lets it pass, and the frame holds both rows. */
  lemma EmptyKeyBreaksIsolation(cfg: Config, ch: Channel, w: Whitelist, empty: Change, own: Change)
    requires cfg.maxChangesPerTx >= 2 && forall e :: cfg.encode(e).Some?
    requires ch.kind == Exact && ch.pk != "" && ch.table in w.tables
    requires empty.op == own.op == OpDelete && OwnTable(ch, empty) && OwnTable(ch, own)
    requires empty.pk == "" && own.pk == ch.pk
    ensures var decided := Decide(cfg, ch, 0, [Some(w), Some(w)], Tx(1, 1, 0, [empty, own]));
      decided.Frame? && !Isolated(ch, decided.kept)
  {
    var tx, ws := Tx(1, 1, 0, [empty, own]), [Some(w), Some(w)];
    TwoSurvivors(ch, Some(w), empty, own);
    assert MatchesAnchor(ch, tx.changes[1]) && AnchorSurvived(ch, ws, tx.changes);
    assert !RootClash(tx.changes, ch.schema, ch.table);
    var kept := Survivors(ch, ws, tx.changes);
    assert kept[0] in kept && OwnTable(ch, kept[0]) && kept[0].pk == "";
  }
}
