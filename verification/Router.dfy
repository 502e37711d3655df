/** The router (internal/router/router.go): registration, index-based routing
    and shutdown, each proved against a scan of all registered subscribers. */
module Router {
  import opened WalTypes
  import opened Whitelists
  import opened Routing
  import opened Subscribers
  import opened Indexes

  // A subscriber belongs under its own key, in the index of its kind.
  ghost predicate RowFits(key: string, s: Subscriber) {
    s.channel.kind == Exact && s.channel.Key() == key
  }

  ghost predicate TableFits(key: string, s: Subscriber) {
    s.channel.kind == Wildcard && s.channel.Key() == key
  }

  lemma FoundByKey(rows: map<string, set<Subscriber>>, tables: map<string, seq<Subscriber>>, c: Change)
    requires SetFiled(rows, RowFits) && SeqFiled(tables, TableFits)
    ensures forall s :: s in SetAt(rows, c.Key()) || s in SeqAt(tables, c.WildcardKey()) <==>
                        s in SetMembers(rows) + SeqMembers(tables) && KeyMatches(s.channel, c)
  {
    forall s
      ensures s in SetAt(rows, c.Key()) <==> s in SetMembers(rows) && KeyMatches(s.channel, c)
      ensures s in SeqAt(tables, c.WildcardKey()) <==> s in SeqMembers(tables) && KeyMatches(s.channel, c)
    {
      if k :| k in rows && s in rows[k] {
        assert SetFits(k, rows[k], RowFits) && RowFits(k, s);
      }
      if k :| k in tables && s in tables[k] {
        assert SeqFits(k, tables[k], TableFits) && TableFits(k, s);
      }
    }
  }

  lemma NotInTables(tables: map<string, seq<Subscriber>>, key: string, s: Subscriber)
    requires SeqFiled(tables, TableFits) && FitsOnly(RowFits, key, s)
    ensures s !in SeqMembers(tables)
  {
    assert RowFits(key, s);
    forall k | k in tables
      ensures s !in tables[k]
    {
      assert SeqFits(k, tables[k], TableFits) && !TableFits(k, s);
    }
  }

  lemma NotInRows(rows: map<string, set<Subscriber>>, key: string, s: Subscriber)
    requires SetFiled(rows, RowFits) && FitsOnly(TableFits, key, s)
    ensures s !in SetMembers(rows)
  {
    assert TableFits(key, s);
    forall k | k in rows
      ensures s !in rows[k]
    {
      assert SetFits(k, rows[k], RowFits) && !RowFits(k, s);
    }
  }

  ghost predicate AllUnfound(subs: set<Subscriber>, changes: seq<Change>) {
    forall s :: s in subs ==> Unfound(s.channel, changes)
  }

  lemma AllUnfoundAppend(subs: set<Subscriber>, changes: seq<Change>, c: Change, found: set<Subscriber>)
    requires AllUnfound(subs, changes)
    requires forall s :: s in subs && KeyMatches(s.channel, c) ==> s in found
    ensures AllUnfound(subs - found, changes + [c])
  {
    forall s | s in subs - found
      ensures Unfound(s.channel, changes + [c])
    {
      UnfoundAppend(s.channel, changes, c);
    }
  }

  ghost predicate NoneUnfound(subs: set<Subscriber>, changes: seq<Change>) {
    forall s :: s in subs ==> !Unfound(s.channel, changes)
  }

  lemma NoneUnfoundAppend(subs: set<Subscriber>, changes: seq<Change>, c: Change, found: set<Subscriber>)
    requires NoneUnfound(subs, changes)
    requires forall s :: s in found ==> KeyMatches(s.channel, c)
    ensures NoneUnfound(subs + found, changes + [c])
  {
    forall s | s in subs + found
      ensures !Unfound(s.channel, changes + [c])
    {
      UnfoundAppend(s.channel, changes, c);
    }
  }

  // What change n finds joins the eligible ones.
  lemma MergeOne(subs: set<Subscriber>, eligible: set<Subscriber>, changes: seq<Change>, n: nat, found: set<Subscriber>)
    requires n < |changes| && AllUnfound(subs - eligible, changes[..n]) && NoneUnfound(eligible, changes[..n])
    requires forall s :: s in found <==> s in subs && KeyMatches(s.channel, changes[n])
    ensures AllUnfound(subs - (eligible + found), changes[..n + 1]) && NoneUnfound(eligible + found, changes[..n + 1])
  {
    AllUnfoundAppend(subs - eligible, changes[..n], changes[n], found);
    NoneUnfoundAppend(eligible, changes[..n], changes[n], found);
    assert changes[..n + 1] == changes[..n] + [changes[n]];
    assert subs - (eligible + found) == subs - eligible - found;
  }

  class Broadcaster {
    const cfg: Config
    const exact: Index<Subscriber>
    const wildcard: WildcardIndex<Subscriber>
    var closed: bool
    // The active-subscriber gauges.
    var exactActive: int
    var wildcardActive: int

    constructor (cfg: Config)
      ensures Valid() && Subs() == {} && !closed && GaugesExact()
      ensures this.cfg == cfg && fresh(exact) && fresh(wildcard)
    {
      this.cfg := cfg;
      exact := new Index();
      wildcard := new WildcardIndex();
      closed, exactActive, wildcardActive := false, 0, 0;
    }

    ghost predicate Valid()
      reads this, exact, wildcard, wildcard.Cells()
    {
      wildcard.Valid() && SetFiled(exact.subs, RowFits) && SeqFiled(wildcard.buckets, TableFits)
    }

    // All registered subscribers.
    ghost function Subs(): set<Subscriber>
      reads this, exact, wildcard
    {
      SetMembers(exact.subs) + SeqMembers(wildcard.buckets)
    }

    ghost predicate GaugesExact()
      reads this, exact, wildcard
    {
      exactActive == SetTotal(exact.subs) && wildcardActive == SeqTotal(wildcard.buckets)
    }

    // Adding precedes the closed check.
    method Register(sub: Subscriber)
      requires Valid()
      modifies this, exact, wildcard, wildcard.Cells(), sub
      ensures Valid() && closed == old(closed)
      ensures Subs() == old(Subs()) + {sub}
      ensures sub.State() == if closed then Dropped(old(sub.State()), "shutdown") else old(sub.State())
      ensures old(GaugesExact()) && sub !in old(Subs()) ==> GaugesExact()
    {
      Add(sub);
      if closed {
        sub.Drop("shutdown");
      }
    }

    method Add(sub: Subscriber)
      requires Valid()
      modifies this`exactActive, this`wildcardActive, exact, wildcard, wildcard.Cells()
      ensures Valid() && Subs() == old(Subs()) + {sub}
      ensures old(GaugesExact()) && sub !in old(Subs()) ==> GaugesExact()
    {
      var key := sub.channel.Key();
      if sub.channel.kind == Exact {
        assert FitsOnly(RowFits, key, sub);
        CountRow(key, sub);
      } else {
        assert FitsOnly(TableFits, key, sub);
        CountTable(key, sub);
      }
    }

    method CountRow(key: string, sub: Subscriber)
      requires Valid() && FitsOnly(RowFits, key, sub)
      modifies this`exactActive, exact
      ensures Valid() && Subs() == old(Subs()) + {sub}
      ensures old(GaugesExact()) && sub !in old(Subs()) ==> GaugesExact()
    {
      AddRow(key, sub);
      exactActive := exactActive + 1;
    }

    method CountTable(key: string, sub: Subscriber)
      requires Valid() && FitsOnly(TableFits, key, sub)
      modifies this`wildcardActive, wildcard, wildcard.Cells()
      ensures Valid() && Subs() == old(Subs()) + {sub}
      ensures old(GaugesExact()) ==> GaugesExact()
    {
      AddTable(key, sub);
      wildcardActive := wildcardActive + 1;
    }

    method AddRow(key: string, sub: Subscriber)
      requires SetFiled(exact.subs, RowFits) && FitsOnly(RowFits, key, sub)
      modifies exact
      ensures SetFiled(exact.subs, RowFits)
      ensures SetMembers(exact.subs) == old(SetMembers(exact.subs)) + {sub}
      ensures SetTotal(exact.subs) == old(SetTotal(exact.subs)) + if sub in old(SetMembers(exact.subs)) then 0 else 1
    {
      SetFiledAdd(exact.subs, RowFits, key, sub);
      SetFiledAddMembers(exact.subs, RowFits, key, sub);
      exact.Add(key, sub);
    }

    method AddTable(key: string, sub: Subscriber)
      requires wildcard.Valid() && SeqFiled(wildcard.buckets, TableFits) && FitsOnly(TableFits, key, sub)
      modifies wildcard, wildcard.Cells()
      ensures wildcard.Valid() && SeqFiled(wildcard.buckets, TableFits)
      ensures SeqMembers(wildcard.buckets) == old(SeqMembers(wildcard.buckets)) + {sub}
      ensures SeqTotal(wildcard.buckets) == old(SeqTotal(wildcard.buckets)) + 1
    {
      SeqFiledAdd(wildcard.buckets, TableFits, key, sub);
      wildcard.Add(key, sub);
    }

    method Deregister(sub: Subscriber)
      requires Valid()
      modifies this`exactActive, this`wildcardActive, exact, wildcard, wildcard.Cells()
      ensures Valid()
      ensures Subs() == old(Subs()) - if sub.channel.kind == Exact then {sub}
                                      else TakenOut(old(SeqAt(wildcard.buckets, sub.channel.Key())), sub)
      ensures old(GaugesExact()) && sub in old(Subs()) ==> GaugesExact()
    {
      var key := sub.channel.Key();
      if sub.channel.kind == Exact {
        assert FitsOnly(RowFits, key, sub);
        UncountRow(key, sub);
      } else {
        assert FitsOnly(TableFits, key, sub);
        UncountTable(key, sub);
      }
    }

    method UncountRow(key: string, sub: Subscriber)
      requires Valid() && FitsOnly(RowFits, key, sub)
      modifies this`exactActive, exact
      ensures Valid() && Subs() == old(Subs()) - {sub}
      ensures old(GaugesExact()) && sub in old(Subs()) ==> GaugesExact()
    {
      NotInTables(wildcard.buckets, key, sub);
      RemoveRow(key, sub);
      exactActive := exactActive - 1;
    }

    method UncountTable(key: string, sub: Subscriber)
      requires Valid() && FitsOnly(TableFits, key, sub)
      modifies this`wildcardActive, wildcard, wildcard.Cells()
      ensures Valid()
      ensures Subs() == old(Subs()) - TakenOut(old(SeqAt(wildcard.buckets, key)), sub)
      ensures old(GaugesExact()) && sub in old(Subs()) ==> GaugesExact()
    {
      NotInRows(exact.subs, key, sub);
      RemoveTable(key, sub);
      wildcardActive := wildcardActive - 1;
    }

    method RemoveRow(key: string, sub: Subscriber)
      requires SetFiled(exact.subs, RowFits) && FitsOnly(RowFits, key, sub)
      modifies exact
      ensures SetFiled(exact.subs, RowFits)
      ensures SetMembers(exact.subs) == old(SetMembers(exact.subs)) - {sub}
      ensures SetTotal(exact.subs) == old(SetTotal(exact.subs)) - if sub in old(SetMembers(exact.subs)) then 1 else 0
    {
      SetFiledRemove(exact.subs, RowFits, key, sub);
      exact.Remove(key, sub);
    }

    method RemoveTable(key: string, sub: Subscriber)
      requires wildcard.Valid() && SeqFiled(wildcard.buckets, TableFits) && FitsOnly(TableFits, key, sub)
      modifies wildcard, wildcard.Cells()
      ensures wildcard.Valid() && SeqFiled(wildcard.buckets, TableFits)
      ensures SeqMembers(wildcard.buckets)
           == old(SeqMembers(wildcard.buckets)) - TakenOut(SeqAt(old(wildcard.buckets), key), sub)
      ensures SeqTotal(wildcard.buckets)
           == old(SeqTotal(wildcard.buckets)) - if sub in old(SeqMembers(wildcard.buckets)) then 1 else 0
    {
      SeqFiledRemove(wildcard.buckets, TableFits, key, sub);
      wildcard.Remove(key, sub);
    }

    // The subscribers one change finds under its two string keys.
    method LookupBoth(key: string, tableKey: string) returns (found: set<Subscriber>)
      requires wildcard.Valid()
      ensures forall s :: s in found <==> s in SetAt(exact.subs, key) || s in SeqAt(wildcard.buckets, tableKey)
    {
      var rows := exact.Lookup(key);
      var tables := wildcard.Lookup(tableKey);
      var copied := tables[..];
      found := (set s | s in rows) + (set s | s in copied);
    }

    method Matches(c: Change) returns (found: set<Subscriber>)
      requires Valid()
      ensures forall s :: s in found <==> s in Subs() && KeyMatches(s.channel, c)
    {
      FoundByKey(exact.subs, wildcard.buckets, c);
      found := LookupBoth(c.Key(), c.WildcardKey());
    }

    // The eligibility set: everyone some change of tx finds.
    method MergeMatches(tx: Tx) returns (eligible: set<Subscriber>)
      requires Valid()
      ensures forall s :: s in eligible <==> s in Subs() && !Unfound(s.channel, tx.changes)
    {
      eligible := {};
      ghost var subs := Subs();
      for n := 0 to |tx.changes|
        invariant eligible <= subs
        invariant AllUnfound(subs - eligible, tx.changes[..n]) && NoneUnfound(eligible, tx.changes[..n])
      {
        var found := Matches(tx.changes[n]);
        MergeOne(subs, eligible, tx.changes, n, found);
        eligible := eligible + found;
      }
      assert tx.changes[..|tx.changes|] == tx.changes;
    }

    // A frame is queued, or its refusal drops the subscriber; a transaction over a limit
    // drops it; nothing else changes anything.
    method DispatchEvent(tx: Tx, sub: Subscriber)
      modifies sub
      ensures old(sub.reason).Some? || sub.filter == null ==> sub.State() == old(sub.State())
      ensures old(sub.reason).None? && sub.filter != null ==>
        match old(sub.Outcome(cfg, tx))
        case Skip => sub.State() == old(sub.State())
        case TooLarge => sub.reason == Some("tx_too_large") && sub.queue == old(sub.queue)
        case Frame(_, text) =>
          if old(sub.wired) && |old(sub.queue)| < sub.queueCap then
            sub.reason.None? && sub.queue == old(sub.queue) + [text]
          else sub.reason == Some("slow_consumer") && sub.queue == old(sub.queue)
      ensures sub.wired == old(sub.wired)
      ensures sub.State() == old(Dispatched(cfg, sub, tx))
    {
      if tx.commitLSN <= sub.startLSN || sub.reason.Some? || sub.filter == null {
        return;
      }
      if sub.channel.kind == Exact {
        var multiple := HasMultipleAnchorRoots(tx, sub.channel.schema, sub.channel.table);
        if multiple {
          return;
        }
      }
      var filtered, anchorSurvived := FilterTx(tx, sub.channel, sub.filter);
      if |filtered| == 0 || !anchorSurvived {
        return;
      }
      if |filtered| > cfg.maxChangesPerTx {
        sub.Drop("tx_too_large");
        return;
      }
      match cfg.encode(Event(tx.(changes := filtered), seq(|filtered|, i => i)))
      case None =>
        sub.Drop("tx_too_large");
      case Some(frame) =>
        var ok := sub.Send(frame);
        if !ok {
          sub.Drop("slow_consumer");
        }
    }

    // The filter loop of dispatchEvent.
    method FilterTx(tx: Tx, ch: Channel, filter: GrantCells) returns (filtered: seq<Change>, anchorSurvived: bool)
      ensures var ws := Constant(Resolve(filter.auth, filter.prev, tx.commitLSN), |tx.changes|);
        && filtered == Survivors(ch, ws, tx.changes)
        && (anchorSurvived <==> AnchorSurvived(ch, ws, tx.changes))
        && (anchorSurvived ==> filtered != [])
    {
      ghost var w := Resolve(filter.auth, filter.prev, tx.commitLSN);
      filtered, anchorSurvived := [], false;
      for n := 0 to |tx.changes|
        invariant filtered == Survivors(ch, Constant(w, n), tx.changes[..n])
        invariant anchorSurvived <==> AnchorSurvived(ch, Constant(w, n), tx.changes[..n])
        invariant anchorSurvived ==> filtered != []
      {
        assert tx.changes[..n + 1][..n] == tx.changes[..n] && Constant(w, n + 1)[..n] == Constant(w, n);
        var raw := tx.changes[n];
        if raw.schema != ch.schema {
          continue;
        }
        var c, drop := filter.FilterWithLSN(raw, tx.commitLSN);
        if drop {
          continue;
        }
        if MatchesAnchor(ch, raw) {
          anchorSurvived := true;
        }
        filtered := filtered + [c];
      }
      assert tx.changes[..|tx.changes|] == tx.changes;
    }

    /** Index-based routing refines the scan: every registered subscriber ends in
        the state the scan gives it, whatever order the indexes and the
        eligibility set are visited in; nothing else changes. */
    method RouteTx(tx: Tx)
      requires Valid()
      modifies Subs()
      ensures Valid() && Subs() == old(Subs())
      ensures forall s :: s in Subs() ==> s.State() == old(Dispatched(cfg, s, tx))
    {
      var todo := MergeMatches(tx);
      forall s | s in Subs() && s !in todo
        ensures s.State() == Dispatched(cfg, s, tx)
      {
        if s.reason.None? && s.filter != null {
          UnmatchedIsSkipped(cfg, s.channel, s.startLSN, Constant(s.Grant(tx.commitLSN), |tx.changes|), tx);
        }
      }
      DispatchAll(tx, todo);
    }

    // for sub := range eligible
    method DispatchAll(tx: Tx, eligible: set<Subscriber>)
      modifies eligible
      ensures forall s :: s in eligible ==> s.State() == old(Dispatched(cfg, s, tx))
    {
      var todo := eligible;
      while todo != {}
        invariant todo <= eligible
        invariant forall s :: s in eligible && s !in todo ==> s.State() == old(Dispatched(cfg, s, tx))
        invariant forall s :: s in todo ==> unchanged(s)
        decreases todo
      {
        var sub :| sub in todo;
        DispatchEvent(tx, sub);
        todo := todo - {sub};
      }
    }

    method Shutdown()
      requires Valid()
      modifies this, Subs()
      ensures Valid() && closed && Subs() == old(Subs())
      ensures forall s :: s in Subs() ==> s.State() == Dropped(old(s.State()), "shutdown")
    {
      closed := true;
      var subs := Snapshot();
      DropAll(subs);
    }

    method Snapshot() returns (subs: seq<Subscriber>)
      requires Valid()
      ensures forall s :: s in subs <==> s in Subs()
    {
      var rows := exact.Snapshot();
      var tables := wildcard.Snapshot();
      subs := rows + tables;
    }
  }

  method DropAll(subs: seq<Subscriber>)
    modifies set s | s in subs
    ensures forall s :: s in subs ==> s.State() == Dropped(old(s.State()), "shutdown")
  {
    for n := 0 to |subs|
      invariant forall i :: 0 <= i < n ==> subs[i].State() == Dropped(old(subs[i].State()), "shutdown")
      invariant forall i :: n <= i < |subs| ==>
                  unchanged(subs[i]) || subs[i].State() == Dropped(old(subs[i].State()), "shutdown")
    {
      subs[n].Drop("shutdown");
    }
  }
}
