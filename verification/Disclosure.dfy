/** Delivery and the grant refresher together: what reaches a client, when its dispatches
    are filtered by the calls of one run of the refresher's machine
    (internal/router/router.go:195-279, internal/auth/subscriber.go:156-295). */
module Disclosure {
  import opened WalTypes
  import opened Whitelists
  import opened Routing
  import opened Delivery
  import DeliveryTheorems
  import Channels
  import GrantSwap
  import Revocation
  import Framing
  import EndToEnd

  // ----- The two machines in one interleaving -----

  // A run of each, for one subscriber, and for every delivery step the number of
  // refresher steps taken before it.
  datatype Joint = Joint(
    cfg: Config,
    id: SubId,
    steps: seq<Step>,
    st: GrantSwap.Stream,
    initial: Whitelist,
    gsteps: seq<GrantSwap.Step>,
    clock: seq<nat>)
  {
    ghost function Deciding(): Env {
      EndToEnd.EnvOf(cfg)
    }

    // The delivery after i of its steps, the refresher after n of its own.
    ghost function DeliveryAt(i: int): Option<State> {
      if 0 <= i <= |steps| then Run(Deciding(), steps[..i]) else None
    }

    ghost function SwapAt(n: int): Option<GrantSwap.State> {
      if 0 <= n <= |gsteps| then GrantSwap.RunFrom(st, GrantSwap.Init(initial), gsteps[..n]) else None
    }

    // How far the refresher is when the delivery has taken i steps.
    ghost function ClockAt(i: int): nat {
      if 0 <= i < |clock| then clock[i] else |gsteps|
    }

    ghost predicate IsDispatch(i: int) {
      DeliveryTheorems.IsDispatch(Deciding(), steps, id, i)
    }

    ghost function EntryOf(i: int): Entry
      requires IsDispatch(i)
    {
      DeliveryTheorems.EntryOf(Deciding(), steps, id, i)
    }
  }

  // The router of the grant machine has filtered the whole of tx, by the grants ws.
  ghost predicate HasFiltered(st: GrantSwap.Stream, g: GrantSwap.State, tx: Tx, ws: seq<Option<Whitelist>>) {
    && GrantSwap.Enabled(st, g, GrantSwap.EndTx)
    && g.txs[g.router.t] == tx && ws == GrantSwap.Resolved(g.grants, g.router.used)
  }

  // The filter calls of dispatch i begin with its Route and are over after n steps.
  ghost predicate FilteredBy(j: Joint, i: int, n: int) {
    && j.IsDispatch(i) && j.ClockAt(i) < n <= |j.gsteps|
    && j.gsteps[j.ClockAt(i)] == GrantSwap.Route
    && (forall q :: j.ClockAt(i) < q < n ==> j.gsteps[q] != GrantSwap.EndTx)
    && j.SwapAt(n).Some? && HasFiltered(j.st, j.SwapAt(n).value, j.EntryOf(i).tx, j.EntryOf(i).ws)
  }

  // One interleaving of the two: every dispatch is one moment with a Route, and takes
  // its grants from the filter calls that follow it.
  ghost predicate Together(j: Joint) {
    && Run(j.Deciding(), j.steps).Some? && j.id in Run(j.Deciding(), j.steps).value.subs
    && GrantSwap.RunFrom(j.st, GrantSwap.Init(j.initial), j.gsteps).Some?
    && |j.clock| == |j.steps| && (forall i :: 0 <= i < |j.clock| ==> j.clock[i] <= |j.gsteps|)
    && (forall a, b :: 0 <= a < b < |j.clock| ==> j.clock[a] <= j.clock[b])
    && (forall a, b :: 0 <= a < b < |j.clock| && j.IsDispatch(a) ==> j.clock[a] < j.clock[b])
    && (forall i :: j.IsDispatch(i) ==> exists n :: FilteredBy(j, i, n))
  }

  ghost function Client(j: Joint): Sub
    requires Together(j)
  {
    Run(j.Deciding(), j.steps).value.subs[j.id]
  }

  ghost function AllGrants(j: Joint): seq<Whitelist>
    requires Together(j)
  {
    GrantSwap.RunFrom(j.st, GrantSwap.Init(j.initial), j.gsteps).value.grants
  }

  // ----- From a frame back to its dispatch -----

  lemma {:induction false} ProducedFrom(cfg: Config, ch: Channel, start: LSN, log: seq<Entry>, text: string)
    returns (x: nat)
    requires text in Produced(EndToEnd.EnvOf(cfg), ch, start, log)
    ensures x < |log| && |log[x].ws| == |log[x].tx.changes|
    ensures var f := Decide(cfg, ch, start, log[x].ws, log[x].tx); f.Frame? && f.text == text
  {
    var n := |log| - 1;
    if text in FramesOf(EndToEnd.EnvOf(cfg), ch, start, log[n]) {
      x := n;
    } else {
      x := ProducedFrom(cfg, ch, start, log[..n], text);
    }
  }

  // The transaction is the one committed at that position.
  ghost predicate IsCommitted(j: Joint, e: Entry)
    requires Together(j)
  {
    var committed := Run(j.Deciding(), j.steps).value.committed;
    0 <= e.index < |committed| && committed[e.index] == e.tx
  }

  // The frame is what dispatch i made of its transaction.
  ghost predicate FrameOf(j: Joint, i: int, text: string)
    requires Together(j)
  {
    && j.IsDispatch(i) && IsCommitted(j, j.EntryOf(i)) && |j.EntryOf(i).ws| == |j.EntryOf(i).tx.changes|
    && var f := Decide(j.cfg, Client(j).channel, Client(j).startLSN, j.EntryOf(i).ws, j.EntryOf(i).tx);
       f.Frame? && f.text == text
  }

  lemma WrittenFrom(j: Joint, text: string) returns (i: nat, n: nat)
    requires Together(j) && text in Written(Client(j).out)
    ensures FrameOf(j, i, text) && FilteredBy(j, i, n) && j.EntryOf(i) in Client(j).log
  {
    var sub := Client(j);
    DeliveryTheorems.FramesAreConserved(j.Deciding(), j.steps, j.id);
    assert text in Produced(j.Deciding(), sub.channel, sub.startLSN, sub.log);
    var x := ProducedFrom(j.cfg, sub.channel, sub.startLSN, sub.log, text);
    var at := DeliveryTheorems.LogOrigins(j.Deciding(), j.steps, j.id);
    i := at[x];
    assert j.IsDispatch(i) && j.EntryOf(i) == sub.log[x];
    n :| FilteredBy(j, i, n);
  }

  // ----- Only granted columns -----

  // A grant for the user that holds the table of the channel.
  ghost predicate Trusted(w: Whitelist, userID: string, table: string) {
    w.userID == userID && table in w.tables
  }

  // What is shown as c is change i of the transaction, nothing but its key column and
  // columns the grant used for it allows, unaltered.
  ghost predicate ShownUnder(changes: seq<Change>, ws: seq<Option<Whitelist>>, userID: string, table: string, c: Change,
                             i: int)
  {
    && 0 <= i < |changes| == |ws| && ws[i].Some? && Trusted(ws[i].value, userID, table)
    && changes[i].table in ws[i].value.tables
    && (c.schema, c.table, c.op, c.pk) == (changes[i].schema, changes[i].table, changes[i].op, changes[i].pk)
    && forall col :: col in Shown(c) ==>
         && (col == changes[i].pkCol || ws[i].value.Allowed(changes[i].table, col))
         && (Holds(Entries(changes[i].data), col, Shown(c)[col])
             || Holds(Entries(changes[i].changed), col, Shown(c)[col]))
  }

  ghost predicate Holds(columns: Columns, col: string, v: Value) {
    col in columns && columns[col] == v
  }

  ghost predicate ShowsGranted(changes: seq<Change>, ws: seq<Option<Whitelist>>, userID: string, table: string,
                               c: Change)
  {
    exists i :: ShownUnder(changes, ws, userID, table, c, i)
  }

  lemma KeptShowsGranted(ch: Channel, ws: seq<Option<Whitelist>>, tx: Tx, userID: string, table: string, c: Change)
    requires |ws| == |tx.changes| && c in Survivors(ch, ws, tx.changes)
    requires forall i :: 0 <= i < |ws| && ws[i].Some? ==> Trusted(ws[i].value, userID, table)
    ensures ShowsGranted(tx.changes, ws, userID, table, c)
  {
    var i := KeptComesFrom(ch, ws, tx.changes, c);
    VisibleIsExact(ws[i].value, tx.changes[i]);
    assert ShownUnder(tx.changes, ws, userID, table, c, i);
  }

  // The stream was opened on this table, or a row of it, with this grant.
  ghost predicate OpenedOn(j: Joint, size: string -> nat, table: string, pk: Option<string>) {
    && Some(j.st.channel)
       == (if pk.Some? then Channels.ExactChannel(size, table, pk.value) else Channels.WildcardChannel(table))
    && j.st.userID == j.initial.userID && table in j.initial.tables
  }

  lemma ResolvedAreTrusted(j: Joint, size: string -> nat, table: string, pk: Option<string>, i: int, n: int)
    requires OpenedOn(j, size, table, pk) && FilteredBy(j, i, n)
    ensures var ws := j.EntryOf(i).ws;
      forall x :: 0 <= x < |ws| && ws[x].Some? ==> Trusted(ws[x].value, j.initial.userID, table)
  {
    Revocation.OnlyTrustedGrants(size, table, pk, j.st, j.initial, j.gsteps[..n]);
  }

  /** Nothing ungranted reaches a client: every frame it is ever written is the event
      block of the changes of one committed transaction that the grants used for them let
      through, each shown with its key column and columns that a grant for the client's
      user and table allows and no other, whatever the backend answers and however
      refreshes, filter calls, drops and deliveries interleave. */
  lemma WrittenShowsOnlyGranted(j: Joint, codec: Framing.Codec, maxPayloadBytes: int, size: string -> nat,
                                table: string, pk: Option<string>, text: string)
    returns (i: nat, n: nat, kept: seq<Change>)
    requires EndToEnd.Encodes(j.cfg, codec, maxPayloadBytes) && Together(j) && OpenedOn(j, size, table, pk)
    requires text in Written(Client(j).out)
    ensures FilteredBy(j, i, n)
    ensures var e := j.EntryOf(i);
      && e in Client(j).log && IsCommitted(j, e) && |e.ws| == |e.tx.changes|
      && text == Framing.Bytes(Framing.TxFrame(e.tx.id, EndToEnd.PayloadOfKept(codec, e.tx, kept)))
      && kept == Survivors(Client(j).channel, e.ws, e.tx.changes)
      && (forall c :: c in kept ==> ShowsGranted(e.tx.changes, e.ws, j.initial.userID, table, c))
  {
    i, n := WrittenFrom(j, text);
    var sub, e := Client(j), j.EntryOf(i);
    kept := Survivors(sub.channel, e.ws, e.tx.changes);
    EndToEnd.FrameText(j.cfg, codec, maxPayloadBytes, sub.channel, sub.startLSN, e.ws, e.tx);
    ResolvedAreTrusted(j, size, table, pk, i, n);
    forall c | c in kept
      ensures ShowsGranted(e.tx.changes, e.ws, j.initial.userID, table, c)
    {
      KeptShowsGranted(sub.channel, e.ws, e.tx, j.initial.userID, table, c);
    }
  }

  // ----- One grant -----

  // With the filter calls over after n steps: if the transaction lies between the
  // boundaries of the grants around it, the grant it began under gives the frame alone.
  ghost predicate UnderOneGrant(j: Joint, i: int, n: int, text: string)
    requires Together(j) && FilteredBy(j, i, n)
  {
    var tx, g := j.EntryOf(i).tx, j.SwapAt(n).value;
    GrantSwap.Bounded(g, g.router.t, g.router.start) ==>
      var one := Constant(Some(g.grants[g.router.start]), |tx.changes|);
      var f := Decide(j.cfg, Client(j).channel, Client(j).startLSN, one, tx);
      f.Frame? && f.text == text
  }

  lemma DispatchUnderOneGrant(j: Joint, i: int, n: int, text: string)
    requires Together(j) && Client(j).channel.schema == j.st.schema
    requires FrameOf(j, i, text) && FilteredBy(j, i, n)
    ensures UnderOneGrant(j, i, n, text)
  {
    var g := j.SwapAt(n).value;
    assert GrantSwap.Reachable(j.st, g);
    if GrantSwap.Bounded(g, g.router.t, g.router.start) {
      GrantSwap.FrameUnderOneGrant(j.cfg, Client(j).channel, Client(j).startLSN, j.st, g);
    }
  }

  /** One grant, end to end: every frame written is what a dispatch made of its
      transaction; and at whatever moment the filter calls of that dispatch are over, if
      the transaction lies between the boundaries of the grants around it, the frame is
      the one the grant it began under gives alone. */
  lemma WrittenUnderOneGrant(j: Joint, text: string) returns (i: nat, n: nat)
    requires Together(j) && Client(j).channel.schema == j.st.schema && text in Written(Client(j).out)
    ensures FrameOf(j, i, text) && FilteredBy(j, i, n) && j.EntryOf(i) in Client(j).log
    ensures forall m :: FilteredBy(j, i, m) ==> UnderOneGrant(j, i, m, text)
  {
    i, n := WrittenFrom(j, text);
    forall m | FilteredBy(j, i, m)
      ensures UnderOneGrant(j, i, m, text)
    {
      DispatchUnderOneGrant(j, i, m, text);
    }
  }

  // ----- No stale grant -----

  // The refresher's machine between two moments.
  lemma SwapFrom(j: Joint, a: int, b: int)
    requires Together(j) && 0 <= a <= b <= |j.gsteps|
    ensures j.SwapAt(a).Some? && j.SwapAt(b).Some? && GrantSwap.Inv(j.st, j.SwapAt(a).value)
    ensures GrantSwap.RunFrom(j.st, j.SwapAt(a).value, j.gsteps[a..b]) == j.SwapAt(b)
    ensures GrantSwap.Grows(j.SwapAt(a).value, j.SwapAt(b).value)
  {
    var s0 := GrantSwap.Init(j.initial);
    RunPrefix(j.st, s0, j.gsteps, b);
    assert j.gsteps[..b][..a] == j.gsteps[..a] && j.gsteps[..a] + j.gsteps[a..b] == j.gsteps[..b];
    RunPrefix(j.st, s0, j.gsteps[..b], a);
    GrantSwap.RunAppend(j.st, s0, j.gsteps[..a], j.gsteps[a..b]);
    GrantSwap.RunInv(j.st, s0, j.gsteps[..a]);
    GrantSwap.GrowsRun(j.st, j.SwapAt(a).value, j.gsteps[a..b]);
  }

  lemma {:induction false} RunPrefix(st: GrantSwap.Stream, s: GrantSwap.State, gsteps: seq<GrantSwap.Step>, n: nat)
    requires n <= |gsteps| && GrantSwap.RunFrom(st, s, gsteps).Some?
    ensures GrantSwap.RunFrom(st, s, gsteps[..n]).Some?
    decreases |gsteps|
  {
    if n == |gsteps| {
      assert gsteps[..n] == gsteps;
    } else {
      assert gsteps[..|gsteps| - 1][..n] == gsteps[..n];
      RunPrefix(st, s, gsteps[..|gsteps| - 1], n);
    }
  }

  lemma SwapNext(j: Joint, n: int)
    requires Together(j) && 0 <= n < |j.gsteps|
    ensures j.SwapAt(n).Some? && GrantSwap.Enabled(j.st, j.SwapAt(n).value, j.gsteps[n])
    ensures j.SwapAt(n + 1) == Some(GrantSwap.Apply(j.st, j.SwapAt(n).value, j.gsteps[n]))
  {
    RunNext(j.st, GrantSwap.Init(j.initial), j.gsteps, n);
  }

  lemma RunNext(st: GrantSwap.Stream, s: GrantSwap.State, gsteps: seq<GrantSwap.Step>, n: nat)
    requires n < |gsteps| && GrantSwap.RunFrom(st, s, gsteps).Some?
    ensures var before := GrantSwap.RunFrom(st, s, gsteps[..n]);
      && before.Some? && GrantSwap.Enabled(st, before.value, gsteps[n])
      && GrantSwap.RunFrom(st, s, gsteps[..n + 1]) == Some(GrantSwap.Apply(st, before.value, gsteps[n]))
  {
    var upTo := gsteps[..n + 1];
    RunPrefix(st, s, gsteps, n + 1);
    assert upTo[..|upTo| - 1] == gsteps[..n] && upTo[|upTo| - 1] == gsteps[n];
  }

  // The router waits when a dispatch begins.
  lemma RouteWaits(j: Joint, i: int, n: int)
    requires Together(j) && FilteredBy(j, i, n)
    ensures j.SwapAt(j.ClockAt(i)).Some? && j.SwapAt(j.ClockAt(i)).value.router.Waiting?
  {
    SwapNext(j, j.ClockAt(i));
  }

  // In the end the grants of every moment are there.
  lemma GrantsStay(j: Joint, n: int)
    requires Together(j) && 0 <= n <= |j.gsteps|
    ensures j.SwapAt(n).Some? && j.SwapAt(n).value.grants <= AllGrants(j)
  {
    SwapFrom(j, n, |j.gsteps|);
    assert j.gsteps[..|j.gsteps|] == j.gsteps;
  }

  lemma FreshWhenOver(j: Joint, i: int, n: int, k: nat)
    requires Together(j) && FilteredBy(j, i, n)
    requires j.SwapAt(j.ClockAt(i)).Some? && k <= j.SwapAt(j.ClockAt(i)).value.auth
    ensures GrantSwap.FilteredFresh(j.st, j.SwapAt(n).value, k)
  {
    var p := j.ClockAt(i);
    RouteWaits(j, i, n);
    SwapFrom(j, p, n);
    GrantSwap.NoStaleTx(j.st, j.SwapAt(p).value, j.gsteps[p..n], k);
  }

  // A dispatch that begins when Auth points at grant k or a newer one.
  lemma DispatchIsFresh(j: Joint, i: int, n: int, k: nat)
    requires Together(j) && FilteredBy(j, i, n)
    requires j.SwapAt(j.ClockAt(i)).Some? && k <= j.SwapAt(j.ClockAt(i)).value.auth
    ensures var e, g := j.EntryOf(i), j.SwapAt(n).value;
      && k < |g.grants| && g.grants <= AllGrants(j)
      && (e.tx.commitLSN > AllGrants(j)[k].refreshLSN ==>
            GrantSwap.AtLeast(j.st.schema, e.tx.changes, g.router.used, k))
  {
    FreshWhenOver(j, i, n, k);
    GrantsStay(j, n);
  }

  // Every change of the schema was filtered by grant k or a newer one.
  ghost predicate ShowsFrom(grants: seq<Whitelist>, schema: string, changes: seq<Change>, ws: seq<Option<Whitelist>>,
                            k: nat)
  {
    && |ws| == |changes|
    && forall x :: 0 <= x < |changes| && changes[x].schema == schema ==> IsFrom(grants, ws[x], k)
  }

  ghost predicate IsFrom(grants: seq<Whitelist>, w: Option<Whitelist>, k: nat) {
    exists v :: k <= v < |grants| && w == Some(grants[v])
  }

  lemma FreshShows(st: GrantSwap.Stream, g: GrantSwap.State, grants: seq<Whitelist>, tx: Tx,
                   ws: seq<Option<Whitelist>>, k: nat)
    requires HasFiltered(st, g, tx, ws) && g.grants <= grants
    requires GrantSwap.UsedStored(g) && g.auth < |g.grants|
    requires GrantSwap.AtLeast(st.schema, tx.changes, g.router.used, k)
    ensures ShowsFrom(grants, st.schema, tx.changes, ws, k)
  {
    forall x | 0 <= x < |tx.changes| && tx.changes[x].schema == st.schema
      ensures IsFrom(grants, ws[x], k)
    {
      var v := g.router.used[x].value;
      assert k <= v < |grants| && ws[x] == Some(grants[v]);
    }
  }

  lemma StoredAt(j: Joint, n: int)
    requires Together(j) && 0 <= n <= |j.gsteps|
    ensures j.SwapAt(n).Some? && GrantSwap.UsedStored(j.SwapAt(n).value)
    ensures j.SwapAt(n).value.auth < |j.SwapAt(n).value.grants|
  {
    SwapFrom(j, n, n);
    GrantSwap.UsedStoredRun(j.st, GrantSwap.Init(j.initial), j.gsteps[..n]);
  }

  lemma DispatchShowsFrom(j: Joint, i: int, k: nat)
    requires Together(j) && j.IsDispatch(i)
    requires j.SwapAt(j.ClockAt(i)).Some? && k <= j.SwapAt(j.ClockAt(i)).value.auth
    ensures var e := j.EntryOf(i);
      && k < |AllGrants(j)|
      && (e.tx.commitLSN > AllGrants(j)[k].refreshLSN ==>
            ShowsFrom(AllGrants(j), j.st.schema, e.tx.changes, e.ws, k))
  {
    var n :| FilteredBy(j, i, n);
    var e := j.EntryOf(i);
    DispatchIsFresh(j, i, n, k);
    StoredAt(j, n);
    if e.tx.commitLSN > AllGrants(j)[k].refreshLSN {
      FreshShows(j.st, j.SwapAt(n).value, AllGrants(j), e.tx, e.ws, k);
    }
  }

  // A dispatch of a transaction not taken after m steps comes later.
  lemma TakenLater(j: Joint, i: int, m: nat)
    requires Together(j) && j.IsDispatch(i) && m <= |j.steps|
    ensures j.DeliveryAt(m).Some?
    ensures j.EntryOf(i).index >= j.DeliveryAt(m).value.taken ==> m <= i
  {
    DeliveryTheorems.TakenGrows(j.Deciding(), j.steps, m);
    if i < m {
      assert j.steps[..m][..i] == j.steps[..i];
      DeliveryTheorems.TakenGrows(j.Deciding(), j.steps[..m], i);
    }
  }

  lemma DispatchAfter(j: Joint, m: nat, k: nat, i: int)
    requires Together(j) && m <= |j.steps| && j.IsDispatch(i)
    requires j.SwapAt(j.ClockAt(m)).Some? && k <= j.SwapAt(j.ClockAt(m)).value.auth
    ensures j.DeliveryAt(m).Some?
    ensures var e := j.EntryOf(i);
      && k < |AllGrants(j)|
      && (e.index >= j.DeliveryAt(m).value.taken && e.tx.commitLSN > AllGrants(j)[k].refreshLSN ==>
            ShowsFrom(AllGrants(j), j.st.schema, e.tx.changes, e.ws, k))
  {
    TakenLater(j, i, m);
    StoredAt(j, j.ClockAt(m));
    GrantsStay(j, j.ClockAt(m));
    if m <= i {
      SwapFrom(j, j.ClockAt(m), j.ClockAt(i));
      DispatchShowsFrom(j, i, k);
    }
  }

  /** No stale grant, end to end: whatever is written are the frames of the dispatches,
      in their order; and once Auth points at grant k, every change of the schema in a
      transaction the router takes from then on, above boundary k, is shown under grant k
      or a newer one, over any further refreshes and deliveries. */
  lemma NothingStaleIsWritten(j: Joint, m: nat, k: nat)
    requires Together(j) && m <= |j.steps|
    requires j.SwapAt(j.ClockAt(m)).Some? && k <= j.SwapAt(j.ClockAt(m)).value.auth
    ensures var sub := Client(j);
      Written(sub.out) <= Produced(j.Deciding(), sub.channel, sub.startLSN, sub.log)
    ensures j.DeliveryAt(m).Some? && k < |AllGrants(j)|
    ensures forall e :: e in Client(j).log && e.index >= j.DeliveryAt(m).value.taken
                        && e.tx.commitLSN > AllGrants(j)[k].refreshLSN ==>
              ShowsFrom(AllGrants(j), j.st.schema, e.tx.changes, e.ws, k)
  {
    DeliveryTheorems.FramesAreConserved(j.Deciding(), j.steps, j.id);
    DeliveryTheorems.TakenGrows(j.Deciding(), j.steps, m);
    StoredAt(j, j.ClockAt(m));
    GrantsStay(j, j.ClockAt(m));
    var at := DeliveryTheorems.LogOrigins(j.Deciding(), j.steps, j.id);
    forall e | e in Client(j).log && e.index >= j.DeliveryAt(m).value.taken
               && e.tx.commitLSN > AllGrants(j)[k].refreshLSN
      ensures ShowsFrom(AllGrants(j), j.st.schema, e.tx.changes, e.ws, k)
    {
      var x :| 0 <= x < |at| && Client(j).log[x] == e;
      assert j.IsDispatch(at[x]) && j.EntryOf(at[x]) == e;
      DispatchAfter(j, m, k, at[x]);
    }
  }

  // The filter calls of a dispatch are over before the next dispatch begins.
  lemma OverBeforeNext(j: Joint, a: int, b: int, n: int, q: int)
    requires Together(j) && a < b && FilteredBy(j, a, n) && FilteredBy(j, b, q)
    ensures n <= j.ClockAt(b)
  {
    var p := j.ClockAt(b);
    if p < n {
      RouteWaits(j, b, q);
      StaysRouting(j, a, n, p);
    }
  }

  // From its Route on, until EndTx, the router does not wait.
  lemma {:induction false} StaysRouting(j: Joint, a: int, n: int, p: nat)
    requires Together(j) && FilteredBy(j, a, n) && j.ClockAt(a) < p <= n
    ensures j.SwapAt(p).Some? && !j.SwapAt(p).value.router.Waiting?
    decreases p
  {
    SwapNext(j, p - 1);
    if p > j.ClockAt(a) + 1 {
      StaysRouting(j, a, n, p - 1);
      StillRouting(j.st, j.SwapAt(p - 1).value, j.gsteps[p - 1]);
    }
  }

  lemma StillRouting(st: GrantSwap.Stream, g: GrantSwap.State, step: GrantSwap.Step)
    requires GrantSwap.Enabled(st, g, step) && !g.router.Waiting? && !step.EndTx?
    ensures !GrantSwap.Apply(st, g, step).router.Waiting?
  {
  }

  // The grants the filter calls of a dispatch used.
  ghost function UsedBy(j: Joint, i: int, n: int): seq<Option<nat>>
    requires FilteredBy(j, i, n)
  {
    j.SwapAt(n).value.router.used
  }

  lemma UsedWhenOver(j: Joint, i: int, n: int, x: nat)
    requires Together(j) && FilteredBy(j, i, n)
    requires x < |UsedBy(j, i, n)| && UsedBy(j, i, n)[x].Some?
    ensures UsedBy(j, i, n)[x].value <= j.SwapAt(n).value.auth
  {
    StoredAt(j, n);
  }

  lemma AuthGrows(j: Joint, n: int, m: int)
    requires Together(j) && 0 <= n <= m <= |j.gsteps|
    ensures j.SwapAt(n).Some? && j.SwapAt(m).Some? && j.SwapAt(n).value.auth <= j.SwapAt(m).value.auth
  {
    SwapFrom(j, n, m);
  }

  lemma UsedBefore(j: Joint, a: int, b: int, n: int, q: int, x: nat)
    requires Together(j) && a < b && FilteredBy(j, a, n) && FilteredBy(j, b, q)
    requires x < |UsedBy(j, a, n)| && UsedBy(j, a, n)[x].Some?
    ensures j.SwapAt(j.ClockAt(b)).Some? && UsedBy(j, a, n)[x].value <= j.SwapAt(j.ClockAt(b)).value.auth
  {
    OverBeforeNext(j, a, b, n, q);
    UsedWhenOver(j, a, n, x);
    AuthGrows(j, n, j.ClockAt(b));
  }

  /** A client never goes back to an older grant: where a dispatch used grant v for a
      change, every later dispatch filters each transaction above boundary v by grant v or
      newer ones throughout. */
  lemma GrantsNeverGoBack(j: Joint, a: int, b: int, n: int, q: int, x: nat)
    requires Together(j) && a < b && FilteredBy(j, a, n) && FilteredBy(j, b, q)
    requires x < |UsedBy(j, a, n)| && UsedBy(j, a, n)[x].Some?
    ensures var v, tx := UsedBy(j, a, n)[x].value, j.EntryOf(b).tx;
      && v < |AllGrants(j)|
      && (tx.commitLSN > AllGrants(j)[v].refreshLSN ==>
            GrantSwap.AtLeast(j.st.schema, tx.changes, UsedBy(j, b, q), v))
  {
    UsedBefore(j, a, b, n, q, x);
    DispatchIsFresh(j, b, q, UsedBy(j, a, n)[x].value);
  }
}
