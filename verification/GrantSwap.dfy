/** A subscriber's grant replaced while the router filters (internal/auth/subscriber.go,
    FilterWithLSN, RefreshLoop, tryRefresh and swapMap; internal/wal/reader.go, setLSN
    before hand-off). One reader, one router and one refresher interleave with a backend
    that answers anything; every load and store of a shared pointer is a step. */
module GrantSwap {
  import opened WalTypes
  import opened Whitelists
  import opened Routing
  import opened Channels

  // What does not change over a stream's life.
  datatype Stream = Stream(schema: string, channel: string, userID: string, backoffs: nat)

  // Where the refresher stands: in the select of its loop, in or between backend calls,
  // or between the steps of swapMap (read the LSN stamp, store Prev, store Auth).
  datatype Refresher =
    | Selecting
    | Fetching(attempt: nat)
    | Backing(attempt: nat)
    | Stamped
    | PrevStored
    | Stopped
  {
    predicate Swapping() {
      Stamped? || PrevStored?
    }
  }

  // One filter call of the past: the pointer it loaded first, the grant it used.
  datatype Call = Call(txLSN: LSN, loaded: nat, used: Option<nat>)

  datatype RouterPc =
    | Waiting
    // Filtering transaction t; start is the Auth pointer when routing it began, and
    // quiet says that no swap had read its stamp and not finished then.
    | Routing(t: nat, start: nat, quiet: bool, used: seq<Option<nat>>)
    // Loaded Auth and found the transaction at or below its boundary.
    | NeedsPrev(t: nat, start: nat, quiet: bool, used: seq<Option<nat>>, loaded: nat)

  // Pointers are positions in the history of grants. Done is closed when dropped.
  datatype State = State(
    txs: seq<Tx>,
    lsn: LSN,
    handed: nat,
    taken: nat,
    grants: seq<Whitelist>,
    auth: nat,
    prev: Option<nat>,
    refresher: Refresher,
    dropped: bool,
    // History: the backend refused, or granted something else than the channel.
    refused: bool,
    router: RouterPc,
    calls: seq<Call>)

  ghost function Init(initial: Whitelist): State {
    State([], 0, 0, 0, [initial.(refreshLSN := 0)], 0, None, Selecting, false, false, Waiting, [])
  }

  // Steps of the refresher, and a drop by anyone.
  datatype Refresh =
    | Tick
    | Answer(response: Response)
    | Backoff
    | StorePrev
    | StoreAuth
    | SeeDone
    | ContextEnds
    | Drop

  datatype Step =
    | SlotCreated(lsn: LSN)
    | Record(tx: Tx)
    | HandOff
    | Refreshing(refresh: Refresh)
    | PassOver
    | Route
    | SkipChange
    | LoadAuth
    | LoadPrev
    | EndTx

  ghost predicate AtChange(s: State) {
    s.router.Routing? && s.router.t < |s.txs| && |s.router.used| < |s.txs[s.router.t].changes|
  }

  ghost function NextChange(s: State): Change
    requires AtChange(s)
  {
    s.txs[s.router.t].changes[|s.router.used|]
  }

  ghost predicate RefresherEnabled(s: State, refresh: Refresh) {
    match refresh
    // A pending tick can be chosen although Done is closed.
    case Tick => s.refresher.Selecting?
    case Answer(_) => s.refresher.Fetching?
    case Backoff => s.refresher.Backing?
    case StorePrev => s.refresher.Stamped?
    case StoreAuth => s.refresher.PrevStored? && |s.grants| > 0
    case SeeDone => s.dropped && (s.refresher.Selecting? || s.refresher.Backing?)
    case ContextEnds => s.refresher.Selecting? || s.refresher.Fetching? || s.refresher.Backing?
    // Anyone may drop the subscriber at any time.
    case Drop => true
  }

  ghost predicate Enabled(st: Stream, s: State, step: Step) {
    match step
    // Recorded positions never decrease.
    case SlotCreated(lsn) => lsn >= s.lsn
    case Record(tx) => s.handed == |s.txs| && tx.commitLSN >= s.lsn
    case HandOff => s.handed < |s.txs|
    case Refreshing(refresh) => RefresherEnabled(s, refresh)
    case PassOver => s.router.Waiting? && s.taken < s.handed
    // A dropped subscriber is passed over.
    case Route => s.router.Waiting? && s.taken < s.handed && !s.dropped
    case SkipChange => AtChange(s) && NextChange(s).schema != st.schema
    case LoadAuth => AtChange(s) && NextChange(s).schema == st.schema && s.auth < |s.grants|
    case LoadPrev => s.router.NeedsPrev? && s.router.t < |s.txs|
    case EndTx => s.router.Routing? && s.router.t < |s.txs| && |s.router.used| == |s.txs[s.router.t].changes|
  }

  ghost function DoLoadAuth(st: Stream, s: State): State
    requires Enabled(st, s, LoadAuth)
  {
    var r, txLSN := s.router, s.txs[s.router.t].commitLSN;
    if txLSN <= s.grants[s.auth].refreshLSN then
      s.(router := NeedsPrev(r.t, r.start, r.quiet, r.used, s.auth))
    else
      s.(router := Routing(r.t, r.start, r.quiet, r.used + [Some(s.auth)]),
         calls := s.calls + [Call(txLSN, s.auth, Some(s.auth))])
  }

  ghost function DoLoadPrev(st: Stream, s: State): State
    requires Enabled(st, s, LoadPrev)
  {
    var r := s.router;
    s.(router := Routing(r.t, r.start, r.quiet, r.used + [s.prev]),
       calls := s.calls + [Call(s.txs[r.t].commitLSN, r.loaded, s.prev)])
  }

  // applyFetched, and the read of the stamp when it goes on to swap.
  ghost function DoAnswer(st: Stream, s: State, response: Response): State
    requires s.refresher.Fetching?
  {
    if Refuses(st.channel, st.userID, response) then s.(refresher := Selecting, dropped := true, refused := true)
    else
      match response
      case Allows(grant) => s.(grants := s.grants + [StoredCopy(grant.value, s.lsn)], refresher := Stamped)
      case Unavailable =>
        if s.refresher.attempt == st.backoffs then s.(refresher := Selecting, dropped := true)
        else s.(refresher := Backing(s.refresher.attempt))
      case _ => s.(refresher := Selecting, dropped := true)
  }

  ghost function Refreshed(st: Stream, s: State, refresh: Refresh): State
    requires RefresherEnabled(s, refresh)
  {
    match refresh
    case Tick => s.(refresher := Fetching(0))
    case Answer(response) => DoAnswer(st, s, response)
    case Backoff => s.(refresher := Fetching(s.refresher.attempt + 1))
    case StorePrev => s.(prev := Some(s.auth), refresher := PrevStored)
    case StoreAuth => s.(auth := |s.grants| - 1, refresher := Selecting)
    // Between attempts the wait ends, in the loop the refresher.
    case SeeDone => s.(refresher := if s.refresher.Backing? then Selecting else Stopped)
    case ContextEnds => s.(refresher := Stopped)
    case Drop => s.(dropped := true)
  }

  ghost function Apply(st: Stream, s: State, step: Step): State
    requires Enabled(st, s, step)
  {
    match step
    case SlotCreated(lsn) => s.(lsn := lsn)
    case Record(tx) => s.(txs := s.txs + [tx], lsn := tx.commitLSN)
    case HandOff => s.(handed := s.handed + 1)
    case Refreshing(refresh) => Refreshed(st, s, refresh)
    case PassOver => s.(taken := s.taken + 1)
    case Route => s.(taken := s.taken + 1, router := Routing(s.taken, s.auth, !s.refresher.Swapping(), []))
    case SkipChange =>
      s.(router := Routing(s.router.t, s.router.start, s.router.quiet, s.router.used + [None]))
    case LoadAuth => DoLoadAuth(st, s)
    case LoadPrev => DoLoadPrev(st, s)
    case EndTx => s.(router := Waiting)
  }

  ghost function RunFrom(st: Stream, s: State, steps: seq<Step>): Option<State> {
    if steps == [] then Some(s)
    else
      var before := RunFrom(st, s, steps[..|steps| - 1]);
      var step := steps[|steps| - 1];
      if before.Some? && Enabled(st, before.value, step) then Some(Apply(st, before.value, step)) else None
  }

  ghost predicate Reachable(st: Stream, s: State) {
    exists initial, steps :: RunFrom(st, Init(initial), steps) == Some(s)
  }

  // ----- Pointers -----

  // Prev trails Auth by one, except between the two stores of a swap.
  ghost predicate PointersInv(s: State) {
    && |s.grants| > 0
    && (if s.refresher.Swapping() then s.auth == |s.grants| - 2 else s.auth == |s.grants| - 1)
    && s.prev == (if s.refresher.PrevStored? then Some(s.auth) else if s.auth == 0 then None else Some(s.auth - 1))
    && s.taken <= s.handed <= |s.txs|
    && (forall i :: 0 <= i < |s.txs| ==> s.txs[i].commitLSN <= s.lsn)
    // Boundaries grow along the history.
    && (forall i :: 0 <= i < |s.grants| ==> s.grants[i].refreshLSN <= s.lsn)
    && (forall i, j :: 0 <= i < j < |s.grants| ==> s.grants[i].refreshLSN <= s.grants[j].refreshLSN)
  }

  // The grant used is the loaded one above its boundary, otherwise at most one older.
  ghost predicate CallInv(s: State, c: Call) {
    && c.loaded <= s.auth && c.loaded < |s.grants|
    && (c.txLSN > s.grants[c.loaded].refreshLSN ==> c.used == Some(c.loaded))
    && (c.loaded > 0 ==> c.used.Some?)
    && (c.used.Some? ==> c.loaded - 1 <= c.used.value < |s.grants|)
  }

  ghost predicate CallsInv(s: State) {
    forall i :: 0 <= i < |s.calls| ==> CallInv(s, s.calls[i])
  }

  // ----- One transaction, one grant -----

  // At most one swap has stored a pointer since routing of the current transaction
  // began, and the transaction lies between the boundaries of the two grants.
  ghost predicate Bounded(s: State, t: nat, start: nat) {
    && t < |s.txs| && start < |s.grants|
    && s.txs[t].commitLSN > s.grants[start].refreshLSN
    && (s.prev.Some? ==> s.prev.value <= start)
    && (start + 1 < |s.grants| ==> s.txs[t].commitLSN <= s.grants[start + 1].refreshLSN)
  }

  ghost predicate Uniform(schema: string, changes: seq<Change>, used: seq<Option<nat>>, g: Option<nat>) {
    && |used| <= |changes|
    && forall i :: 0 <= i < |used| && changes[i].schema == schema ==> used[i] == g
  }

  // The grant a filter call made now uses on a transaction at this position.
  ghost function Current(s: State, lsn: LSN): Option<nat>
    requires s.auth < |s.grants|
  {
    if lsn > s.grants[s.auth].refreshLSN then Some(s.auth) else s.prev
  }

  // Every filter call on the transaction so far used what one made now would use: no
  // swap has stored Auth since routing began, nor Prev if that matters.
  ghost predicate Steady(s: State, t: nat, start: nat) {
    && t < |s.txs| && start < |s.grants| && s.auth == start
    && (s.refresher.PrevStored? ==> s.txs[t].commitLSN > s.grants[start].refreshLSN)
  }

  ghost predicate RouterBounds(s: State) {
    !s.router.Waiting? ==>
      var r := s.router;
      && r.t < s.taken <= |s.txs| && r.start <= s.auth < |s.grants| && |r.used| <= |s.txs[r.t].changes|
      // A swap that read its stamp after routing began read it after r.t was recorded.
      && (r.quiet && r.start + 1 < |s.grants| ==> s.txs[r.t].commitLSN <= s.grants[r.start + 1].refreshLSN)
      && (r.NeedsPrev? ==>
            && |r.used| < |s.txs[r.t].changes|
            && r.start <= r.loaded <= s.auth && s.txs[r.t].commitLSN <= s.grants[r.loaded].refreshLSN)
  }

  ghost predicate RouterUniform(st: Stream, s: State) {
    !s.router.Waiting? && s.router.t < |s.txs| ==>
      var r := s.router;
      && (r.NeedsPrev? ==>
            |r.used| < |s.txs[r.t].changes| && s.txs[r.t].changes[|r.used|].schema == st.schema)
      && (Bounded(s, r.t, r.start) ==> Uniform(st.schema, s.txs[r.t].changes, r.used, Some(r.start)))
      && (Steady(s, r.t, r.start) ==>
            Uniform(st.schema, s.txs[r.t].changes, r.used, Current(s, s.txs[r.t].commitLSN)))
  }

  ghost predicate Inv(st: Stream, s: State) {
    PointersInv(s) && CallsInv(s) && RouterBounds(s) && RouterUniform(st, s)
  }

  // What a step of the refresher, or a drop, can change.
  ghost predicate RefreshFrame(s: State, t: State) {
    && t.txs == s.txs && t.lsn == s.lsn && t.handed == s.handed && t.taken == s.taken
    && t.router == s.router && t.calls == s.calls
    && s.grants <= t.grants && |t.grants| <= |s.grants| + 1 && s.auth <= t.auth
    && (|t.grants| > |s.grants| ==> t.grants[|s.grants|].refreshLSN == s.lsn && t.auth == s.auth && t.prev == s.prev)
    && (t.prev != s.prev ==> t.prev == Some(s.auth) && t.auth == s.auth && t.refresher.PrevStored?)
    && (s.refresher.PrevStored? && t.auth == s.auth ==> t.refresher.PrevStored?)
    && (t.auth != s.auth ==> t.auth == |s.grants| - 1)
  }

  lemma RefresherStep(st: Stream, s: State, refresh: Refresh)
    requires PointersInv(s) && RefresherEnabled(s, refresh)
    ensures PointersInv(Refreshed(st, s, refresh)) && RefreshFrame(s, Refreshed(st, s, refresh))
  {
  }

  lemma PointersStep(st: Stream, s: State, step: Step)
    requires PointersInv(s) && Enabled(st, s, step)
    ensures PointersInv(Apply(st, s, step))
  {
    if step.Refreshing? {
      RefresherStep(st, s, step.refresh);
    }
  }

  lemma CallsKept(s: State, t: State)
    requires CallsInv(s) && s.calls == t.calls && s.grants <= t.grants && s.auth <= t.auth
    ensures CallsInv(t)
  {
    forall i | 0 <= i < |t.calls|
      ensures CallInv(t, t.calls[i])
    {
      assert CallInv(s, s.calls[i]);
    }
  }

  lemma CallAdded(s: State, t: State, c: Call)
    requires CallsInv(s) && t.calls == s.calls + [c] && s.grants == t.grants && s.auth == t.auth && CallInv(s, c)
    ensures CallsInv(t)
  {
    forall i | 0 <= i < |t.calls|
      ensures CallInv(t, t.calls[i])
    {
      assert i < |s.calls| ==> CallInv(s, s.calls[i]);
    }
  }

  lemma CallsStep(st: Stream, s: State, step: Step)
    requires PointersInv(s) && CallsInv(s) && RouterBounds(s) && Enabled(st, s, step)
    ensures CallsInv(Apply(st, s, step))
  {
    var t := Apply(st, s, step);
    if step.Refreshing? {
      RefresherStep(st, s, step.refresh);
      CallsKept(s, t);
    } else if |t.calls| > |s.calls| {
      CallAdded(s, t, t.calls[|s.calls|]);
    } else {
      CallsKept(s, t);
    }
  }

  // Bounds and uniformity do not depend on the refresher's doings: what is bounded
  // afterwards was bounded before.
  lemma RouterKept(st: Stream, s: State, t: State)
    requires PointersInv(s) && RouterBounds(s) && RouterUniform(st, s) && RefreshFrame(s, t)
    requires t.auth < |t.grants|
    ensures RouterBounds(t) && RouterUniform(st, t)
  {
    if !s.router.Waiting? {
      var r := s.router;
      assert Bounded(t, r.t, r.start) ==> Bounded(s, r.t, r.start);
      assert Steady(t, r.t, r.start) ==> Steady(s, r.t, r.start);
    }
  }

  lemma ReaderStep(st: Stream, s: State, step: Step)
    requires PointersInv(s) && RouterBounds(s) && RouterUniform(st, s) && Enabled(st, s, step)
    requires step.SlotCreated? || step.Record? || step.HandOff? || step.PassOver?
    ensures RouterBounds(Apply(st, s, step)) && RouterUniform(st, Apply(st, s, step))
  {
    var t := Apply(st, s, step);
    if !s.router.Waiting? {
      var r := s.router;
      assert Bounded(t, r.t, r.start) ==> Bounded(s, r.t, r.start);
      assert Steady(t, r.t, r.start) ==> Steady(s, r.t, r.start);
    }
  }

  lemma UniformMore(schema: string, changes: seq<Change>, used: seq<Option<nat>>, g: Option<nat>, u: Option<nat>)
    requires |used| < |changes| && Uniform(schema, changes, used, g)
    requires changes[|used|].schema == schema ==> u == g
    ensures Uniform(schema, changes, used + [u], g)
  {
  }

  // One change filtered, under the grant u.
  lemma FilteredOne(st: Stream, s: State, t: State, u: Option<nat>)
    requires PointersInv(s) && RouterBounds(s) && RouterUniform(st, s) && !s.router.Waiting?
    requires var r := s.router;
      && |r.used| < |s.txs[r.t].changes|
      && t == s.(router := Routing(r.t, r.start, r.quiet, r.used + [u]), calls := t.calls)
      && (s.txs[r.t].changes[|r.used|].schema == st.schema ==>
            && (Bounded(s, r.t, r.start) ==> u == Some(r.start))
            && (Steady(s, r.t, r.start) ==> u == Current(s, s.txs[r.t].commitLSN)))
    ensures RouterBounds(t) && RouterUniform(st, t)
  {
    var r := s.router;
    assert Bounded(t, r.t, r.start) == Bounded(s, r.t, r.start);
    assert Steady(t, r.t, r.start) == Steady(s, r.t, r.start);
    if Bounded(s, r.t, r.start) {
      UniformMore(st.schema, s.txs[r.t].changes, r.used, Some(r.start), u);
    }
    if Steady(s, r.t, r.start) {
      UniformMore(st.schema, s.txs[r.t].changes, r.used, Current(s, s.txs[r.t].commitLSN), u);
    }
  }

  lemma LoadAuthStep(st: Stream, s: State)
    requires PointersInv(s) && RouterBounds(s) && RouterUniform(st, s) && Enabled(st, s, LoadAuth)
    ensures RouterBounds(DoLoadAuth(st, s)) && RouterUniform(st, DoLoadAuth(st, s))
  {
    var r := s.router;
    if s.txs[r.t].commitLSN > s.grants[s.auth].refreshLSN {
      FilteredOne(st, s, DoLoadAuth(st, s), Some(s.auth));
    } else {
      assert Bounded(DoLoadAuth(st, s), r.t, r.start) == Bounded(s, r.t, r.start);
    }
  }

  lemma LoadPrevStep(st: Stream, s: State)
    requires PointersInv(s) && RouterBounds(s) && RouterUniform(st, s) && Enabled(st, s, LoadPrev)
    ensures RouterBounds(DoLoadPrev(st, s)) && RouterUniform(st, DoLoadPrev(st, s))
  {
    FilteredOne(st, s, DoLoadPrev(st, s), s.prev);
  }

  lemma FilterStep(st: Stream, s: State, step: Step)
    requires PointersInv(s) && RouterBounds(s) && RouterUniform(st, s) && Enabled(st, s, step)
    requires step.SkipChange? || step.LoadAuth? || step.LoadPrev?
    ensures RouterBounds(Apply(st, s, step)) && RouterUniform(st, Apply(st, s, step))
  {
    match step
    case SkipChange => FilteredOne(st, s, Apply(st, s, step), None);
    case LoadAuth => LoadAuthStep(st, s);
    case _ => LoadPrevStep(st, s);
  }

  lemma RouterStep(st: Stream, s: State, step: Step)
    requires PointersInv(s) && RouterBounds(s) && RouterUniform(st, s) && Enabled(st, s, step)
    ensures RouterBounds(Apply(st, s, step)) && RouterUniform(st, Apply(st, s, step))
  {
    if step.Refreshing? {
      RefresherStep(st, s, step.refresh);
      RouterKept(st, s, Apply(st, s, step));
    } else if step.SlotCreated? || step.Record? || step.HandOff? || step.PassOver? {
      ReaderStep(st, s, step);
    } else if step.SkipChange? || step.LoadAuth? || step.LoadPrev? {
      FilterStep(st, s, step);
    }
  }

  lemma StepInv(st: Stream, s: State, step: Step)
    requires Inv(st, s) && Enabled(st, s, step)
    ensures Inv(st, Apply(st, s, step))
  {
    PointersStep(st, s, step);
    CallsStep(st, s, step);
    RouterStep(st, s, step);
  }

  lemma {:induction false} RunInv(st: Stream, s: State, steps: seq<Step>)
    requires Inv(st, s) && RunFrom(st, s, steps).Some?
    ensures Inv(st, RunFrom(st, s, steps).value)
  {
    if steps != [] {
      var n := |steps| - 1;
      RunInv(st, s, steps[..n]);
      StepInv(st, RunFrom(st, s, steps[..n]).value, steps[n]);
    }
  }

  lemma ReachableInv(st: Stream, s: State)
    requires Reachable(st, s)
    ensures Inv(st, s)
  {
    var initial, steps :| RunFrom(st, Init(initial), steps) == Some(s);
    RunInv(st, Init(initial), steps);
  }

  lemma CallAt(st: Stream, s: State, i: nat)
    requires Reachable(st, s) && i < |s.calls|
    ensures PointersInv(s) && CallInv(s, s.calls[i])
  {
    ReachableInv(st, s);
    assert CallInv(s, s.calls[i]);
  }

  /** Any filter call used the grant it loaded first, above its boundary, and below it
      one at most one older. */
  lemma AtMostOneBehind(st: Stream, s: State, i: nat)
    requires Reachable(st, s) && i < |s.calls|
    ensures var c := s.calls[i];
      && c.loaded < |s.grants|
      && (c.used.Some? ==> c.loaded - 1 <= c.used.value < |s.grants|)
      && (c.txLSN > s.grants[c.loaded].refreshLSN ==> c.used == Some(c.loaded))
  {
    CallAt(st, s, i);
  }

  // From s on, filter calls load what Auth was at s or a newer pointer.
  ghost predicate LoadsFrom(s: State, t: State) {
    && s.auth <= t.auth && s.grants <= t.grants && s.calls <= t.calls
    && (t.router.NeedsPrev? ==> s.auth <= t.router.loaded)
    && forall i :: |s.calls| <= i < |t.calls| ==> s.auth <= t.calls[i].loaded
  }

  lemma LoadsFromStep(st: Stream, s: State, t: State, step: Step)
    requires PointersInv(t) && LoadsFrom(s, t) && Enabled(st, t, step)
    ensures LoadsFrom(s, Apply(st, t, step))
  {
    if step.Refreshing? {
      RefresherStep(st, t, step.refresh);
    }
  }

  lemma {:induction false} LoadsFromRun(st: Stream, s: State, more: seq<Step>)
    requires Inv(st, s) && !s.router.NeedsPrev? && RunFrom(st, s, more).Some?
    ensures LoadsFrom(s, RunFrom(st, s, more).value)
  {
    if more != [] {
      var n := |more| - 1;
      LoadsFromRun(st, s, more[..n]);
      RunInv(st, s, more[..n]);
      LoadsFromStep(st, s, RunFrom(st, s, more[..n]).value, more[n]);
    }
  }

  /** No stale grant: once swap k has ended, with no filter call between its two loads,
      every call from then on, over any further refreshes, uses grant k or a newer one
      on a transaction above the k-th boundary. */
  lemma NoStaleGrant(st: Stream, s: State, more: seq<Step>, k: nat, i: nat)
    requires Reachable(st, s) && k <= s.auth && !s.router.NeedsPrev?
    requires RunFrom(st, s, more).Some? && |s.calls| <= i < |RunFrom(st, s, more).value.calls|
    ensures var t := RunFrom(st, s, more).value;
      && k < |t.grants|
      && (t.calls[i].txLSN > t.grants[k].refreshLSN ==> t.calls[i].used.Some? && t.calls[i].used.value >= k)
  {
    var t := RunFrom(st, s, more).value;
    ReachableInv(st, s);
    LoadsFromRun(st, s, more);
    RunInv(st, s, more);
    assert CallInv(t, t.calls[i]);
    CallIsFresh(t, t.calls[i], k);
  }

  // ----- One transaction after another -----

  ghost predicate Grows(s: State, t: State) {
    s.auth <= t.auth && s.grants <= t.grants
  }

  lemma GrowsStep(st: Stream, s: State, step: Step)
    requires PointersInv(s) && Enabled(st, s, step)
    ensures Grows(s, Apply(st, s, step))
  {
    if step.Refreshing? {
      RefresherStep(st, s, step.refresh);
    }
  }

  lemma {:induction false} GrowsRun(st: Stream, s: State, more: seq<Step>)
    requires Inv(st, s) && RunFrom(st, s, more).Some?
    ensures Grows(s, RunFrom(st, s, more).value)
  {
    if more != [] {
      var n := |more| - 1;
      GrowsRun(st, s, more[..n]);
      RunInv(st, s, more[..n]);
      GrowsStep(st, RunFrom(st, s, more[..n]).value, more[n]);
    }
  }

  // Where the current transaction lies above boundary k, it was filtered so far by
  // grant k or newer ones.
  ghost predicate FilteredFresh(st: Stream, s: State, k: nat) {
    && k <= s.auth < |s.grants|
    && (!s.router.Waiting? && s.router.t < |s.txs| ==>
          var changes, used := s.txs[s.router.t].changes, s.router.used;
          && (s.router.NeedsPrev? ==> k <= s.router.loaded)
          && (s.txs[s.router.t].commitLSN > s.grants[k].refreshLSN ==> AtLeast(st.schema, changes, used, k)))
  }

  ghost predicate AtLeast(schema: string, changes: seq<Change>, used: seq<Option<nat>>, k: nat) {
    && |used| <= |changes|
    && forall i :: 0 <= i < |used| && changes[i].schema == schema ==> used[i].Some? && k <= used[i].value
  }

  lemma FreshFilter(st: Stream, s: State, step: Step, k: nat)
    requires PointersInv(s) && RouterBounds(s) && FilteredFresh(st, s, k) && Enabled(st, s, step)
    requires step.SkipChange? || step.LoadAuth? || step.LoadPrev?
    ensures FilteredFresh(st, Apply(st, s, step), k)
  {
  }

  lemma FreshStep(st: Stream, s: State, step: Step, k: nat)
    requires PointersInv(s) && RouterBounds(s) && FilteredFresh(st, s, k) && Enabled(st, s, step)
    ensures FilteredFresh(st, Apply(st, s, step), k)
  {
    if step.Refreshing? {
      RefresherStep(st, s, step.refresh);
    } else if step.SkipChange? || step.LoadAuth? || step.LoadPrev? {
      FreshFilter(st, s, step, k);
    }
  }

  /** No stale grant, a transaction at a time: one that routing began with after swap k
      had ended is filtered, where it lies above boundary k, by grant k or newer ones
      throughout, over any further refreshes. */
  lemma {:induction false} NoStaleTx(st: Stream, s: State, more: seq<Step>, k: nat)
    requires Inv(st, s) && k <= s.auth && s.router.Waiting? && RunFrom(st, s, more).Some?
    ensures FilteredFresh(st, RunFrom(st, s, more).value, k)
  {
    if more != [] {
      var n := |more| - 1;
      NoStaleTx(st, s, more[..n], k);
      RunInv(st, s, more[..n]);
      FreshStep(st, RunFrom(st, s, more[..n]).value, more[n], k);
    }
  }

  // No filter call uses a grant that Auth does not point at yet.
  ghost predicate UsedStored(s: State) {
    !s.router.Waiting? ==>
      forall i :: 0 <= i < |s.router.used| && s.router.used[i].Some? ==> s.router.used[i].value <= s.auth
  }

  lemma UsedStoredStep(st: Stream, s: State, step: Step)
    requires PointersInv(s) && UsedStored(s) && Enabled(st, s, step)
    ensures UsedStored(Apply(st, s, step))
  {
    if step.Refreshing? {
      RefresherStep(st, s, step.refresh);
    }
  }

  lemma {:induction false} UsedStoredRun(st: Stream, s: State, more: seq<Step>)
    requires Inv(st, s) && UsedStored(s) && RunFrom(st, s, more).Some?
    ensures UsedStored(RunFrom(st, s, more).value)
  {
    if more != [] {
      var n := |more| - 1;
      UsedStoredRun(st, s, more[..n]);
      RunInv(st, s, more[..n]);
      UsedStoredStep(st, RunFrom(st, s, more[..n]).value, more[n]);
    }
  }

  lemma CallIsFresh(s: State, c: Call, k: nat)
    requires CallInv(s, c) && k <= c.loaded
    ensures c.txLSN > s.grants[k].refreshLSN ==> c.used.Some? && c.used.value >= k
  {
  }

  /** One transaction, one grant: whatever the interleaving with one swap's stores, a
      transaction above the boundary it started under and at or below the boundary of
      the overlapping swap is filtered by a single grant. */
  lemma OneGrant(st: Stream, s: State)
    requires Reachable(st, s)
    ensures !s.router.Waiting? && Bounded(s, s.router.t, s.router.start) ==>
              Uniform(st.schema, s.txs[s.router.t].changes, s.router.used, Some(s.router.start))
  {
    ReachableInv(st, s);
  }

  /** Recording before hand-off gives the upper boundary for free: it holds for every
      swap that reads its stamp after routing began, and no other can be under way
      when the refresher was between swaps at that moment. */
  lemma OneGrantFromQuietStart(st: Stream, s: State)
    requires Reachable(st, s)
    ensures !s.router.Waiting? ==> s.router.t < |s.txs| && s.router.start < |s.grants|
    ensures !s.router.Waiting? && s.router.quiet
            && s.txs[s.router.t].commitLSN > s.grants[s.router.start].refreshLSN
            && (s.prev.Some? ==> s.prev.value <= s.router.start) ==>
              Uniform(st.schema, s.txs[s.router.t].changes, s.router.used, Some(s.router.start))
  {
    ReachableInv(st, s);
    if !s.router.Waiting? && s.router.quiet {
      QuietIsBounded(s);
    }
  }

  lemma QuietIsBounded(s: State)
    requires PointersInv(s) && RouterBounds(s) && !s.router.Waiting? && s.router.quiet
    ensures s.router.t < |s.txs| && s.router.start < |s.grants|
    ensures s.txs[s.router.t].commitLSN > s.grants[s.router.start].refreshLSN
            && (s.prev.Some? ==> s.prev.value <= s.router.start) ==>
              Bounded(s, s.router.t, s.router.start)
  {
  }

  // The whitelists behind the pointers used.
  ghost function Resolved(grants: seq<Whitelist>, used: seq<Option<nat>>): seq<Option<Whitelist>> {
    seq(|used|, i requires 0 <= i < |used| =>
      if used[i].Some? && used[i].value < |grants| then Some(grants[used[i].value]) else None)
  }

  /** The frame built from such calls is the frame under that one grant. */
  lemma FrameUnderOneGrant(cfg: Config, ch: Channel, startLSN: LSN, st: Stream, s: State)
    requires Reachable(st, s) && ch.schema == st.schema
    requires Enabled(st, s, EndTx) && Bounded(s, s.router.t, s.router.start)
    ensures var tx := s.txs[s.router.t];
      Decide(cfg, ch, startLSN, Resolved(s.grants, s.router.used), tx)
      == Decide(cfg, ch, startLSN, Constant(Some(s.grants[s.router.start]), |tx.changes|), tx)
  {
    var tx := s.txs[s.router.t];
    OneGrant(st, s);
    DecideUsesOwnSchema(cfg, ch, startLSN, Resolved(s.grants, s.router.used),
                        Constant(Some(s.grants[s.router.start]), |tx.changes|), tx);
  }

  // ----- Runs -----

  lemma {:induction false} RunAppend(st: Stream, s: State, a: seq<Step>, b: seq<Step>)
    requires RunFrom(st, s, a).Some?
    ensures RunFrom(st, s, a + b) == RunFrom(st, RunFrom(st, s, a).value, b)
  {
    if b == [] {
      assert a + b == a;
    } else {
      var n := |b| - 1;
      assert (a + b)[..|a + b| - 1] == a + b[..n];
      RunAppend(st, s, a, b[..n]);
    }
  }

  // One more step.
  lemma Then(st: Stream, s0: State, steps: seq<Step>, s: State, step: Step) returns (more: seq<Step>, t: State)
    requires RunFrom(st, s0, steps) == Some(s) && Enabled(st, s, step)
    ensures more == steps + [step] && t == Apply(st, s, step) && RunFrom(st, s0, more) == Some(t)
  {
    more, t := steps + [step], Apply(st, s, step);
    assert more[..|more| - 1] == steps;
  }
}
