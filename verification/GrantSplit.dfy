/** When a swap splits one transaction between two grants
    (internal/auth/subscriber.go:156-169, 283-295): the documented boundary is the last
    position recorded when the swap began, not the moment its stores take effect. */
module GrantSplit {
  import opened WalTypes
  import opened Whitelists
  import opened Channels
  import opened GrantSwap

  // A swap has read its stamp and not yet stored Auth, while the router is filtering.
  ghost predicate AtRace(s: State) {
    s.refresher.Swapping() && !s.router.Waiting? && s.router.t < |s.txs| && s.auth + 1 < |s.grants|
  }

  ghost function Changes(s: State): seq<Change>
    requires !s.router.Waiting? && s.router.t < |s.txs|
  {
    s.txs[s.router.t].changes
  }

  ghost function Position(s: State): LSN
    requires !s.router.Waiting? && s.router.t < |s.txs|
  {
    s.txs[s.router.t].commitLSN
  }

  // Two changes of the schema were filtered by different grants.
  ghost predicate Mixed(schema: string, changes: seq<Change>, used: seq<Option<nat>>) {
    |used| <= |changes| && exists i, j :: MixedAt(schema, changes, used, i, j)
  }

  ghost predicate MixedAt(schema: string, changes: seq<Change>, used: seq<Option<nat>>, i: int, j: int)
    requires |used| <= |changes|
  {
    0 <= i < j < |used| && changes[i].schema == changes[j].schema == schema && used[i] != used[j]
  }

  // The current transaction is split between two grants.
  ghost predicate IsSplit(schema: string, s: State) {
    !s.router.Waiting? && s.router.t < |s.txs| && Mixed(schema, Changes(s), s.router.used)
  }

  // Anything happens but a further swap and the end of the transaction.
  ghost predicate OneSwap(steps: seq<Step>) {
    forall i :: 0 <= i < |steps| ==> IsOneSwapStep(steps[i])
  }

  ghost predicate IsOneSwapStep(step: Step) {
    !step.EndTx? && !(step.Refreshing? && step.refresh.Answer?)
  }

  ghost predicate Splits(st: Stream, s: State, steps: seq<Step>) {
    OneSwap(steps) && RunFrom(st, s, steps).Some? && IsSplit(st.schema, RunFrom(st, s, steps).value)
  }

  // ----- The exact condition -----

  // What filter calls use now, and once the swap has ended.
  ghost function First(s: State): Option<nat>
    requires AtRace(s)
  {
    Current(s, Position(s))
  }

  ghost function Last(s: State): Option<nat>
    requires AtRace(s)
  {
    if Position(s) > s.grants[s.auth + 1].refreshLSN then Some(s.auth + 1) else Some(s.auth)
  }

  ghost predicate InSchema(schema: string, changes: seq<Change>, i: int) {
    0 <= i < |changes| && changes[i].schema == schema
  }

  // Change i was filtered by a grant that change j, still to come, can differ from.
  ghost predicate OneToCome(schema: string, s: State, i: int, j: int)
    requires AtRace(s)
  {
    && 0 <= i < |s.router.used| <= j && InSchema(schema, Changes(s), i) && InSchema(schema, Changes(s), j)
    && (s.router.used[i] != First(s) || s.router.used[i] != Last(s))
  }

  // Changes i and j are both still to come.
  ghost predicate TwoToCome(schema: string, s: State, i: int, j: int)
    requires AtRace(s)
  {
    && |s.router.used| <= i < j && InSchema(schema, Changes(s), i) && InSchema(schema, Changes(s), j)
    && First(s) != Last(s)
  }

  ghost predicate CanSplit(schema: string, s: State)
    requires AtRace(s)
  {
    || Mixed(schema, Changes(s), s.router.used)
    || (exists i, j :: OneToCome(schema, s, i, j))
    || (exists i, j :: TwoToCome(schema, s, i, j))
  }

  // ----- Finding the run -----

  // A run of such steps from s0 to s, in which the current transaction is the same.
  ghost predicate Led(st: Stream, s0: State, steps: seq<Step>, s: State)
    requires !s0.router.Waiting?
  {
    && OneSwap(steps) && RunFrom(st, s0, steps) == Some(s) && Inv(st, s)
    && !s.router.Waiting? && s.router.t == s0.router.t && s.router.t < |s.txs|
    && s.txs == s0.txs && s.grants == s0.grants && s0.router.used <= s.router.used
  }

  ghost predicate IsLeadingStep(step: Step) {
    || step.SkipChange? || step.LoadAuth? || step.LoadPrev?
    || step == Refreshing(StorePrev) || step == Refreshing(StoreAuth)
  }

  lemma StepKeeps(st: Stream, s: State, step: Step)
    requires !s.router.Waiting? && Enabled(st, s, step) && IsLeadingStep(step)
    ensures var t := Apply(st, s, step);
      && !t.router.Waiting? && t.router.t == s.router.t && t.txs == s.txs && t.grants == s.grants
      && s.router.used <= t.router.used
  {
  }

  lemma LedOn(st: Stream, s0: State, steps: seq<Step>, s: State, step: Step) returns (more: seq<Step>, t: State)
    requires !s0.router.Waiting? && Led(st, s0, steps, s) && Enabled(st, s, step) && IsLeadingStep(step)
    ensures t == Apply(st, s, step) && Led(st, s0, more, t)
  {
    more, t := Then(st, s0, steps, s, step);
    StepInv(st, s, step);
    StepKeeps(st, s, step);
    assert OneSwap(more);
  }

  // Changes of other schemas are skipped until position j is next.
  lemma {:induction false} SkipTo(st: Stream, s0: State, steps: seq<Step>, s: State, j: nat)
    returns (more: seq<Step>, t: State)
    requires !s0.router.Waiting? && Led(st, s0, steps, s) && s.router.Routing?
    requires |s.router.used| <= j < |Changes(s)|
    requires forall i :: |s.router.used| <= i < j ==> !InSchema(st.schema, Changes(s), i)
    ensures Led(st, s0, more, t) && t == s.(router := t.router) && t.router.Routing?
    ensures |t.router.used| == j && s.router.used <= t.router.used
    decreases j - |s.router.used|
  {
    if |s.router.used| == j {
      more, t := steps, s;
    } else {
      assert !InSchema(st.schema, Changes(s), |s.router.used|);
      more, t := LedOn(st, s0, steps, s, SkipChange);
      more, t := SkipTo(st, s0, more, t, j);
    }
  }

  // The first change of the schema from position n on.
  lemma {:induction false} NextOf(schema: string, changes: seq<Change>, n: nat, j: nat) returns (k: nat)
    requires n <= j && InSchema(schema, changes, j)
    ensures n <= k <= j && InSchema(schema, changes, k)
    ensures forall i :: n <= i < k ==> !InSchema(schema, changes, i)
    decreases j
  {
    if i :| n <= i < j && InSchema(schema, changes, i) {
      k := NextOf(schema, changes, n, i);
    } else {
      k := j;
    }
  }

  // The change at hand is filtered with the pointers as they are.
  lemma FilterHere(st: Stream, s0: State, steps: seq<Step>, s: State) returns (more: seq<Step>, t: State)
    requires !s0.router.Waiting? && Led(st, s0, steps, s) && s.auth < |s.grants|
    requires InSchema(st.schema, Changes(s), |s.router.used|)
    ensures Led(st, s0, more, t) && t.auth == s.auth && t.prev == s.prev && t.refresher == s.refresher
    ensures t.router.used == s.router.used + [Current(s, Position(s))]
  {
    more, t := steps, s;
    if s.router.Routing? {
      more, t := LedOn(st, s0, more, t, LoadAuth);
    }
    if t.router.NeedsPrev? {
      more, t := LedOn(st, s0, more, t, LoadPrev);
    }
  }

  // The next change of the schema is.
  lemma FilterNext(st: Stream, s0: State, steps: seq<Step>, s: State, j: nat)
    returns (more: seq<Step>, t: State, k: nat)
    requires !s0.router.Waiting? && Led(st, s0, steps, s) && s.auth < |s.grants|
    requires |s.router.used| <= j && InSchema(st.schema, Changes(s), j)
    ensures Led(st, s0, more, t) && t.auth == s.auth && t.prev == s.prev && t.refresher == s.refresher
    ensures |s.router.used| <= k <= j && InSchema(st.schema, Changes(s), k)
    ensures |t.router.used| == k + 1 && s.router.used <= t.router.used
    ensures t.router.used[k] == Current(s, Position(s))
  {
    k := |s.router.used|;
    more, t := steps, s;
    if s.router.Routing? {
      k := NextOf(st.schema, Changes(s), |s.router.used|, j);
      more, t := SkipTo(st, s0, steps, s, k);
    }
    more, t := FilterHere(st, s0, more, t);
  }

  lemma StoresPrev(st: Stream, s0: State, steps: seq<Step>, s: State) returns (more: seq<Step>, t: State)
    requires !s0.router.Waiting? && Led(st, s0, steps, s) && AtRace(s)
    ensures Led(st, s0, more, t) && t.router == s.router && t.auth == s.auth && t.refresher.PrevStored?
  {
    more, t := steps, s;
    if s.refresher.Stamped? {
      more, t := LedOn(st, s0, more, t, Refreshing(StorePrev));
    }
  }

  // What is used once the swap has ended.
  lemma LastIsCurrent(s: State, t: State)
    requires AtRace(s) && PointersInv(s) && PointersInv(t) && t.auth == s.auth + 1 && !t.refresher.Swapping()
    requires t.router == s.router && t.txs == s.txs && t.grants == s.grants
    ensures Current(t, Position(t)) == Last(s)
  {
  }

  // The swap's stores.
  lemma EndSwap(st: Stream, s0: State, steps: seq<Step>, s: State) returns (more: seq<Step>, t: State)
    requires !s0.router.Waiting? && Led(st, s0, steps, s) && AtRace(s)
    ensures Led(st, s0, more, t) && t.router == s.router
    ensures t.auth == s.auth + 1 < |t.grants| && Current(t, Position(t)) == Last(s)
  {
    more, t := StoresPrev(st, s0, steps, s);
    more, t := LedOn(st, s0, more, t, Refreshing(StoreAuth));
    LastIsCurrent(s, t);
  }

  lemma SplitFound(st: Stream, s0: State, steps: seq<Step>, s: State, i: nat, k: nat)
    requires !s0.router.Waiting? && Led(st, s0, steps, s)
    requires i < k < |s.router.used| <= |Changes(s)|
    requires InSchema(st.schema, Changes(s), i) && InSchema(st.schema, Changes(s), k)
    requires s.router.used[i] != s.router.used[k]
    ensures Splits(st, s0, steps)
  {
    assert MixedAt(st.schema, Changes(s), s.router.used, i, k);
  }

  // Change i is filtered; the swap ends; change j, or one before it, is filtered.
  lemma SplitByLast(st: Stream, s0: State, steps: seq<Step>, s: State, i: nat, j: nat) returns (more: seq<Step>)
    requires !s0.router.Waiting? && Led(st, s0, steps, s) && AtRace(s)
    requires i < |s.router.used| <= j && InSchema(st.schema, Changes(s), i) && InSchema(st.schema, Changes(s), j)
    requires s.router.used[i] != Last(s)
    ensures Splits(st, s0, more)
  {
    var t: State, k;
    more, t := EndSwap(st, s0, steps, s);
    more, t, k := FilterNext(st, s0, more, t, j);
    SplitFound(st, s0, more, t, i, k);
  }

  // Change i is filtered; change j, or one before it, is filtered as things are.
  lemma SplitByFirst(st: Stream, s0: State, steps: seq<Step>, s: State, i: nat, j: nat) returns (more: seq<Step>)
    requires !s0.router.Waiting? && Led(st, s0, steps, s) && AtRace(s)
    requires i < |s.router.used| <= j && InSchema(st.schema, Changes(s), i) && InSchema(st.schema, Changes(s), j)
    requires s.router.used[i] != First(s)
    ensures Splits(st, s0, more)
  {
    var t: State, k;
    more, t, k := FilterNext(st, s0, steps, s, j);
    SplitFound(st, s0, more, t, i, k);
  }

  lemma StillAtRace(s: State, t: State)
    requires AtRace(s) && !t.router.Waiting? && t.router.t == s.router.t && t.txs == s.txs && t.grants == s.grants
    requires t.auth == s.auth && t.prev == s.prev && t.refresher == s.refresher
    ensures AtRace(t) && Changes(t) == Changes(s) && First(t) == First(s) && Last(t) == Last(s)
  {
  }

  lemma SplitTwo(st: Stream, s: State, i: nat, j: nat) returns (steps: seq<Step>)
    requires Inv(st, s) && AtRace(s) && TwoToCome(st.schema, s, i, j)
    ensures Splits(st, s, steps)
  {
    var t: State, k;
    assert Led(st, s, [], s);
    steps, t, k := FilterNext(st, s, [], s, i);
    StillAtRace(s, t);
    steps := SplitByLast(st, s, steps, t, k, j);
  }

  lemma SplitRun(st: Stream, s: State) returns (steps: seq<Step>)
    requires Inv(st, s) && AtRace(s) && CanSplit(st.schema, s)
    ensures Splits(st, s, steps)
  {
    assert Led(st, s, [], s);
    if Mixed(st.schema, Changes(s), s.router.used) {
      steps := [];
    } else if i, j :| OneToCome(st.schema, s, i, j) {
      if s.router.used[i] != Last(s) {
        steps := SplitByLast(st, s, [], s, i, j);
      } else {
        steps := SplitByFirst(st, s, [], s, i, j);
      }
    } else {
      var i, j :| TwoToCome(st.schema, s, i, j);
      steps := SplitTwo(st, s, i, j);
    }
  }

  // ----- No other run -----

  // Where such steps can lead: the same transaction, the swap under way or ended.
  ghost predicate SwapFrame(s: State, t: State)
    requires AtRace(s)
  {
    && t.grants == s.grants && s.txs <= t.txs
    && !t.router.Waiting? && t.router.t == s.router.t && t.router.start == s.router.start
    && s.router.used <= t.router.used
    && (if t.refresher.Swapping() then t.auth == s.auth && (t.refresher == s.refresher || t.refresher.PrevStored?)
        else t.auth == s.auth + 1)
  }

  lemma SwapFrameStep(st: Stream, s: State, t: State, step: Step)
    requires AtRace(s) && PointersInv(t) && SwapFrame(s, t) && IsOneSwapStep(step) && Enabled(st, t, step)
    ensures SwapFrame(s, Apply(st, t, step))
  {
  }

  // A filter call made there uses one of the two.
  lemma CurrentInRace(s: State, t: State)
    requires AtRace(s) && PointersInv(s) && PointersInv(t) && SwapFrame(s, t)
    ensures t.auth < |t.grants| && (Current(t, Position(s)) == First(s) || Current(t, Position(s)) == Last(s))
  {
  }

  // What is filtered after s is filtered by one of the two.
  ghost predicate OneOfTwo(schema: string, s: State, used: seq<Option<nat>>)
    requires AtRace(s)
  {
    forall i :: |s.router.used| <= i < |used| && InSchema(schema, Changes(s), i) ==>
      used[i] == First(s) || used[i] == Last(s)
  }

  lemma OneMoreOfTwo(schema: string, s: State, used: seq<Option<nat>>, u: Option<nat>)
    requires AtRace(s) && OneOfTwo(schema, s, used)
    requires InSchema(schema, Changes(s), |used|) ==> u == First(s) || u == Last(s)
    ensures OneOfTwo(schema, s, used + [u])
  {
  }

  lemma OneOfTwoStep(st: Stream, s: State, t: State, step: Step)
    requires AtRace(s) && PointersInv(s) && Inv(st, t) && SwapFrame(s, t) && OneOfTwo(st.schema, s, t.router.used)
    requires IsOneSwapStep(step) && Enabled(st, t, step)
    ensures !Apply(st, t, step).router.Waiting? && OneOfTwo(st.schema, s, Apply(st, t, step).router.used)
  {
    CurrentInRace(s, t);
    var u := Apply(st, t, step).router.used;
    if |u| > |t.router.used| {
      OneMoreOfTwo(st.schema, s, t.router.used, u[|t.router.used|]);
      assert u == t.router.used + [u[|t.router.used|]];
    }
  }

  lemma {:induction false} RaceRun(st: Stream, s: State, steps: seq<Step>)
    requires Inv(st, s) && AtRace(s) && OneSwap(steps) && RunFrom(st, s, steps).Some?
    ensures var t := RunFrom(st, s, steps).value; SwapFrame(s, t) && OneOfTwo(st.schema, s, t.router.used)
  {
    if steps != [] {
      var n := |steps| - 1;
      RaceRun(st, s, steps[..n]);
      RunInv(st, s, steps[..n]);
      SwapFrameStep(st, s, RunFrom(st, s, steps[..n]).value, steps[n]);
      OneOfTwoStep(st, s, RunFrom(st, s, steps[..n]).value, steps[n]);
    }
  }

  lemma SplitCouldHappen(schema: string, s: State, t: State)
    requires AtRace(s) && |s.router.used| <= |Changes(s)| && SwapFrame(s, t) && OneOfTwo(schema, s, t.router.used)
    requires IsSplit(schema, t)
    ensures CanSplit(schema, s)
  {
    var i, j :| MixedAt(schema, Changes(s), t.router.used, i, j);
    if j < |s.router.used| {
      assert MixedAt(schema, Changes(s), s.router.used, i, j);
    } else if i < |s.router.used| {
      assert OneToCome(schema, s, i, j);
    } else {
      assert TwoToCome(schema, s, i, j);
    }
  }

  /** With a swap under way, wherever it and the router stand, some continuation without
      a further swap splits the current transaction exactly when it is split already, or
      a filtered change used something else than what the rest can be given now or at
      the end of the swap, or two changes are left that can be given different grants. */
  lemma SplitsExactly(st: Stream, s: State)
    requires Reachable(st, s) && AtRace(s)
    ensures (exists steps :: Splits(st, s, steps)) <==> CanSplit(st.schema, s)
  {
    ReachableInv(st, s);
    if CanSplit(st.schema, s) {
      var steps := SplitRun(st, s);
    } else {
      forall steps | OneSwap(steps) && RunFrom(st, s, steps).Some?
        ensures !IsSplit(st.schema, RunFrom(st, s, steps).value)
      {
        RaceRun(st, s, steps);
        if IsSplit(st.schema, RunFrom(st, s, steps).value) {
          SplitCouldHappen(st.schema, s, RunFrom(st, s, steps).value);
        }
      }
    }
  }

  // ----- In terms of the boundaries -----

  // Two changes of the schema, the later one not filtered yet.
  ghost predicate TwoLeft(schema: string, changes: seq<Change>, n: nat) {
    exists i, j :: TwoAt(schema, changes, n, i, j)
  }

  ghost predicate TwoAt(schema: string, changes: seq<Change>, n: nat, i: int, j: int) {
    0 <= i < j && n <= j && InSchema(schema, changes, i) && InSchema(schema, changes, j)
  }

  // The transaction lies above the boundary of the grant it began under and at or
  // below that of the grant being swapped in.
  ghost predicate BetweenBoundaries(s: State)
    requires AtRace(s)
  {
    s.grants[s.auth].refreshLSN < Position(s) <= s.grants[s.auth + 1].refreshLSN
  }

  lemma TwoGrantsInSight(s: State)
    requires AtRace(s) && PointersInv(s) && s.refresher.Stamped?
    ensures First(s) != Last(s) <==> !BetweenBoundaries(s)
  {
  }

  /** The boundary interval is exact: when a swap has read its stamp and none has ended
      since the transaction was taken, some interleaving splits it if and only if two of
      its changes are of the schema, the later one still to be filtered, and it does not
      lie above the old boundary and at or below the new one. */
  lemma SplitsOutsideTheBoundaries(st: Stream, s: State)
    requires Reachable(st, s) && AtRace(s) && s.refresher.Stamped? && s.auth == s.router.start
    ensures (exists steps :: Splits(st, s, steps))
       <==> TwoLeft(st.schema, Changes(s), |s.router.used|) && !BetweenBoundaries(s)
  {
    ReachableInv(st, s);
    SplitsExactly(st, s);
    TwoGrantsInSight(s);
    SteadyCanSplit(st, s);
  }

  lemma SteadyCanSplit(st: Stream, s: State)
    requires Inv(st, s) && AtRace(s) && s.refresher.Stamped? && s.auth == s.router.start
    ensures CanSplit(st.schema, s) <==> TwoLeft(st.schema, Changes(s), |s.router.used|) && First(s) != Last(s)
  {
    assert Steady(s, s.router.t, s.router.start);
    assert Uniform(st.schema, Changes(s), s.router.used, First(s));
    if TwoLeft(st.schema, Changes(s), |s.router.used|) && First(s) != Last(s) {
      var i, j :| TwoAt(st.schema, Changes(s), |s.router.used|, i, j);
      assert if i < |s.router.used| then OneToCome(st.schema, s, i, j) else TwoToCome(st.schema, s, i, j);
    }
    if i, j :| OneToCome(st.schema, s, i, j) {
      assert TwoAt(st.schema, Changes(s), |s.router.used|, i, j);
    }
    if i, j :| TwoToCome(st.schema, s, i, j) {
      assert TwoAt(st.schema, Changes(s), |s.router.used|, i, j);
    }
  }

  // A filtered change used something else than the grant being replaced, and another
  // one is left.
  ghost predicate OlderUsed(schema: string, s: State, i: int, j: int)
    requires !s.router.Waiting? && s.router.t < |s.txs|
  {
    && 0 <= i < |s.router.used| <= j && InSchema(schema, Changes(s), i) && InSchema(schema, Changes(s), j)
    && s.router.used[i] != Some(s.auth)
  }

  lemma OlderCanSplit(schema: string, s: State)
    requires AtRace(s) && PointersInv(s) && s.refresher.PrevStored?
    requires Position(s) <= s.grants[s.auth].refreshLSN
    ensures CanSplit(schema, s) <==>
              Mixed(schema, Changes(s), s.router.used) || exists i, j :: OlderUsed(schema, s, i, j)
  {
    assert First(s) == Last(s) == Some(s.auth);
    if i, j :| OlderUsed(schema, s, i, j) {
      assert OneToCome(schema, s, i, j);
    }
    if i, j :| OneToCome(schema, s, i, j) {
      assert OlderUsed(schema, s, i, j);
    }
  }

  /** Once Prev is stored, a transaction at or below the old boundary can only come out
      split if it is split already, or if a change of it has used the older grant and
      another one is left. */
  lemma SplitsAfterPrevStored(st: Stream, s: State)
    requires Reachable(st, s) && AtRace(s) && s.refresher.PrevStored?
    requires Position(s) <= s.grants[s.auth].refreshLSN
    ensures (exists steps :: Splits(st, s, steps))
       <==> || Mixed(st.schema, Changes(s), s.router.used)
            || (exists i, j :: OlderUsed(st.schema, s, i, j))
  {
    ReachableInv(st, s);
    SplitsExactly(st, s);
    OlderCanSplit(st.schema, s);
  }

  // ----- It happens -----

  // A refresh reads its stamp, then a transaction is recorded, handed off and taken.
  lemma RaceAbove(st: Stream, initial: Whitelist, granted: Whitelist, tx: Tx) returns (steps: seq<Step>, s: State)
    requires RefreshMapAllowed(st.channel, st.userID, Some(granted)) && tx.commitLSN > 0
    ensures RunFrom(st, Init(initial), steps) == Some(s) && AtRace(s) && s.refresher.Stamped?
    ensures s.txs == [tx] && s.router == Routing(0, s.auth, false, [])
    ensures tx.commitLSN > s.grants[s.auth].refreshLSN && tx.commitLSN > s.grants[s.auth + 1].refreshLSN
  {
    var s0 := Init(initial);
    assert RunFrom(st, s0, []) == Some(s0);
    steps, s := Then(st, s0, [], s0, Refreshing(Tick));
    steps, s := Then(st, s0, steps, s, Refreshing(Answer(Allows(Some(granted)))));
    steps, s := Then(st, s0, steps, s, Record(tx));
    steps, s := Then(st, s0, steps, s, HandOff);
    steps, s := Then(st, s0, steps, s, Route);
  }

  lemma HandedOver(st: Stream, initial: Whitelist, tx: Tx) returns (steps: seq<Step>, s: State)
    ensures RunFrom(st, Init(initial), steps) == Some(s)
    ensures s == Init(initial).(txs := [tx], lsn := tx.commitLSN, handed := 1)
  {
    var s0 := Init(initial);
    assert RunFrom(st, s0, []) == Some(s0);
    steps, s := Then(st, s0, [], s0, Record(tx));
    steps, s := Then(st, s0, steps, s, HandOff);
  }

  lemma Waited(st: Stream, initial: Whitelist, granted: Whitelist, tx: Tx) returns (steps: seq<Step>, s: State)
    requires RefreshMapAllowed(st.channel, st.userID, Some(granted))
    ensures RunFrom(st, Init(initial), steps) == Some(s)
    ensures s.txs == [tx] && s.handed == 1 && s.taken == 0 && s.lsn == tx.commitLSN && s.refresher.Stamped?
    ensures |s.grants| == 2 && s.auth == 0 && s.grants[1].refreshLSN == tx.commitLSN && s.router.Waiting? && !s.dropped
  {
    steps, s := HandedOver(st, initial, tx);
    steps, s := Then(st, Init(initial), steps, s, Refreshing(Tick));
    steps, s := Then(st, Init(initial), steps, s, Refreshing(Answer(Allows(Some(granted)))));
  }

  // A transaction waits in the channel through a whole refresh and into the next one.
  lemma RaceBelow(st: Stream, initial: Whitelist, granted: Whitelist, tx: Tx) returns (steps: seq<Step>, s: State)
    requires RefreshMapAllowed(st.channel, st.userID, Some(granted))
    ensures RunFrom(st, Init(initial), steps) == Some(s) && AtRace(s) && s.refresher.Stamped?
    ensures s.txs == [tx] && s.router == Routing(0, s.auth, false, [])
    ensures tx.commitLSN <= s.grants[s.auth].refreshLSN
  {
    var s0 := Init(initial);
    steps, s := Waited(st, initial, granted, tx);
    steps, s := Then(st, s0, steps, s, Refreshing(StorePrev));
    steps, s := Then(st, s0, steps, s, Refreshing(StoreAuth));
    steps, s := Then(st, s0, steps, s, Refreshing(Tick));
    steps, s := Then(st, s0, steps, s, Refreshing(Answer(Allows(Some(granted)))));
    steps, s := Then(st, s0, steps, s, Route);
  }

  /** Splits do happen, to any transaction with two changes of the schema: above the
      boundary it is taken under, when it was recorded after a refresh had read its
      stamp; below it, when it was still waiting as a second refresh began to store. */
  lemma SplitIsReachable(st: Stream, initial: Whitelist, granted: Whitelist, tx: Tx, above: bool)
    returns (steps: seq<Step>)
    requires RefreshMapAllowed(st.channel, st.userID, Some(granted)) && (above ==> tx.commitLSN > 0)
    requires TwoLeft(st.schema, tx.changes, 0)
    ensures RunFrom(st, Init(initial), steps).Some?
    ensures var s := RunFrom(st, Init(initial), steps).value;
      && [tx] <= s.txs && !s.router.Waiting? && s.router.t == 0 && IsSplit(st.schema, s)
      && s.router.start < |s.grants| && (above <==> tx.commitLSN > s.grants[s.router.start].refreshLSN)
  {
    var before, s;
    if above {
      before, s := RaceAbove(st, initial, granted, tx);
    } else {
      before, s := RaceBelow(st, initial, granted, tx);
    }
    assert Reachable(st, s);
    ReachableInv(st, s);
    TwoGrantsInSight(s);
    SteadyCanSplit(st, s);
    var more := SplitRun(st, s);
    RaceRun(st, s, more);
    RunAppend(st, Init(initial), before, more);
    steps := before + more;
  }
}
