/** What a stream holds and does around a refused refresh
    (internal/auth/subscriber.go:171-261, internal/router/router.go:199-204). */
module Revocation {
  import opened WalTypes
  import opened Whitelists
  import opened Channels
  import opened GrantSwap

  // ----- Only checked grants are stored -----

  ghost predicate AllAllowed(st: Stream, grants: seq<Whitelist>) {
    forall i :: 0 <= i < |grants| ==> RefreshMapAllowed(st.channel, st.userID, Some(grants[i]))
  }

  lemma {:induction false} GrantsAreAllowed(st: Stream, initial: Whitelist, steps: seq<Step>)
    requires RefreshMapAllowed(st.channel, st.userID, Some(initial))
    requires RunFrom(st, Init(initial), steps).Some?
    ensures AllAllowed(st, RunFrom(st, Init(initial), steps).value.grants)
  {
    if steps != [] {
      GrantsAreAllowed(st, initial, steps[..|steps| - 1]);
    }
  }

  /** Whatever the backend answers and however refreshes, filter calls and drops
      interleave, every grant stored or used by a filter call names the user of the
      handshake and holds the table of the channel it was made on. */
  lemma OnlyTrustedGrants(size: string -> nat, table: string, pk: Option<string>, st: Stream, initial: Whitelist,
                          steps: seq<Step>)
    requires Some(st.channel) == if pk.Some? then ExactChannel(size, table, pk.value) else WildcardChannel(table)
    requires st.userID == initial.userID && table in initial.tables
    requires RunFrom(st, Init(initial), steps).Some?
    ensures var s := RunFrom(st, Init(initial), steps).value;
      && s.auth < |s.grants|
      && (forall i :: 0 <= i < |s.grants| ==> s.grants[i].userID == initial.userID && table in s.grants[i].tables)
      && (forall i :: 0 <= i < |s.calls| && s.calls[i].used.Some? ==> s.calls[i].used.value < |s.grants|)
  {
    var s := RunFrom(st, Init(initial), steps).value;
    var key := if pk.Some? then pk.value else "";
    AdmittedGrantIsAllowed(size, table, key, initial);
    ChannelsAreDistinct(size, table, key, table, key);
    GrantsAreAllowed(st, initial, steps);
    assert Reachable(st, s);
    ReachableInv(st, s);
    forall i | 0 <= i < |s.grants|
      ensures s.grants[i].userID == initial.userID && table in s.grants[i].tables
    {
      assert RefreshMapAllowed(st.channel, st.userID, Some(s.grants[i]));
    }
    forall i | 0 <= i < |s.calls| && s.calls[i].used.Some?
      ensures s.calls[i].used.value < |s.grants|
    {
      assert CallInv(s, s.calls[i]);
    }
  }

  // ----- After a refusal -----

  lemma DropStays(st: Stream, s: State, step: Step)
    requires Enabled(st, s, step)
    ensures var t := Apply(st, s, step); (s.dropped ==> t.dropped) && (s.refused ==> t.refused)
  {
  }

  /** A refused answer stores nothing and drops the subscriber; a refusal stays on
      record, and the subscriber dropped, over any further steps. */
  lemma {:induction false} RefusalDrops(st: Stream, s: State, response: Response, more: seq<Step>)
    requires s.refresher.Fetching? && Refuses(st.channel, st.userID, response)
    requires RunFrom(st, DoAnswer(st, s, response), more).Some?
    ensures DoAnswer(st, s, response).grants == s.grants
    ensures var t := RunFrom(st, DoAnswer(st, s, response), more).value; t.dropped && t.refused
  {
    if more != [] {
      var n := |more| - 1;
      RefusalDrops(st, s, response, more[..n]);
      DropStays(st, RunFrom(st, DoAnswer(st, s, response), more[..n]).value, more[n]);
    }
  }

  ghost predicate Ticked(steps: seq<Step>) {
    exists i :: 0 <= i < |steps| && steps[i] == Refreshing(Tick)
  }

  // The run stores a further grant for filter calls to load.
  ghost predicate Stores(st: Stream, s: State, steps: seq<Step>) {
    RunFrom(st, s, steps).Some? && RunFrom(st, s, steps).value.auth > s.auth
  }

  lemma TicklessStep(st: Stream, s: State, step: Step)
    requires (s.refresher.Selecting? || s.refresher.Stopped?) && Enabled(st, s, step) && step != Refreshing(Tick)
    ensures var t := Apply(st, s, step);
      t.auth == s.auth && t.grants == s.grants && (t.refresher.Selecting? || t.refresher.Stopped?)
  {
  }

  // Without a tick the refresher in its loop stays there or stops.
  lemma {:induction false} NoTickNoGrant(st: Stream, s: State, steps: seq<Step>)
    requires s.refresher.Selecting? && RunFrom(st, s, steps).Some? && !Ticked(steps)
    ensures var t := RunFrom(st, s, steps).value;
      t.auth == s.auth && t.grants == s.grants && (t.refresher.Selecting? || t.refresher.Stopped?)
  {
    if steps != [] {
      var n := |steps| - 1;
      assert !Ticked(steps[..n]) by {
        assert forall i :: 0 <= i < n ==> steps[..n][i] == steps[i];
      }
      NoTickNoGrant(st, s, steps[..n]);
      TicklessStep(st, RunFrom(st, s, steps[..n]).value, steps[n]);
    }
  }

  // A whole refresh with an allowed answer.
  lemma RefreshRun(st: Stream, s0: State, steps: seq<Step>, s: State, granted: Whitelist)
    returns (more: seq<Step>, t: State)
    requires RunFrom(st, s0, steps) == Some(s) && s.refresher.Selecting? && |s.grants| == s.auth + 1
    requires RefreshMapAllowed(st.channel, st.userID, Some(granted))
    ensures RunFrom(st, s0, more) == Some(t) && |more| == |steps| + 4 && more[|steps|] == Refreshing(Tick)
    ensures t.auth == s.auth + 1 && t.dropped == s.dropped && t.refused == s.refused
    ensures t.grants == s.grants + [StoredCopy(granted, s.lsn)]
  {
    more, t := Then(st, s0, steps, s, Refreshing(Tick));
    more, t := Then(st, s0, more, t, Refreshing(Answer(Allows(Some(granted)))));
    more, t := Then(st, s0, more, t, Refreshing(StorePrev));
    more, t := Then(st, s0, more, t, Refreshing(StoreAuth));
  }

  /** In the refresher's loop, after a refusal or not, a further grant is stored only by
      a run in which the select picks a pending tick; and where it does, over a closed
      Done or not, an allowed answer is stored. */
  lemma StoredOnlyOnTick(st: Stream, s: State, granted: Whitelist) returns (ticking: seq<Step>)
    requires Inv(st, s) && s.refresher.Selecting? && RefreshMapAllowed(st.channel, st.userID, Some(granted))
    ensures forall steps :: Stores(st, s, steps) ==> Ticked(steps)
    ensures Ticked(ticking) && Stores(st, s, ticking)
  {
    forall steps | Stores(st, s, steps)
      ensures Ticked(steps)
    {
      if !Ticked(steps) {
        NoTickNoGrant(st, s, steps);
      }
    }
    var t: State;
    assert RunFrom(st, s, []) == Some(s);
    ticking, t := RefreshRun(st, s, [], s, granted);
    assert ticking[0] == Refreshing(Tick);
  }

  lemma RefusedAtOnce(st: Stream, initial: Whitelist) returns (steps: seq<Step>, s: State)
    ensures RunFrom(st, Init(initial), steps) == Some(s)
    ensures s.refused && s.dropped && s.refresher.Selecting? && |s.grants| == 1 && s.auth == 0 && s.lsn == 0
  {
    var s0 := Init(initial);
    assert RunFrom(st, s0, []) == Some(s0);
    steps, s := Then(st, s0, [], s0, Refreshing(Tick));
    steps, s := Then(st, s0, steps, s, Refreshing(Answer(Denied)));
  }

  /** A refusal followed by a stored grant, as a run from the start: the pointer filter
      calls load is the one granted after the refusal. */
  lemma StoredAfterRefusal(st: Stream, initial: Whitelist, granted: Whitelist) returns (steps: seq<Step>)
    requires RefreshMapAllowed(st.channel, st.userID, Some(granted))
    ensures RunFrom(st, Init(initial), steps).Some?
    ensures var s := RunFrom(st, Init(initial), steps).value;
      s.refused && s.dropped && s.auth == 1 < |s.grants| && s.grants[1] == StoredCopy(granted, 0)
  {
    var s: State;
    steps, s := RefusedAtOnce(st, initial);
    steps, s := RefreshRun(st, Init(initial), steps, s, granted);
  }

  lemma StaysUnfiltered(st: Stream, s: State, step: Step)
    requires s.dropped && s.router.Waiting? && Enabled(st, s, step)
    ensures var t := Apply(st, s, step); t.dropped && t.router.Waiting? && t.calls == s.calls
  {
  }

  /** No transaction taken after the drop is filtered, whatever happens next; one in
      flight may be, and the closed Done keeps its frame from being written. */
  lemma {:induction false} NothingFilteredAfterDrop(st: Stream, s: State, steps: seq<Step>)
    requires s.dropped && s.router.Waiting? && RunFrom(st, s, steps).Some?
    ensures var t := RunFrom(st, s, steps).value; t.dropped && t.router.Waiting? && t.calls == s.calls
  {
    if steps != [] {
      var n := |steps| - 1;
      NothingFilteredAfterDrop(st, s, steps[..n]);
      StaysUnfiltered(st, RunFrom(st, s, steps[..n]).value, steps[n]);
    }
  }
}
