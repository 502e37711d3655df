/** Grants of one subscriber over its lifetime (internal/auth/subscriber.go): which
    channel and user they are for, and how a refresh ends. */
module AuthRefresh {
  import opened WalTypes
  import opened Whitelists
  import opened Channels
  import opened Subscribers

  // ----- Refresh -----

  datatype Wake = Timer | CtxDone | SubDone

  // One attempt: the answer, whether the request's context had ended when it came,
  // the current position when a grant is stored, and what ends the wait after it.
  datatype Attempt = Attempt(response: Response, ctxDone: bool, lsn: LSN, wake: Wake)

  datatype AttemptResult = AttemptSwapped | AttemptRevoked | AttemptUnavailable | AttemptFailed

  const DEFAULT_BACKOFFS := 3

  // The two grants a filter call can load, and the subscriber.
  datatype Held = Held(auth: Option<Whitelist>, prev: Option<Whitelist>, st: SubState)

  // One refresh of a number of calls: all but the last are retried; the last one swaps,
  // or drops for its reason, unless the stream is ending.
  ghost predicate RefreshedTo(channel: string, userID: string, backoffs: nat, before: Held, oracle: nat -> Attempt,
                              calls: nat, after: Held)
  {
    && 1 <= calls <= backoffs + 1
    && (forall i :: 0 <= i < calls - 1 ==>
          !oracle(i).ctxDone && oracle(i).response.Unavailable? && oracle(i).wake.Timer?)
    && var a := oracle(calls - 1);
       if a.ctxDone || (a.response.Unavailable? && calls <= backoffs) then
         after == before && (a.ctxDone || !a.wake.Timer?)
       else if a.response.Allows? && RefreshMapAllowed(channel, userID, a.response.grant) then
         after == Held(Some(StoredCopy(a.response.grant.value, a.lsn)), before.auth, before.st)
       else
         after == before.(st := Dropped(before.st, if a.response.Denied? || a.response.Allows? then "auth_revoked"
                                                   else "auth_unavailable"))
  }

  ghost predicate Refreshed(channel: string, userID: string, backoffs: nat, before: Held, oracle: nat -> Attempt,
                            after: Held)
  {
    exists calls :: RefreshedTo(channel, userID, backoffs, before, oracle, calls, after)
  }

  // One refresh with each tick, and nothing else in between.
  ghost predicate RefreshedInTurn(channel: string, userID: string, backoffs: nat, history: seq<Held>,
                                  turns: seq<(Wake, nat -> Attempt)>)
  {
    && 1 <= |history| <= |turns| + 1
    && forall i :: 0 <= i < |history| - 1 ==>
         turns[i].0 == Timer && Refreshed(channel, userID, backoffs, history[i], turns[i].1, history[i + 1])
  }

  class AuthSubscriber {
    const sub: Subscriber
    const cells: GrantCells
    const userID: string
    const channel: string
    const backoffs: nat
    const ttl: int

    // A grant can set the interval, but not turn on what the operator left off.
    constructor (sub: Subscriber, initial: Option<Whitelist>, userID: string, channel: string, defaultTTL: int,
                 backoffs: Option<nat>)
      ensures this.sub == sub && this.channel == channel && fresh(cells)
      ensures this.userID == if userID == "" && initial.Some? then initial.value.userID else userID
      ensures this.backoffs == if backoffs.Some? then backoffs.value else DEFAULT_BACKOFFS
      ensures ttl > 0 <==> defaultTTL > 0
      ensures ttl > 0 ==>
        ttl == if initial.Some? && initial.value.ttlSeconds > 0 then initial.value.ttlSeconds else defaultTTL
      ensures cells.auth == initial && cells.prev == None
      ensures Trusted() <==> RefreshMapAllowed(channel, this.userID, initial)
    {
      this.sub, this.channel := sub, channel;
      this.userID := if userID == "" && initial.Some? then initial.value.userID else userID;
      this.backoffs := if backoffs.Some? then backoffs.value else DEFAULT_BACKOFFS;
      if defaultTTL <= 0 {
        ttl := 0;
      } else if initial.Some? && initial.value.ttlSeconds > 0 {
        ttl := initial.value.ttlSeconds;
      } else {
        ttl := defaultTTL;
      }
      cells := new GrantCells(initial);
    }

    // Every grant a filter call can load is for this user and holds the channel's table.
    ghost predicate Trusted()
      reads cells
    {
      && RefreshMapAllowed(channel, userID, cells.auth)
      && (cells.prev.Some? ==> RefreshMapAllowed(channel, userID, cells.prev))
    }

    method SwapMap(granted: Option<Whitelist>, lsn: LSN)
      modifies cells
      ensures granted.None? ==> cells.auth == old(cells.auth) && cells.prev == old(cells.prev)
      ensures granted.Some? ==>
                && cells.auth.Some? && cells.auth.value.refreshLSN == lsn && cells.auth.value.initialData.None?
                && (cells.auth.value.userID, cells.auth.value.tables) == (granted.value.userID, granted.value.tables)
      ensures granted.Some? ==> cells.auth == Some(StoredCopy(granted.value, lsn)) && cells.prev == old(cells.auth)
    {
      if granted.None? {
        return;
      }
      var cp := granted.value;
      cp := cp.(initialData := None);
      cp := cp.(refreshLSN := lsn);
      cells.prev := cells.auth;
      cells.auth := Some(cp);
    }

    /** What a swap means to filter calls: above its position changes are judged by the
        new grant, at or below it by the one before, whatever that one's own boundary. */
    method FilterAfterSwap(granted: Whitelist, lsn: LSN, c: Change, txLSN: LSN) returns (out: Change, drop: bool)
      modifies cells
      ensures var judge := if txLSN > lsn then Some(granted) else old(cells.auth);
        (drop <==> Visible(judge, c).None?) && (!drop ==> Visible(judge, c) == Some(out))
    {
      SwapMap(Some(granted), lsn);
      out, drop := cells.FilterWithLSN(c, txLSN);
    }

    ghost function Now(): Held
      reads cells, sub
    {
      Held(cells.auth, cells.prev, sub.State())
    }

    method ApplyFetched(response: Response, lsn: LSN) returns (result: AttemptResult)
      modifies cells, sub
      ensures old(Trusted()) ==> Trusted()
      ensures match result
        case AttemptSwapped => response.Allows? && !Refuses(channel, userID, response) && unchanged(sub)
                               && cells.auth == Some(StoredCopy(response.grant.value, lsn))
                               && cells.prev == old(cells.auth)
        case AttemptRevoked => Refuses(channel, userID, response) && unchanged(cells)
                               && sub.State() == Dropped(old(sub.State()), "auth_revoked")
        case AttemptUnavailable => response.Unavailable? && unchanged(cells, sub)
        case AttemptFailed => response.Failed? && unchanged(cells, sub)
    {
      match response
      case Allows(granted) =>
        if !RefreshMapAllowed(channel, userID, granted) {
          sub.Drop("auth_revoked");
          return AttemptRevoked;
        }
        SwapMap(granted, lsn);
        return AttemptSwapped;
      case Denied =>
        sub.Drop("auth_revoked");
        return AttemptRevoked;
      case Failed =>
        return AttemptFailed;
      case Unavailable =>
        return AttemptUnavailable;
    }

    /** Fail-closed: at most one call more than there are backoffs, all but the last
        one retried; the last one swaps the grant or drops the subscriber, unless the
        stream is ending anyway. */
    method TryRefresh(oracle: nat -> Attempt) returns (calls: nat)
      modifies cells, sub
      ensures old(Trusted()) ==> Trusted()
      ensures 1 <= calls <= backoffs + 1
      // A call is retried exactly when the backend is unavailable, a backoff is left and
      // the wait runs out.
      ensures forall i :: 0 <= i < calls - 1 ==>
                !oracle(i).ctxDone && oracle(i).response.Unavailable? && oracle(i).wake.Timer?
      ensures var a := oracle(calls - 1);
        calls <= backoffs ==> a.ctxDone || !a.response.Unavailable? || !a.wake.Timer?
      ensures var a, last := oracle(calls - 1), calls == backoffs + 1;
        if a.ctxDone || (a.response.Unavailable? && !last) then unchanged(cells, sub)
        else if a.response.Allows? && !Refuses(channel, userID, a.response) then
          && cells.auth == Some(StoredCopy(a.response.grant.value, a.lsn)) && cells.prev == old(cells.auth)
          && unchanged(sub)
        else
          && unchanged(cells) && sub.queue == old(sub.queue) && sub.wired == old(sub.wired)
          && sub.reason == if old(sub.reason).Some? then old(sub.reason)
                           else Some(if a.response.Denied? || a.response.Allows? then "auth_revoked"
                                     else "auth_unavailable")
      ensures RefreshedTo(channel, userID, backoffs, old(Now()), oracle, calls, Now())
    {
      calls := 0;
      while true
        invariant 0 <= calls <= backoffs && unchanged(cells, sub)
        invariant forall i :: 0 <= i < calls ==>
                    !oracle(i).ctxDone && oracle(i).response.Unavailable? && oracle(i).wake.Timer?
        decreases backoffs - calls
      {
        var attempt := calls;
        calls := calls + 1;
        var a := oracle(attempt);
        if a.ctxDone {
          return;
        }
        var result := ApplyFetched(a.response, a.lsn);
        match result
        case AttemptSwapped => return;
        case AttemptRevoked => return;
        case AttemptFailed =>
          sub.Drop("auth_unavailable");
          return;
        case AttemptUnavailable =>
          if attempt == backoffs {
            sub.Drop("auth_unavailable");
            return;
          }
          match a.wake
          case CtxDone => return;
          case SubDone => return;
          case Timer =>
      }
    }

    method Refresh(oracle: nat -> Attempt)
      modifies cells, sub
      ensures old(Trusted()) ==> Trusted()
      ensures Refreshed(channel, userID, backoffs, old(Now()), oracle, Now())
    {
      var _ := TryRefresh(oracle);
    }

    // jitter is what ends the initial wait, if there is one; then one entry a turn.
    // history is what there was before the first refresh and after each.
    method RefreshLoop(jitter: Option<Wake>, turns: seq<(Wake, nat -> Attempt)>) returns (ghost history: seq<Held>)
      modifies cells, sub
      ensures old(Trusted()) ==> Trusted()
      ensures ttl <= 0 ==> unchanged(cells, sub)
      ensures RefreshedInTurn(channel, userID, backoffs, history, turns)
      ensures history[0] == old(Now()) && history[|history| - 1] == Now()
      ensures jitter.Some? && jitter.value != Timer ==> |history| == 1
      // It goes on to the first other wake-up.
      ensures |history| <= |turns| && ttl > 0 && (jitter.None? || jitter.value == Timer) ==>
                turns[|history| - 1].0 != Timer
    {
      history := [Now()];
      if jitter.Some? && jitter.value != Timer {
        return;
      }
      if ttl <= 0 {
        return;
      }
      for n := 0 to |turns|
        invariant old(Trusted()) ==> Trusted()
        invariant |history| == n + 1 && history[0] == old(Now()) && history[n] == Now()
        invariant RefreshedInTurn(channel, userID, backoffs, history, turns)
      {
        if turns[n].0 != Timer {
          return;
        }
        Refresh(turns[n].1);
        history := history + [Now()];
      }
    }
  }
}
