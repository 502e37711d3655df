/** Subscribers as the router sees them (internal/router/subscriber.go), and the
    pair of grant pointers their filter loads (internal/auth/subscriber.go). */
module Subscribers {
  import opened WalTypes
  import opened Whitelists
  import opened Routing

  // AuthMap and PrevWhitelist: two pointers stored and loaded separately.
  class GrantCells {
    var auth: Option<Whitelist>
    var prev: Option<Whitelist>

    constructor (initial: Option<Whitelist>)
      ensures auth == initial && prev == None
    {
      auth, prev := initial, None;
    }

    // The previous grant judges exactly what is at or below the current one's boundary.
    method FilterWithLSN(c: Change, txLSN: LSN) returns (out: Change, drop: bool)
      ensures auth.None? ==> drop
      ensures auth.Some? && txLSN > auth.value.refreshLSN ==>
                (drop <==> Visible(auth, c).None?) && (!drop ==> Visible(auth, c) == Some(out))
      ensures auth.Some? && txLSN <= auth.value.refreshLSN ==>
                (drop <==> Visible(prev, c).None?) && (!drop ==> Visible(prev, c) == Some(out))
      ensures drop <==> Visible(Resolve(auth, prev, txLSN), c).None?
      ensures !drop ==> Visible(Resolve(auth, prev, txLSN), c) == Some(out)
    {
      var m := auth;
      if m.None? {
        return c, true;
      }
      if txLSN <= m.value.refreshLSN {
        if prev.None? {
          return c, true;
        }
        m := prev;
      }
      out, drop := Filter(m, c);
    }
  }

  // What dispatching can change of a subscriber.
  datatype SubState = SubState(reason: Option<string>, wired: bool, queue: seq<string>)

  class Subscriber {
    const channel: Channel
    const startLSN: LSN
    const filter: GrantCells?
    // Capacity of the queue the stream loop wires in.
    const queueCap: nat

    // Done is closed exactly when a reason is stored.
    var reason: Option<string>
    var wired: bool
    var queue: seq<string>

    constructor (channel: Channel, startLSN: LSN, filter: GrantCells?, queueCap: nat)
      ensures this.channel == channel && this.startLSN == startLSN
      ensures this.filter == filter && this.queueCap == queueCap
      ensures State() == SubState(None, false, [])
    {
      this.channel, this.startLSN, this.filter, this.queueCap := channel, startLSN, filter, queueCap;
      reason, wired, queue := None, false, [];
    }

    ghost function State(): SubState
      reads this
    {
      SubState(reason, wired, queue)
    }

    method WireSendFunc()
      modifies this
      ensures State() == old(State()).(wired := true)
    {
      wired := true;
    }

    // Never blocks: a full queue, or no queue yet, refuses the frame.
    method Send(frame: string) returns (ok: bool)
      modifies this
      ensures ok <==> old(wired && |queue| < queueCap)
      ensures queue == if ok then old(queue) + [frame] else old(queue)
      ensures State() == old(State()).(queue := queue)
    {
      ok := wired && |queue| < queueCap;
      if ok {
        queue := queue + [frame];
      }
    }

    method Drop(why: string)
      modifies this
      ensures reason == if old(reason).None? then Some(why) else old(reason)
      ensures wired == old(wired) && queue == old(queue)
      ensures State() == Dropped(old(State()), why)
    {
      if reason.None? {
        reason := Some(why);
      }
    }

    // The whitelist every filter call of one transaction resolves to, when no
    // refresh stores a pointer in between.
    ghost function Grant(txLSN: LSN): Option<Whitelist>
      requires filter != null
      reads this, filter
    {
      Resolve(filter.auth, filter.prev, txLSN)
    }

    // What the transaction means to it under that whitelist.
    ghost function Outcome(cfg: Config, tx: Tx): Outcome
      requires filter != null
      reads this, filter
    {
      Decide(cfg, channel, startLSN, Constant(Grant(tx.commitLSN), |tx.changes|), tx)
    }
  }

  // The first reason wins.
  ghost function Dropped(st: SubState, why: string): SubState {
    if st.reason.None? then st.(reason := Some(why)) else st
  }

  ghost function Offered(st: SubState, cap: nat, frame: string): SubState {
    if st.wired && |st.queue| < cap then st.(queue := st.queue + [frame])
    else Dropped(st, "slow_consumer")
  }

  // What an outcome does to a subscriber that is not dropped.
  ghost function Handled(outcome: Outcome, st: SubState, cap: nat): SubState {
    match outcome
    case Skip => st
    case TooLarge => Dropped(st, "tx_too_large")
    case Frame(_, text) => Offered(st, cap, text)
  }

  /** Reference meaning of dispatching tx to one registered subscriber, found
      without any index. */
  ghost function Dispatched(cfg: Config, s: Subscriber, tx: Tx): SubState
    reads s, s.filter
  {
    if s.reason.Some? || s.filter == null then s.State()
    else Handled(s.Outcome(cfg, tx), s.State(), s.queueCap)
  }
}
