/** The methods against the step machines: what the router, the grant pointers, the
    refresher and a stream do to one subscriber is what the machines' steps do to it. */
module Refinement {
  import opened WalTypes
  import opened Whitelists
  import opened Routing
  import opened Subscribers
  import opened Delivery
  import Channels
  import GrantSwap
  import StreamLoop
  import EndToEnd

  // ----- A dispatch -----

  // The state after some steps, if each is enabled when taken.
  ghost function After(env: Env, s: State, steps: seq<Step>): Option<State>
    decreases |steps|
  {
    if steps == [] then Some(s)
    else if Enabled(env, s, steps[0]) then After(env, Apply(env, s, steps[0]), steps[1..])
    else None
  }

  // A wired subscriber as the delivery machine has it.
  ghost predicate Shows(d: Sub, st: SubState, cap: nat) {
    && st.wired && d.cap == cap && d.queue == st.queue
    && d.reason == st.reason && (d.done <==> st.reason.Some?)
  }

  // The subscriber after a dispatch, dropped before or not.
  ghost function DispatchedTo(cfg: Config, d: Sub, ws: seq<Option<Whitelist>>, tx: Tx, st: SubState): SubState
    requires |ws| == |tx.changes|
  {
    if st.reason.Some? then st else Handled(Decide(cfg, d.channel, d.startLSN, ws, tx), st, d.cap)
  }

  // With the filter in place that is what the router's method leaves.
  lemma DispatchedIs(cfg: Config, s: Subscriber, tx: Tx, d: Sub)
    requires s.filter != null && d.channel == s.channel && d.startLSN == s.startLSN && d.cap == s.queueCap
    ensures Dispatched(cfg, s, tx)
         == DispatchedTo(cfg, d, Constant(s.Grant(tx.commitLSN), |tx.changes|), tx, s.State())
  {
  }

  lemma OneStep(env: Env, s: State, step: Step)
    requires Enabled(env, s, step)
    ensures After(env, s, [step]) == Some(Apply(env, s, step))
  {
    assert [step][1..] == [];
  }

  lemma {:induction false} MoreSteps(env: Env, s: State, a: seq<Step>, b: seq<Step>)
    requires After(env, s, a).Some?
    ensures After(env, s, a + b) == After(env, After(env, s, a).value, b)
    decreases |a|
  {
    if a == [] {
      assert a + b == b;
    } else {
      assert (a + b)[0] == a[0] && (a + b)[1..] == a[1..] + b;
      MoreSteps(env, Apply(env, s, a[0]), a[1..], b);
    }
  }

  lemma Then(env: Env, s: State, steps: seq<Step>, t: State, step: Step) returns (more: seq<Step>, u: State)
    requires After(env, s, steps) == Some(t) && Enabled(env, t, step)
    ensures more == steps + [step] && u == Apply(env, t, step) && After(env, s, more) == Some(u)
  {
    more, u := steps + [step], Apply(env, t, step);
    OneStep(env, t, step);
    MoreSteps(env, s, steps, [step]);
  }

  // Drop returns once Done is closed.
  lemma DropEnds(env: Env, s0: State, steps: seq<Step>, s: State, id: SubId) returns (more: seq<Step>, t: State)
    requires After(env, s0, steps) == Some(s) && s.pc.InDrop? && s.pc.id == id
    requires id in s.subs && s.subs[id].reason.Some?
    ensures steps <= more && After(env, s0, more) == Some(t) && t.pc == Dispatching(s.pc.todo) && id in t.subs
    ensures var d, e := s.subs[id], t.subs[id];
      e.done && e.reason == d.reason && e.queue == d.queue && e.cap == d.cap
    ensures OnlyMoves(s, t, id)
  {
    more, t := Then(env, s0, steps, s, DropCancel(id));
    more, t := Then(env, s0, more, t, DropReturned);
  }

  // The others stay as they are.
  ghost predicate OnlyMoves(s: State, t: State, id: SubId) {
    t.subs.Keys == s.subs.Keys && forall j :: j in s.subs && j != id ==> t.subs[j] == s.subs[j]
  }

  // The offer of a frame, and the drop where it is refused.
  lemma OfferEnds(env: Env, s0: State, steps: seq<Step>, s: State, id: SubId, st: SubState)
    returns (more: seq<Step>, t: State)
    requires After(env, s0, steps) == Some(s) && s.pc.Sending? && s.pc.id == id && id in s.subs
    requires Shows(s.subs[id], st, s.subs[id].cap) && st.reason.None?
    ensures steps <= more && After(env, s0, more) == Some(t) && t.pc == Dispatching(s.pc.todo) && id in t.subs
    ensures Shows(t.subs[id], Offered(st, s.subs[id].cap, s.pc.text), s.subs[id].cap) && OnlyMoves(s, t, id)
  {
    more, t := Then(env, s0, steps, s, Send);
    if t.pc.InDrop? {
      more, t := DropEnds(env, s0, more, t, id);
    }
  }

  lemma CheckIs(cfg: Config, s: State, id: SubId, ws: seq<Option<Whitelist>>)
    requires s.pc.Dispatching? && Busy(s) && id in s.pc.todo && id in s.subs && |ws| == |Current(s).changes|
    ensures var env, d := EndToEnd.EnvOf(cfg), s.subs[id];
      var t := Apply(env, s, Check(id, ws));
      && OnlyMoves(s, t, id) && id in t.subs && t.subs[id].cap == d.cap
      && t.subs[id].done == d.done && t.subs[id].queue == d.queue
      && (if d.done then t.pc == Dispatching(s.pc.todo - {id}) && t.subs[id].reason == d.reason
          else
            match Decide(cfg, d.channel, d.startLSN, ws, Current(s))
            case Skip => t.pc == Dispatching(s.pc.todo - {id}) && t.subs[id].reason == d.reason
            case Frame(_, text) => t.pc == Sending(s.pc.todo - {id}, id, text) && t.subs[id].reason == d.reason
            case TooLarge =>
              && t.pc == InDrop(s.pc.todo - {id}, id, [])
              && t.subs[id].reason == if d.reason.None? then Some("tx_too_large") else d.reason)
  {
  }

  /** A dispatch, run to its end in the delivery machine (the Done check and the filter
      calls, the offer, the drop that follows a refusal or a limit), does to the subscriber
      what the router's method does, and to no other anything. */
  lemma DispatchIsDelivery(cfg: Config, s: State, id: SubId, ws: seq<Option<Whitelist>>, st: SubState)
    returns (steps: seq<Step>, t: State)
    requires s.pc.Dispatching? && Busy(s) && id in s.pc.todo && id in s.subs && |ws| == |Current(s).changes|
    requires Shows(s.subs[id], st, s.subs[id].cap)
    ensures steps != [] && steps[0] == Check(id, ws) && After(EndToEnd.EnvOf(cfg), s, steps) == Some(t)
    ensures t.pc == Dispatching(s.pc.todo - {id}) && id in t.subs
    ensures Shows(t.subs[id], DispatchedTo(cfg, s.subs[id], ws, Current(s), st), s.subs[id].cap)
    ensures OnlyMoves(s, t, id)
  {
    var env := EndToEnd.EnvOf(cfg);
    CheckIs(cfg, s, id, ws);
    steps, t := Then(env, s, [], s, Check(id, ws));
    assert steps[0] == Check(id, ws);
    if t.pc.Sending? {
      steps, t := OfferEnds(env, s, steps, t, id, st);
    } else if t.pc.InDrop? {
      steps, t := DropEnds(env, s, steps, t, id);
    }
  }

  // ----- A filter call -----

  // What the two pointers hold.
  ghost function AuthOf(g: GrantSwap.State): Option<Whitelist> {
    if g.auth < |g.grants| then Some(g.grants[g.auth]) else None
  }

  ghost function PrevOf(g: GrantSwap.State): Option<Whitelist> {
    if g.prev.Some? && g.prev.value < |g.grants| then Some(g.grants[g.prev.value]) else None
  }

  // One filter call: the load of Auth, and of Prev where that is needed.
  ghost function Called(st: GrantSwap.Stream, g: GrantSwap.State): GrantSwap.State
    requires GrantSwap.Enabled(st, g, GrantSwap.LoadAuth)
  {
    var loaded := GrantSwap.DoLoadAuth(st, g);
    if loaded.router.NeedsPrev? then GrantSwap.DoLoadPrev(st, loaded) else loaded
  }

  /** A filter call of the grant machine with no store in between uses the grant that
      FilterWithLSN judges by: the current one above its boundary, else the previous one. */
  lemma CallIsFilterWithLSN(st: GrantSwap.Stream, g: GrantSwap.State)
    requires GrantSwap.Enabled(st, g, GrantSwap.LoadAuth) && GrantSwap.PointersInv(g)
    ensures var t, n, lsn := Called(st, g), |g.router.used|, g.txs[g.router.t].commitLSN;
      && t.router.Routing? && |t.router.used| == n + 1 && t.router.used[..n] == g.router.used
      && GrantSwap.Resolved(g.grants, t.router.used)[n] == Resolve(AuthOf(g), PrevOf(g), lsn)
      && GrantSwap.Resolved(g.grants, t.router.used)[n]
         == if lsn > AuthOf(g).value.refreshLSN then AuthOf(g) else PrevOf(g)
  {
  }

  // ----- A refresh -----

  // The swap, where the answer went on to one.
  ghost function Swapped(st: GrantSwap.Stream, g: GrantSwap.State, response: Channels.Response): GrantSwap.State
    requires g.refresher.Fetching? && GrantSwap.PointersInv(g)
  {
    var t := GrantSwap.DoAnswer(st, g, response);
    if t.refresher.Stamped? then
      var u := GrantSwap.Refreshed(st, t, GrantSwap.StorePrev);
      GrantSwap.Refreshed(st, u, GrantSwap.StoreAuth)
    else t
  }

  /** An answer in the grant machine, with the swap it may lead to, stores and drops as
      applyFetched and tryRefresh do: it stores exactly an allowed grant, stamped, with the
      old one behind it; it drops for a refusal, a failure, or when no backoff is left. */
  lemma AnswerIsApplied(st: GrantSwap.Stream, g: GrantSwap.State, response: Channels.Response)
    requires g.refresher.Fetching? && GrantSwap.PointersInv(g)
    ensures var t := Swapped(st, g, response);
      var allowed := response.Allows? && Channels.RefreshMapAllowed(st.channel, st.userID, response.grant);
      var retried := response.Unavailable? && g.refresher.attempt != st.backoffs;
      && (if allowed then AuthOf(t) == Some(Channels.StoredCopy(response.grant.value, g.lsn)) && PrevOf(t) == AuthOf(g)
          else AuthOf(t) == AuthOf(g) && PrevOf(t) == PrevOf(g))
      && (t.dropped <==> g.dropped || !(allowed || retried))
      && t.refresher == if retried then GrantSwap.Backing(g.refresher.attempt) else GrantSwap.Selecting
  {
  }

  // ----- The end of a stream -----

  /** Where the stream loop sees a drop, the machine's end of a stream writes what the
      handler's does: the terminal frame with the stored reason, none for a gone client. */
  lemma EndIsFinish(t: StreamLoop.Turn, d: Sub)
    requires d.reason.Some?
    ensures var e := Delivery.Finish(d, t.failAt != Some(0));
      StreamLoop.Closes(t, d.out, e.out, d.reason) && e.queue == [] && e.loop == Exited
  {
  }
}
