/** Runs in which what the refresher's machine lets a filter do reaches the wire
    (internal/router/router.go:195-279, internal/sse/stream.go:123-223). */
module Realization {
  import opened WalTypes
  import opened Whitelists
  import opened Routing
  import opened Delivery
  import DeliveryTheorems
  import GrantSwap
  import EndToEnd
  import opened Disclosure

  const ID: SubId := 0

  // A run to the state, that has dispatched nothing.
  ghost predicate Led(env: Env, steps: seq<Step>, s: State) {
    Run(env, steps) == Some(s) && forall i :: 0 <= i < |steps| ==> !steps[i].Check?
  }

  lemma Then(env: Env, steps: seq<Step>, s: State, step: Step) returns (more: seq<Step>, t: State)
    requires Run(env, steps) == Some(s) && Enabled(env, s, step)
    ensures more == steps + [step] && t == Apply(env, s, step) && Run(env, more) == Some(t)
  {
    more, t := steps + [step], Apply(env, s, step);
    assert more[..|more| - 1] == steps;
  }

  // A subscriber just registered, with nothing before its prelude.
  function Joined(ch: Channel, start: LSN): Sub {
    Sub(ch, start, 1, true, None, false, [], Preamble([Prelude]), [], 0, 0, [], [], [], 0, 0, false)
  }

  lemma JoinsAndTakes(env: Env, ch: Channel, start: LSN, tx: Tx) returns (steps: seq<Step>, s: State)
    ensures Led(env, steps, s)
    ensures s == State([tx], tx.commitLSN, 1, 1, Matching(0, {}), map[ID := Joined(ch, start)])
  {
    assert Run(env, []) == Some(Init);
    steps, s := Then(env, [], Init, Handshake(ID, ch, Some(start), 1));
    steps, s := Then(env, steps, s, Register(ID, None));
    assert [Prelude] + [] == [Prelude] && s.subs == map[ID := Joined(ch, start)];
    steps, s := Then(env, steps, s, Record(tx));
    steps, s := Then(env, steps, s, HandOff);
    steps, s := Then(env, steps, s, Take);
  }

  lemma MatchOne(env: Env, steps: seq<Step>, s: State) returns (more: seq<Step>, t: State)
    requires Led(env, steps, s) && Enabled(env, s, Match)
    ensures Led(env, more, t) && t == DoMatch(env, s)
  {
    more, t := Then(env, steps, s, Match);
  }

  // The rest of the changes is looked up; the subscriber is found if one of them finds it.
  lemma {:induction false} MatchRest(env: Env, steps: seq<Step>, s: State) returns (more: seq<Step>, t: State)
    requires Led(env, steps, s) && s.pc.Matching? && Busy(s) && s.pc.next <= |Current(s).changes|
    requires ID in s.subs && s.subs[ID].registered
    ensures Led(env, more, t) && t.pc.Matching? && t == s.(pc := t.pc) && t.pc.next == |Current(s).changes|
    ensures s.pc.eligible <= t.pc.eligible
    ensures (exists i :: s.pc.next <= i < |Current(s).changes|
                         && env.finds(s.subs[ID].channel, Current(s).changes[i])) ==> ID in t.pc.eligible
    decreases |Current(s).changes| - s.pc.next
  {
    more, t := steps, s;
    if s.pc.next < |Current(s).changes| {
      more, t := MatchOne(env, steps, s);
      assert env.finds(s.subs[ID].channel, Current(s).changes[s.pc.next]) ==> ID in t.pc.eligible;
      more, t := MatchRest(env, more, t);
    }
  }

  lemma FrameIsFound(cfg: Config, ch: Channel, start: LSN, ws: seq<Option<Whitelist>>, tx: Tx)
    requires |ws| == |tx.changes| && Decide(cfg, ch, start, ws, tx).Frame?
    ensures exists i :: 0 <= i < |tx.changes| && EndToEnd.EnvOf(cfg).finds(ch, tx.changes[i])
  {
    FrameHoldsOwnRow(cfg, ch, start, ws, tx);
    var c :| c in Decide(cfg, ch, start, ws, tx).kept && MatchesAnchor(ch, c);
    var i := KeptComesFrom(ch, ws, tx.changes, c);
    AnchorImpliesKey(ch, tx.changes[i]);
  }

  // Up to the dispatch.
  lemma ReachesDispatch(cfg: Config, ch: Channel, start: LSN, ws: seq<Option<Whitelist>>, tx: Tx)
    returns (steps: seq<Step>, s: State)
    requires |ws| == |tx.changes| && Decide(cfg, ch, start, ws, tx).Frame?
    ensures Led(EndToEnd.EnvOf(cfg), steps, s) && Busy(s) && Current(s) == tx && s.taken == 1
    ensures s.pc.Dispatching? && ID in s.pc.todo && ID in s.subs && s.subs[ID] == Joined(ch, start)
  {
    var env := EndToEnd.EnvOf(cfg);
    steps, s := JoinsAndTakes(env, ch, start, tx);
    FrameIsFound(cfg, ch, start, ws, tx);
    steps, s := MatchRest(env, steps, s);
    steps, s := Then(env, steps, s, BeginDispatch);
  }

  // A step of the subscriber's stream loop.
  lemma Streams(env: Env, steps: seq<Step>, s: State, step: Step) returns (more: seq<Step>, t: State)
    requires Run(env, steps) == Some(s) && IsStreamStep(step) && step.id == ID && Enabled(env, s, step)
    ensures more == steps + [step] && Run(env, more) == Some(t)
    ensures ID in t.subs && t.subs[ID] == StreamStep(env, s, step)
  {
    more, t := Then(env, steps, s, step);
    ApplyStream(env, s, step);
  }

  lemma Greets(env: Env, steps: seq<Step>, s: State) returns (more: seq<Step>, t: State)
    requires Run(env, steps) == Some(s) && ID in s.subs && s.subs[ID].loop == Preamble([Prelude])
    ensures more == steps + [WritePreamble(ID), WritePreamble(ID)] && Run(env, more) == Some(t) && ID in t.subs
    ensures t.subs[ID] == s.subs[ID].(out := s.subs[ID].out + [Prelude], loop := Selecting)
  {
    more, t := Streams(env, steps, s, WritePreamble(ID));
    more, t := Streams(env, more, t, WritePreamble(ID));
  }

  lemma TakenOne(sub: Sub, text: string)
    requires sub.loop.Selecting? && sub.queue == [text] && !sub.done
    ensures var taken := DoTake(sub);
      && taken == sub.(queue := [], loop := Batching([text]))
      && DoCheckDone(taken, true) == taken.(loop := Writing([text]), batchIsLate := false)
      && DoWriteNext(DoCheckDone(taken, true)).out == sub.out + [TxFrame(text)]
      && DoWriteNext(DoCheckDone(taken, true)).channel == sub.channel
      && DoWriteNext(DoCheckDone(taken, true)).startLSN == sub.startLSN
  {
    assert sub.loop.Held() + [text] == [text] && sub.queue[1..] == [];
  }

  lemma WritesOne(env: Env, steps: seq<Step>, s: State, text: string) returns (more: seq<Step>, t: State)
    requires Run(env, steps) == Some(s) && ID in s.subs && s.subs[ID].loop.Selecting?
    requires s.subs[ID].queue == [text] && s.subs[ID].cap == 1 && !s.subs[ID].done
    ensures more == steps + [TakeFirst(ID), CheckDone(ID, true), WriteNext(ID)] && Run(env, more) == Some(t)
    ensures ID in t.subs && t.subs[ID].out == s.subs[ID].out + [TxFrame(text)]
    ensures t.subs[ID].channel == s.subs[ID].channel && t.subs[ID].startLSN == s.subs[ID].startLSN
  {
    TakenOne(s.subs[ID], text);
    more, t := Streams(env, steps, s, TakeFirst(ID));
    more, t := Streams(env, more, t, CheckDone(ID, true));
    more, t := Streams(env, more, t, WriteNext(ID));
  }

  // The frame goes from the router's hand to the client.
  lemma HandIsWritten(env: Env, steps: seq<Step>, s: State, text: string) returns (more: seq<Step>, t: State)
    requires Run(env, steps) == Some(s) && s.pc.Sending? && s.pc.id == ID && s.pc.text == text && ID in s.subs
    requires var sub := s.subs[ID];
      sub.queue == [] && sub.cap == 1 && sub.loop == Preamble([Prelude]) && sub.out == [] && !sub.done
    ensures Run(env, more) == Some(t) && steps <= more && ID in t.subs
    ensures forall i :: |steps| <= i < |more| ==> !more[i].Check?
    ensures t.subs[ID].out == [Prelude, TxFrame(text)]
    ensures t.subs[ID].channel == s.subs[ID].channel && t.subs[ID].startLSN == s.subs[ID].startLSN
  {
    more, t := Then(env, steps, s, Send);
    more, t := Greets(env, more, t);
    more, t := WritesOne(env, more, t, text);
  }

  // A run with one dispatch, whose frame is written.
  lemma OneFrame(cfg: Config, ch: Channel, start: LSN, ws: seq<Option<Whitelist>>, tx: Tx)
    returns (steps: seq<Step>, c: nat, s: State)
    requires |ws| == |tx.changes| && Decide(cfg, ch, start, ws, tx).Frame?
    ensures Run(EndToEnd.EnvOf(cfg), steps) == Some(s) && ID in s.subs
    ensures DeliveryTheorems.IsDispatch(EndToEnd.EnvOf(cfg), steps, ID, c)
    ensures DeliveryTheorems.EntryOf(EndToEnd.EnvOf(cfg), steps, ID, c) == Entry(0, tx, ws)
    ensures forall i :: 0 <= i < |steps| && steps[i].Check? ==> i == c
    ensures s.subs[ID].out == [Prelude, TxFrame(Decide(cfg, ch, start, ws, tx).text)]
    ensures s.subs[ID].channel == ch && s.subs[ID].startLSN == start
  {
    var env := EndToEnd.EnvOf(cfg);
    var before, d := ReachesDispatch(cfg, ch, start, ws, tx);
    c := |before|;
    steps, s := Then(env, before, d, Check(ID, ws));
    ghost var upTo := steps;
    steps, s := HandIsWritten(env, steps, s, Decide(cfg, ch, start, ws, tx).text);
    assert steps[..c] == before && steps[c] == Check(ID, ws) by {
      assert upTo == before + [Check(ID, ws)];
    }
  }

  // Before its one dispatch the delivery runs alone, after it the refresher goes first.
  function OneDispatchAt(steps: nat, c: nat, p: nat, gsteps: nat): seq<nat> {
    seq(steps, x => if x < c then 0 else if x == c then p else gsteps)
  }

  lemma OneDispatchTogether(j: Joint, c: nat, n: nat)
    requires Run(j.Deciding(), j.steps).Some? && j.id in Run(j.Deciding(), j.steps).value.subs
    requires GrantSwap.RunFrom(j.st, GrantSwap.Init(j.initial), j.gsteps).Some?
    requires forall i :: 0 <= i < |j.steps| && j.steps[i].Check? ==> i == c
    requires FilteredBy(j, c, n) && j.clock == OneDispatchAt(|j.steps|, c, j.ClockAt(c), |j.gsteps|)
    ensures Together(j)
  {
    forall i | j.IsDispatch(i)
      ensures exists m :: FilteredBy(j, i, m)
    {
      assert i == c;
    }
  }

  lemma GreetedAndWritten(text: string)
    ensures Written([Prelude, TxFrame(text)]) == [text]
  {
    WrittenAppend([Prelude], TxFrame(text));
    WrittenAppend([], Prelude);
    assert [Prelude] + [TxFrame(text)] == [Prelude, TxFrame(text)] && [] + [Prelude] == [Prelude];
  }

  /** Whatever the refresher's machine can make of a transaction can reach a client: for
      every run of it, and filter calls in it that yield a frame, some interleaving with a
      delivery writes exactly that frame. */
  lemma FilteredIsWritten(cfg: Config, ch: Channel, start: LSN, st: GrantSwap.Stream, initial: Whitelist,
                          gsteps: seq<GrantSwap.Step>, p: nat, n: nat, tx: Tx, ws: seq<Option<Whitelist>>)
    returns (j: Joint, i: nat)
    requires GrantSwap.RunFrom(st, GrantSwap.Init(initial), gsteps).Some?
    requires p < n <= |gsteps| && gsteps[p] == GrantSwap.Route
    requires forall q :: p < q < n ==> gsteps[q] != GrantSwap.EndTx
    requires var g := GrantSwap.RunFrom(st, GrantSwap.Init(initial), gsteps[..n]);
      g.Some? && HasFiltered(st, g.value, tx, ws)
    requires |ws| == |tx.changes| && Decide(cfg, ch, start, ws, tx).Frame?
    ensures j.cfg == cfg && j.st == st && j.initial == initial && j.gsteps == gsteps
    ensures Together(j) && FilteredBy(j, i, n) && (j.EntryOf(i).tx, j.EntryOf(i).ws) == (tx, ws)
    ensures Client(j).channel == ch && Client(j).startLSN == start
    ensures Written(Client(j).out) == [Decide(cfg, ch, start, ws, tx).text]
  {
    var steps, c, s := OneFrame(cfg, ch, start, ws, tx);
    i := c;
    j := Joint(cfg, ID, steps, st, initial, gsteps, OneDispatchAt(|steps|, c, p, |gsteps|));
    assert FilteredBy(j, c, n);
    OneDispatchTogether(j, c, n);
    GreetedAndWritten(Decide(cfg, ch, start, ws, tx).text);
  }
}
