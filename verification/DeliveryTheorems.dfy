/** What every run of the delivery steps guarantees a client. */
module DeliveryTheorems {
  import opened WalTypes
  import opened Whitelists
  import opened Routing
  import opened Delivery

  /** Atomic, ordered, nothing twice, nothing lost: at every moment the frames
      dispatch produced for a subscriber are, in commit order and each exactly once,
      the written ones, then those thrown away at exit, held by the stream loop,
      queued, refused, and in the router's hand. Before the drop none was thrown
      away or refused. */
  lemma FramesAreConserved(env: Env, steps: seq<Step>, id: SubId)
    requires Run(env, steps).Some? && id in Run(env, steps).value.subs
    ensures var s := Run(env, steps).value;
      var sub := s.subs[id];
      var produced := Produced(env, sub.channel, sub.startLSN, sub.log);
      && produced
         == Written(sub.out) + sub.discarded + sub.loop.Held() + sub.queue + sub.lost + InHand(TurnOf(s.pc, id))
      && Written(sub.out) <= produced
      && (!sub.done ==> sub.discarded == [] && sub.lost == [])
      && (forall k :: 0 <= k < |sub.log| ==>
            0 <= sub.log[k].index < |s.committed| && s.committed[sub.log[k].index] == sub.log[k].tx)
      && (forall j, k :: 0 <= j < k < |sub.log| ==> sub.log[j].index < sub.log[k].index)
  {
    RunInv(env, steps);
    SubAt(env, Run(env, steps).value, id);
  }

  /** No gap: until it is dropped, a registered subscriber has been dispatched every
      transaction the router took after its Register and has finished with, except
      those none of whose changes finds it. */
  lemma NothingIsMissed(env: Env, steps: seq<Step>, id: SubId, j: nat)
    requires Run(env, steps).Some? && id in Run(env, steps).value.subs
    requires var s := Run(env, steps).value;
      && s.subs[id].registered && !s.subs[id].done
      && s.subs[id].regAt <= j < s.taken && (j < s.taken - 1 || s.pc.Idle?)
    ensures var s := Run(env, steps).value;
      j < |s.committed| && (Logged(s.subs[id].log, j) || !Eligible(env, s.subs[id].channel, s.committed[j]))
  {
    var s := Run(env, steps).value;
    RunInv(env, steps);
    SubAt(env, s, id);
    assert Settled(env, s.committed, s.subs[id].channel, s.subs[id].log, j);
  }

  /** No hole, dropped or not: between its Register and any transaction it was ever
      dispatched, a subscriber has been dispatched every transaction that finds it. */
  lemma NothingIsSkipped(env: Env, steps: seq<Step>, id: SubId, k: nat, j: nat)
    requires Run(env, steps).Some? && id in Run(env, steps).value.subs
    requires var sub := Run(env, steps).value.subs[id]; k < |sub.log| && sub.regAt <= j < sub.log[k].index
    ensures var s := Run(env, steps).value;
      j < |s.committed| && (Logged(s.subs[id].log, j) || !Eligible(env, s.subs[id].channel, s.committed[j]))
  {
    var s := Run(env, steps).value;
    RunInv(env, steps);
    SubAt(env, s, id);
    var sub := s.subs[id];
    assert Filled(env, s.committed, sub.channel, sub.log, sub.regAt, sub.log[k].index);
    assert Settled(env, s.committed, sub.channel, sub.log, j);
  }

  /** Ending a stream: Done never closes without a reason; once it is closed frames of
      at most one batch, of at most the queue capacity, are still written; a terminal
      frame is the last output, carries the stored reason, and so is the only one. */
  lemma StreamsEndInOrder(env: Env, steps: seq<Step>, id: SubId)
    requires Run(env, steps).Some? && id in Run(env, steps).value.subs
    ensures var sub := Run(env, steps).value.subs[id];
      && (sub.done ==> sub.reason.Some?)
      && sub.lateBatches <= 1 && (sub.lateBatches == 0 <==> sub.late == 0)
      && sub.late <= sub.cap && |sub.queue| <= sub.cap
      && (forall i :: 0 <= i < |sub.out| && sub.out[i].Terminal? ==>
            i == |sub.out| - 1 && sub.loop.Exited? && sub.reason == Some(sub.out[i].reason))
  {
    RunInv(env, steps);
    SubAt(env, Run(env, steps).value, id);
  }

  // ----- What later steps preserve -----

  ghost predicate LaterSub(a: Sub, b: Sub) {
    && a.channel == b.channel && a.startLSN == b.startLSN && a.cut == b.cut
    && (a.reason.Some? ==> b.reason == a.reason)
    && (a.done ==> b.done)
    && a.log <= b.log
    && a.out <= b.out
  }

  ghost predicate Later(s: State, t: State) {
    && s.committed <= t.committed
    && forall id {:trigger id in t.subs} :: id in s.subs ==> id in t.subs && LaterSub(s.subs[id], t.subs[id])
  }

  lemma LaterOne(s: State, id: SubId, move: Move)
    requires id in s.subs && LaterSub(s.subs[id], move.sub)
    ensures Later(s, Moved(s, id, move))
  {
  }

  lemma StreamStepExtends(env: Env, s: State, step: Step)
    requires IsStreamStep(step) && Enabled(env, s, step)
    ensures s.subs[step.id].out <= StreamStep(env, s, step).out
  {
    if MovesFrames(step) {
      MovingStepExtends(env, s, step);
    } else {
      QuietStepExtends(env, s, step);
    }
  }

  lemma MovingStepExtends(env: Env, s: State, step: Step)
    requires MovesFrames(step) && Enabled(env, s, step)
    ensures s.subs[step.id].out <= StreamStep(env, s, step).out
  {
  }

  lemma QuietStepExtends(env: Env, s: State, step: Step)
    requires IsStreamStep(step) && !MovesFrames(step) && Enabled(env, s, step)
    ensures s.subs[step.id].out <= StreamStep(env, s, step).out
  {
  }

  lemma DispatchLater(env: Env, index: nat, tx: Tx, todo: set<SubId>, id: SubId, sub: Sub, ws: seq<Option<Whitelist>>)
    ensures LaterSub(sub, Dispatch(env, index, tx, todo, id, sub, ws).sub)
  {
  }

  lemma StreamStepLater(env: Env, s: State, step: Step)
    requires IsStreamStep(step) && Enabled(env, s, step)
    ensures Later(s, Apply(env, s, step))
  {
    ApplyStream(env, s, step);
    StreamStepFrame(env, s, step);
    StreamStepExtends(env, s, step);
    LaterOne(s, step.id, Move(s.pc, StreamStep(env, s, step)));
  }

  lemma StepLater(env: Env, s: State, step: Step)
    requires Enabled(env, s, step)
    ensures Later(s, Apply(env, s, step))
  {
    if IsStreamStep(step) {
      StreamStepLater(env, s, step);
    } else if step.Check? {
      DispatchLater(env, s.taken - 1, Current(s), s.pc.todo - {step.id}, step.id, s.subs[step.id], step.ws);
      LaterOne(s, step.id, DoCheck(env, s, step.id, step.ws));
    } else if step.Send? {
      LaterOne(s, s.pc.id, DoSend(s));
    } else if step.DropReturned? {
      LaterOne(s, s.pc.id, DoDropReturned(s));
    }
  }

  lemma LaterTrans(s: State, t: State, u: State)
    requires Later(s, t) && Later(t, u)
    ensures Later(s, u)
  {
    forall id | id in s.subs
      ensures id in u.subs && LaterSub(s.subs[id], u.subs[id])
    {
      assert id in t.subs;
    }
  }

  lemma {:induction false} RunLater(env: Env, steps: seq<Step>, more: seq<Step>)
    requires Run(env, steps + more).Some?
    ensures Run(env, steps).Some?
    ensures Later(Run(env, steps).value, Run(env, steps + more).value)
  {
    if more == [] {
      assert steps + more == steps;
    } else {
      var n := |more| - 1;
      assert (steps + more)[..|steps + more| - 1] == steps + more[..n];
      RunLater(env, steps, more[..n]);
      var mid := Run(env, steps + more[..n]).value;
      StepLater(env, mid, more[n]);
      LaterTrans(Run(env, steps).value, mid, Run(env, steps + more).value);
    }
  }

  /** The first drop reason wins in every race, and what was written stays written. */
  lemma FirstReasonWins(env: Env, steps: seq<Step>, more: seq<Step>, id: SubId)
    requires Run(env, steps + more).Some?
    requires Run(env, steps).Some? ==> id in Run(env, steps).value.subs
    ensures Run(env, steps).Some?
    ensures var s, t := Run(env, steps).value, Run(env, steps + more).value;
      && id in t.subs
      && (s.subs[id].reason.Some? ==> t.subs[id].reason == s.subs[id].reason)
      && s.subs[id].out <= t.subs[id].out
  {
    RunLater(env, steps, more);
    assert id in Run(env, steps + more).value.subs;
  }

  // ----- After the drop -----

  // What is written, and what a passed Done check lets through still.
  ghost function LetThrough(sub: Sub): seq<string> {
    Written(sub.out) + if sub.loop.Writing? then sub.loop.frames else []
  }

  lemma FirstMoves<T>(a: seq<T>, b: seq<T>)
    requires b != []
    ensures a + [b[0]] + b[1..] == a + b
  {
  }

  lemma WriteLetsThrough(sub: Sub)
    requires sub.loop.Writing?
    ensures LetThrough(DoWriteNext(sub)) == LetThrough(sub)
  {
    if sub.loop.frames != [] {
      WrittenAppend(sub.out, TxFrame(sub.loop.frames[0]));
      FirstMoves(Written(sub.out), sub.loop.frames);
    } else {
      assert Written(sub.out) + [] == Written(sub.out);
    }
  }

  lemma FinishWritesNoTx(sub: Sub, terminalWritten: bool)
    requires sub.reason.Some?
    ensures LetThrough(Finish(sub, terminalWritten)) == Written(sub.out)
  {
    WrittenAppend(sub.out, Terminal(sub.reason.value));
    assert sub.out + [] == sub.out;
    assert Written(sub.out) + [] == Written(sub.out);
  }

  lemma MovingStepLetsThrough(env: Env, s: State, step: Step)
    requires MovesFrames(step) && Enabled(env, s, step) && s.subs[step.id].done
    ensures LetThrough(StreamStep(env, s, step)) <= LetThrough(s.subs[step.id])
  {
    var sub := s.subs[step.id];
    match step
    case WriteNext(_) => WriteLetsThrough(sub);
    case CheckDone(_, terminalWritten) => FinishWritesNoTx(sub, terminalWritten);
    case SeeDone(_, terminalWritten) => FinishWritesNoTx(sub, terminalWritten);
    case _ =>
  }

  lemma QuietStepLetsThrough(env: Env, s: State, step: Step)
    requires IsStreamStep(step) && !MovesFrames(step) && Enabled(env, s, step) && Ends(s.subs[step.id])
    ensures LetThrough(StreamStep(env, s, step)) <= LetThrough(s.subs[step.id])
  {
    var sub := s.subs[step.id];
    QuietStepMovesNothing(env, s, step);
    assert !StreamStep(env, s, step).loop.Writing? || sub.loop.Writing?;
  }

  lemma StreamStepLetsThrough(env: Env, s: State, step: Step)
    requires IsStreamStep(step) && Enabled(env, s, step) && Ends(s.subs[step.id]) && s.subs[step.id].done
    ensures LetThrough(StreamStep(env, s, step)) <= LetThrough(s.subs[step.id])
  {
    if MovesFrames(step) {
      MovingStepLetsThrough(env, s, step);
    } else {
      QuietStepLetsThrough(env, s, step);
    }
  }

  ghost predicate SameOutput(a: Sub, b: Sub) {
    a.out == b.out && a.loop == b.loop
  }

  lemma DispatchKeepsOutput(env: Env, index: nat, tx: Tx, todo: set<SubId>, id: SubId, sub: Sub,
                            ws: seq<Option<Whitelist>>)
    ensures SameOutput(sub, Dispatch(env, index, tx, todo, id, sub, ws).sub)
  {
  }

  lemma RouterStepKeepsOutput(env: Env, s: State, step: Step, id: SubId)
    requires !IsStreamStep(step) && Enabled(env, s, step) && id in s.subs
    ensures id in Apply(env, s, step).subs && SameOutput(s.subs[id], Apply(env, s, step).subs[id])
  {
    if step.Check? && step.id == id {
      DispatchKeepsOutput(env, s.taken - 1, Current(s), s.pc.todo - {id}, id, s.subs[id], step.ws);
    }
  }

  lemma StepLetsThrough(env: Env, s: State, step: Step, id: SubId)
    requires Enabled(env, s, step) && id in s.subs && s.subs[id].done && Ends(s.subs[id])
    ensures id in Apply(env, s, step).subs
    ensures LetThrough(Apply(env, s, step).subs[id]) <= LetThrough(s.subs[id])
  {
    if IsStreamStep(step) {
      ApplyStream(env, s, step);
      if step.id == id {
        StreamStepLetsThrough(env, s, step);
      }
    } else {
      RouterStepKeepsOutput(env, s, step, id);
    }
  }

  lemma {:induction false} RunLetsThrough(env: Env, steps: seq<Step>, more: seq<Step>, id: SubId)
    requires Run(env, steps + more).Some? && Run(env, steps).Some?
    requires id in Run(env, steps).value.subs && Run(env, steps).value.subs[id].done
    ensures var s, t := Run(env, steps).value, Run(env, steps + more).value;
      id in t.subs && t.subs[id].done && LetThrough(t.subs[id]) <= LetThrough(s.subs[id])
  {
    RunLater(env, steps, more);
    assert id in Run(env, steps + more).value.subs;
    if more == [] {
      assert steps + more == steps;
    } else {
      var n := |more| - 1;
      assert (steps + more)[..|steps + more| - 1] == steps + more[..n];
      RunLetsThrough(env, steps, more[..n], id);
      RunInv(env, steps + more[..n]);
      SubAt(env, Run(env, steps + more[..n]).value, id);
      StepLetsThrough(env, Run(env, steps + more[..n]).value, more[n], id);
    }
  }

  /** Nothing leaks after a drop: once Done is closed, over any continuation, no
      transaction frame is written but those of a batch already past its Done check,
      whatever was queued, filtered or in the router's hand. */
  lemma NothingWrittenAfterDrop(env: Env, steps: seq<Step>, more: seq<Step>, id: SubId)
    requires Run(env, steps + more).Some? && Run(env, steps).Some?
    requires id in Run(env, steps).value.subs && Run(env, steps).value.subs[id].done
    ensures var s, t := Run(env, steps).value, Run(env, steps + more).value;
      && id in t.subs
      && Written(t.subs[id].out)
         <= Written(s.subs[id].out) + if s.subs[id].loop.Writing? then s.subs[id].loop.frames else []
  {
    RunLetsThrough(env, steps, more, id);
  }

  // ----- The cutoff -----

  // Transactions at or below a subscriber's start are skipped.
  ghost predicate RespectsStart(env: Env) {
    forall ch, start: nat, ws, tx: Tx :: tx.commitLSN <= start ==> env.decide(ch, start, ws, tx) == Skip
  }

  /** A subscriber keeps the start of its handshake: since_lsn where it was given, else
      the position recorded then. */
  lemma StartIsKept(env: Env, before: seq<Step>, id: SubId, channel: Channel, since: Option<LSN>, cap: nat,
                    after: seq<Step>)
    requires Run(env, before + [Handshake(id, channel, since, cap)] + after).Some?
    ensures Run(env, before).Some?
    ensures var t := Run(env, before + [Handshake(id, channel, since, cap)] + after).value;
      && id in t.subs && t.subs[id].channel == channel
      && t.subs[id].startLSN == match since case Some(lsn) => lsn case None => Run(env, before).value.lsn
  {
    var accepted := before + [Handshake(id, channel, since, cap)];
    RunLater(env, accepted, after);
    RunLater(env, before, [Handshake(id, channel, since, cap)]);
    assert accepted[..|accepted| - 1] == before;
    var s, t := Run(env, accepted).value, Run(env, accepted + after).value;
    assert s == DoHandshake(Run(env, before).value, id, channel, since, cap);
    assert id in t.subs;
  }

  // A subscriber stays once its handshake is over, and knows what was recorded then.
  lemma HandshakeStays(env: Env, before: seq<Step>, id: SubId, channel: Channel, cap: nat, after: seq<Step>)
    requires Run(env, before + [Handshake(id, channel, None, cap)] + after).Some?
    ensures Run(env, before).Some?
    ensures var t := Run(env, before + [Handshake(id, channel, None, cap)] + after).value;
      id in t.subs && t.subs[id].cut == |Run(env, before).value.committed|
  {
    var handshake := Handshake(id, channel, None, cap);
    var accepted := before + [handshake];
    RunLater(env, accepted, after);
    RunLater(env, before, [handshake]);
    assert accepted[..|accepted| - 1] == before;
    var s, t := Run(env, accepted).value, Run(env, accepted + after).value;
    assert s == DoHandshake(Run(env, before).value, id, channel, None, cap);
    assert id in t.subs;
  }

  /** Start cutoff: a subscriber whose handshake read the current LSN never gets a
      frame of a transaction recorded before that read, even one still waiting in
      the channel at Register. */
  lemma StartCutoff(env: Env, before: seq<Step>, id: SubId, channel: Channel, cap: nat, after: seq<Step>, k: nat)
    requires RespectsStart(env)
    requires var steps := before + [Handshake(id, channel, None, cap)] + after;
      Run(env, steps).Some? && (id in Run(env, steps).value.subs ==> k < |Run(env, steps).value.subs[id].log|)
    ensures Run(env, before).Some?
    ensures var t := Run(env, before + [Handshake(id, channel, None, cap)] + after).value;
      && id in t.subs
      && var sub := t.subs[id];
         sub.log[k].index < |Run(env, before).value.committed| ==>
           FramesOf(env, sub.channel, sub.startLSN, sub.log[k]) == []
  {
    var steps := before + [Handshake(id, channel, None, cap)] + after;
    HandshakeStays(env, before, id, channel, cap, after);
    RunInv(env, steps);
    SubAt(env, Run(env, steps).value, id);
  }

  // ----- Where it comes from -----

  // Step i dispatches to the subscriber, which is not dropped yet.
  ghost predicate IsDispatch(env: Env, steps: seq<Step>, id: SubId, i: int) {
    && 0 <= i < |steps| && steps[i].Check? && steps[i].id == id
    && Run(env, steps[..i]).Some? && DispatchedAt(Run(env, steps[..i]).value, id)
  }

  ghost predicate DispatchedAt(s: State, id: SubId) {
    Busy(s) && id in s.subs && !s.subs[id].done
  }

  // The log entry a dispatch makes.
  ghost function EntryOf(env: Env, steps: seq<Step>, id: SubId, i: int): Entry
    requires IsDispatch(env, steps, id, i)
  {
    var s := Run(env, steps[..i]).value;
    Entry(s.taken - 1, Current(s), steps[i].ws)
  }

  lemma StepLog(env: Env, s: State, step: Step, id: SubId)
    requires Enabled(env, s, step) && id in Apply(env, s, step).subs
    ensures var had := if id in s.subs then s.subs[id].log else [];
      Apply(env, s, step).subs[id].log
      == if step.Check? && step.id == id && DispatchedAt(s, id) then had + [Entry(s.taken - 1, Current(s), step.ws)]
         else had
  {
    if IsStreamStep(step) {
      ApplyStream(env, s, step);
      StreamStepFrame(env, s, step);
    }
  }

  // The dispatches of a run that made its log.
  ghost predicate Origins(env: Env, steps: seq<Step>, id: SubId, log: seq<Entry>, at: seq<nat>) {
    && |at| == |log|
    && (forall x :: 0 <= x < |log| ==> IsDispatch(env, steps, id, at[x]) && EntryOf(env, steps, id, at[x]) == log[x])
    && (forall x, y :: 0 <= x < y < |at| ==> at[x] < at[y])
  }

  lemma OriginsLonger(env: Env, steps: seq<Step>, id: SubId, log: seq<Entry>, at: seq<nat>)
    requires steps != [] && Origins(env, steps[..|steps| - 1], id, log, at)
    ensures Origins(env, steps, id, log, at) && forall x :: 0 <= x < |at| ==> at[x] < |steps| - 1
  {
    forall x | 0 <= x < |log|
      ensures IsDispatch(env, steps, id, at[x]) && EntryOf(env, steps, id, at[x]) == log[x] && at[x] < |steps| - 1
    {
      assert IsDispatch(env, steps[..|steps| - 1], id, at[x]);
      assert steps[..|steps| - 1][..at[x]] == steps[..at[x]];
    }
  }

  lemma OriginsMore(env: Env, steps: seq<Step>, id: SubId, log: seq<Entry>, at: seq<nat>, n: nat)
    requires Origins(env, steps, id, log, at) && IsDispatch(env, steps, id, n)
    requires forall x :: 0 <= x < |at| ==> at[x] < n
    ensures Origins(env, steps, id, log + [EntryOf(env, steps, id, n)], at + [n])
  {
  }

  /** Every entry of a subscriber's log was made by a dispatch of the run, in order. */
  lemma {:induction false} LogOrigins(env: Env, steps: seq<Step>, id: SubId) returns (at: seq<nat>)
    requires Run(env, steps).Some? && id in Run(env, steps).value.subs
    ensures Origins(env, steps, id, Run(env, steps).value.subs[id].log, at)
  {
    var n := |steps| - 1;
    var s := Run(env, steps[..n]).value;
    StepLog(env, s, steps[n], id);
    if id in s.subs {
      at := LogOrigins(env, steps[..n], id);
      OriginsLonger(env, steps, id, s.subs[id].log, at);
      if IsDispatch(env, steps, id, n) {
        OriginsMore(env, steps, id, s.subs[id].log, at, n);
        at := at + [n];
      }
    } else {
      at := [];
    }
  }

  lemma StepTaken(env: Env, s: State, step: Step)
    requires Enabled(env, s, step)
    ensures s.taken <= Apply(env, s, step).taken
  {
    if IsStreamStep(step) {
      ApplyStream(env, s, step);
    }
  }

  // The router goes on through the transactions.
  lemma {:induction false} TakenGrows(env: Env, steps: seq<Step>, m: nat)
    requires m <= |steps| && Run(env, steps).Some?
    ensures Run(env, steps[..m]).Some? && Run(env, steps[..m]).value.taken <= Run(env, steps).value.taken
    decreases |steps|
  {
    if m < |steps| {
      var n := |steps| - 1;
      assert steps[..n][..m] == steps[..m];
      TakenGrows(env, steps[..n], m);
      StepTaken(env, Run(env, steps[..n]).value, steps[n]);
    } else {
      assert steps[..m] == steps;
    }
  }

  type IsInitial = string -> bool

  ghost predicate OutputMeets(o: Output, p: IsInitial) {
    o.Initial? ==> p(o.text)
  }

  // What the subscriber's Register was given meets p.
  ghost predicate RegistersMeet(steps: seq<Step>, id: SubId, p: IsInitial) {
    forall i :: 0 <= i < |steps| ==> RegisterMeets(steps[i], id, p)
  }

  ghost predicate RegisterMeets(step: Step, id: SubId, p: IsInitial) {
    step.Register? && step.id == id && step.initial.Some? ==> p(step.initial.value)
  }

  ghost predicate InitialsMeet(sub: Sub, p: IsInitial) {
    && (forall i :: 0 <= i < |sub.out| ==> OutputMeets(sub.out[i], p))
    && (sub.loop.Preamble? ==> forall i :: 0 <= i < |sub.loop.left| ==> OutputMeets(sub.loop.left[i], p))
  }

  lemma StreamStepInitials(env: Env, s: State, step: Step, p: IsInitial)
    requires IsStreamStep(step) && Enabled(env, s, step)
    requires RegisterMeets(step, step.id, p) && InitialsMeet(s.subs[step.id], p)
    ensures InitialsMeet(StreamStep(env, s, step), p)
  {
  }

  lemma StepInitials(env: Env, s: State, step: Step, id: SubId, p: IsInitial)
    requires Enabled(env, s, step) && id in Apply(env, s, step).subs
    requires RegisterMeets(step, id, p) && (id in s.subs ==> InitialsMeet(s.subs[id], p))
    ensures InitialsMeet(Apply(env, s, step).subs[id], p)
  {
    if IsStreamStep(step) {
      ApplyStream(env, s, step);
      if step.id == id {
        StreamStepInitials(env, s, step, p);
      }
    }
  }

  // An initial frame written is the one given at Register.
  lemma {:induction false} InitialsFromRegister(env: Env, steps: seq<Step>, id: SubId, p: IsInitial)
    requires Run(env, steps).Some? && id in Run(env, steps).value.subs && RegistersMeet(steps, id, p)
    ensures InitialsMeet(Run(env, steps).value.subs[id], p)
  {
    var n := |steps| - 1;
    var s := Run(env, steps[..n]).value;
    if id in s.subs {
      InitialsFromRegister(env, steps[..n], id, p);
    }
    StepInitials(env, s, steps[n], id, p);
  }
}
