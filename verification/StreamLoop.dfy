/** One stream as its handler runs it (internal/sse/stream.go:131-222). What other
    goroutines do to the subscriber comes in as arguments, before each of the handler's
    own accesses to it and around each write. */
module StreamLoop {
  import opened WalTypes
  import opened Subscribers
  import opened Delivery

  // Frames the router offers, and a drop by anyone.
  datatype Moment = Moment(offers: seq<string>, drop: Option<string>)

  datatype Choice = TakeFrame | HeartbeatTick | ClientClosed | SeeDone

  // One turn of the select: what happens before it, the case that fires if it is
  // ready, what happens before each further receive of a batch, before the Done check,
  // and after it while the batch is written, and how a write ends.
  datatype Turn = Turn(
    before: Moment,
    choice: Choice,
    batching: seq<Moment>,
    during: Moment,
    writing: Moment,
    failAt: Option<nat>,
    timedOut: bool)

  function WriteFailureReason(timedOut: bool): string {
    if timedOut then "slow_consumer" else "client_closed"
  }

  // What a turn of the loop did: the case that fired, and where a batch came in, the
  // frames taken and whether the Done check after them ended the stream.
  datatype Did =
    | Nothing
    | Beaten
    | Gone
    | SawDone
    | Batched(frames: seq<string>, seen: bool)

  // The output of a turn.
  ghost predicate TurnWrites(t: Turn, did: Did, before: seq<Output>, after: seq<Output>, stored: Option<string>) {
    match did
    case Nothing => after == before && (t.choice.TakeFrame? || t.choice.SeeDone?)
    case Beaten => t.choice.HeartbeatTick? && after == before + if t.failAt == Some(0) then [] else [Heartbeat]
    case Gone => t.choice.ClientClosed? && after == before
    case SawDone => t.choice.SeeDone? && Closes(t, before, after, stored)
    case Batched(frames, seen) =>
      && t.choice.TakeFrame? && frames != []
      && if seen then Closes(t, before, after, stored) else after == before + SentOf(frames, t.failAt)
  }

  ghost predicate Closes(t: Turn, before: seq<Output>, after: seq<Output>, stored: Option<string>) {
    && stored.Some?
    && after == before + if stored.value in {"", "client_closed"} || t.failAt == Some(0) then []
                         else [Terminal(stored.value)]
  }

  // Only the last turn can end the stream.
  ghost predicate LastOf(did: Did) {
    did.Gone? || did.SawDone? || (did.Batched? && did.seen)
  }

  // What turns wrote: outs[i] is the output before turn i.
  ghost predicate TurnsWrite(turns: seq<Turn>, dids: seq<Did>, outs: seq<seq<Output>>, stored: Option<string>) {
    && |outs| == |dids| + 1 && |dids| <= |turns|
    && (forall i {:trigger dids[i]} :: 0 <= i < |dids| ==>
          TurnWrites(turns[i], dids[i], outs[i], outs[i + 1], stored))
    && (forall i :: 0 <= i < |dids| - 1 ==> !LastOf(dids[i]))
  }

  lemma TurnsWriteMore(turns: seq<Turn>, dids: seq<Did>, outs: seq<seq<Output>>, before: Option<string>, did: Did,
                       out: seq<Output>, stored: Option<string>)
    requires TurnsWrite(turns, dids, outs, before) && |dids| < |turns|
    requires dids != [] ==> !LastOf(dids[|dids| - 1])
    requires TurnWrites(turns[|dids|], did, outs[|dids|], out, stored)
    ensures TurnsWrite(turns, dids + [did], outs + [out], stored)
  {
    forall i | 0 <= i < |dids|
      ensures !LastOf(dids[i]) && TurnWrites(turns[i], dids[i], outs[i], outs[i + 1], stored)
    {
    }
  }

  // The frames of a batch that go out before the connection fails, if it does.
  function SentOf(frames: seq<string>, failAt: Option<nat>): seq<Output> {
    AsOutput(if failAt.Some? && failAt.value <= |frames| then frames[..failAt.value] else frames)
  }

  // The subscriber after the router's offers, none of them once it is dropped.
  ghost function OfferedAll(st: SubState, cap: nat, frames: seq<string>): SubState {
    if frames == [] then st
    else
      var before := OfferedAll(st, cap, frames[..|frames| - 1]);
      if before.reason.Some? then before else Offered(before, cap, frames[|frames| - 1])
  }

  ghost function Disturbed(st: SubState, cap: nat, m: Moment): SubState {
    var offered := OfferedAll(st, cap, m.offers);
    if m.drop.Some? then Dropped(offered, m.drop.value) else offered
  }

  class Response {
    var out: seq<Output>

    constructor ()
      ensures out == []
    {
      out := [];
    }

    // failAt is the number of frames written when the connection fails, if it does;
    // the flush after the last one may fail as well.
    method Write(frames: seq<Output>, failAt: Option<nat>) returns (ok: bool)
      modifies this
      ensures ok <==> failAt.None? || failAt.value > |frames|
      ensures out == old(out) + if ok then frames else frames[..failAt.value]
    {
      for n := 0 to |frames|
        invariant out == old(out) + frames[..n]
        invariant failAt.Some? ==> n <= failAt.value
      {
        if failAt == Some(n) {
          return false;
        }
        assert frames[..n + 1] == frames[..n] + [frames[n]];
        out := out + [frames[n]];
      }
      assert frames[..|frames|] == frames;
      ok := failAt != Some(|frames|);
    }
  }

  function AsOutput(frames: seq<string>): seq<Output> {
    seq(|frames|, i requires 0 <= i < |frames| => TxFrame(frames[i]))
  }

  lemma Rejoined(written: seq<string>, frames: seq<string>)
    requires frames != []
    ensures var n := |frames| - 1; written + frames[..n] + [frames[n]] == written + frames
  {
  }

  lemma Regrouped(written: seq<string>, frames: seq<string>, queue: seq<string>)
    ensures written + (frames + queue) == written + frames + queue
  {
  }

  // The first frame of the queue goes to the end of the batch.
  lemma MovedOver(written: seq<string>, frames: seq<string>, frame: string, queue: seq<string>)
    ensures written + frames + ([frame] + queue) == written + (frames + [frame]) + queue
  {
  }

  // What the queue gains goes to the end of what was accepted.
  lemma Longer(taken: seq<string>, before: seq<string>, queue: seq<string>)
    requires before <= queue
    ensures taken + before + queue[|before|..] == taken + queue
  {
  }

  lemma LastApart(out: seq<Output>, frames: seq<string>)
    requires frames != []
    ensures var n := |frames| - 1;
      out + AsOutput(frames) == out + AsOutput(frames[..n]) + [TxFrame(frames[n])]
  {
  }

  lemma NothingTerminal(out: seq<Output>, frames: seq<string>)
    requires NoTerminal(out)
    ensures NoTerminal(out + AsOutput(frames))
  {
  }

  lemma PrefixWritten(written: seq<string>, frames: seq<string>, k: nat, queue: seq<string>)
    requires k <= |frames|
    ensures written + frames[..k] <= written + frames + queue
  {
  }

  lemma {:induction false} WrittenFrames(out: seq<Output>, frames: seq<string>)
    ensures Written(out + AsOutput(frames)) == Written(out) + frames
  {
    if frames == [] {
      assert out + AsOutput(frames) == out && Written(out) + frames == Written(out);
    } else {
      var n := |frames| - 1;
      WrittenFrames(out, frames[..n]);
      LastApart(out, frames);
      WrittenAppend(out + AsOutput(frames[..n]), TxFrame(frames[n]));
      Rejoined(Written(out), frames);
    }
  }

  ghost predicate NoTerminal(out: seq<Output>) {
    forall i :: 0 <= i < |out| ==> !out[i].Terminal?
  }

  // At most one terminal frame, last of all, with the stored reason.
  ghost predicate EndsWell(out: seq<Output>, reason: Option<string>) {
    forall i :: 0 <= i < |out| && out[i].Terminal? ==> i == |out| - 1 && reason == Some(out[i].reason)
  }

  class Stream {
    const sub: Subscriber
    const rsp: Response
    // History: every frame the queue has accepted.
    ghost var accepted: seq<string>

    constructor (sub: Subscriber)
      ensures this.sub == sub && fresh(rsp) && rsp.out == [] && accepted == []
    {
      this.sub := sub;
      rsp := new Response();
      accepted := [];
    }

    // Nothing accepted is lost, doubled or reordered, and nothing terminal is out.
    ghost predicate InStep()
      reads this, sub, rsp
    {
      accepted == Written(rsp.out) + sub.queue && NoTerminal(rsp.out)
    }

    // The same with frames taken from the queue and not written yet.
    ghost predicate InHand(frames: seq<string>)
      reads this, sub, rsp
    {
      accepted == Written(rsp.out) + frames + sub.queue && NoTerminal(rsp.out)
    }

    // The others' turn: the router sends, and drops the subscriber when refused.
    method Others(m: Moment)
      modifies this`accepted, sub
      ensures sub.State() == Disturbed(old(sub.State()), sub.queueCap, m)
      ensures old(sub.queue) <= sub.queue && accepted == old(accepted) + sub.queue[|old(sub.queue)|..]
      ensures old(sub.reason).Some? ==> sub.reason == old(sub.reason)
      ensures m.drop.Some? ==> sub.reason.Some?
      ensures sub.wired == old(sub.wired)
    {
      for n := 0 to |m.offers|
        invariant sub.wired == old(sub.wired)
        invariant sub.State() == OfferedAll(old(sub.State()), sub.queueCap, m.offers[..n])
        invariant old(sub.queue) <= sub.queue && accepted == old(accepted) + sub.queue[|old(sub.queue)|..]
        invariant old(sub.reason).Some? ==> sub.reason == old(sub.reason)
      {
        assert m.offers[..n + 1][..n] == m.offers[..n];
        if sub.reason.None? {
          Offer(m.offers[n]);
        }
      }
      assert m.offers[..|m.offers|] == m.offers;
      if m.drop.Some? {
        DropFor(m.drop.value);
      }
    }

    method Offer(frame: string)
      modifies this`accepted, sub
      ensures sub.State() == Offered(old(sub.State()), sub.queueCap, frame)
      ensures old(sub.queue) <= sub.queue && accepted == old(accepted) + sub.queue[|old(sub.queue)|..]
      ensures old(sub.reason).Some? ==> sub.reason == old(sub.reason)
      ensures sub.wired == old(sub.wired)
    {
      ghost var was := sub.State();
      var ok := sub.Send(frame);
      assert sub.State().queue == if ok then was.queue + [frame] else was.queue;
      assert sub.State().reason == was.reason;
      if ok {
        accepted := accepted + [frame];
      } else {
        DropFor("slow_consumer");
      }
    }

    method DropFor(why: string)
      modifies sub
      ensures sub.State() == Dropped(old(sub.State()), why)
      ensures sub.queue == old(sub.queue) && sub.reason.Some? && sub.wired == old(sub.wired)
      ensures old(sub.reason).Some? ==> sub.reason == old(sub.reason)
      ensures old(sub.reason).None? ==> sub.reason == Some(why)
    {
      ghost var was := sub.State();
      sub.Drop(why);
      assert sub.State() == Dropped(was, why);
      assert sub.State().queue == was.queue;
    }

    // frame := <-queue
    method Receive() returns (frame: string)
      requires sub.queue != []
      modifies sub
      ensures old(sub.queue) == [frame] + sub.queue
      ensures sub.reason == old(sub.reason) && sub.wired == old(sub.wired)
    {
      frame := sub.queue[0];
      sub.queue := sub.queue[1..];
    }

    // At most the queue's capacity, and as much as is there.
    method TakeBatch(others: seq<Moment>) returns (frames: seq<string>)
      requires sub.queue != [] && InStep()
      modifies this`accepted, sub
      ensures InHand(frames)
      ensures frames != [] && (|frames| == 1 || |frames| <= sub.queueCap)
      ensures |frames| >= sub.queueCap || sub.queue == []
      ensures old(sub.reason).Some? ==> sub.reason == old(sub.reason)
      ensures sub.wired == old(sub.wired)
    {
      var frame := Receive();
      frames := [frame];
      Regrouped(Written(rsp.out), frames, sub.queue);
      var n := 0;
      while |frames| < sub.queueCap
        invariant InHand(frames)
        invariant |frames| == 1 || 1 < |frames| <= sub.queueCap
        invariant sub.wired == old(sub.wired)
        invariant old(sub.reason).Some? ==> sub.reason == old(sub.reason)
        decreases sub.queueCap - |frames|
      {
        if n < |others| {
          OthersInHand(others[n], frames);
          n := n + 1;
        }
        if sub.queue == [] {
          break;
        }
        frame := Receive();
        MovedOver(Written(rsp.out), frames, frame, sub.queue);
        frames := frames + [frame];
      }
    }

    // The others' turn while the loop holds frames it has taken.
    method OthersInHand(m: Moment, ghost frames: seq<string>)
      requires InHand(frames)
      modifies this`accepted, sub
      ensures InHand(frames)
      ensures sub.State() == Disturbed(old(sub.State()), sub.queueCap, m)
      ensures old(sub.reason).Some? ==> sub.reason == old(sub.reason)
      ensures m.drop.Some? ==> sub.reason.Some?
      ensures sub.wired == old(sub.wired)
    {
      ghost var left := sub.queue;
      Others(m);
      Longer(Written(rsp.out) + frames, left, sub.queue);
    }

    method WriteOne(o: Output, failAt: Option<nat>) returns (ok: bool)
      modifies rsp
      ensures ok <==> failAt.None? || failAt.value > 1
      ensures rsp.out == old(rsp.out) + if failAt == Some(0) then [] else [o]
    {
      assert [o][..0] == [] && [o][..1] == [o];
      ok := rsp.Write([o], failAt);
    }

    // Queued frames are discarded on drop.
    method Finish(failAt: Option<nat>) returns (reason: string)
      requires NoTerminal(rsp.out) && sub.reason.Some?
      modifies rsp
      ensures rsp.out == old(rsp.out) + if sub.reason.value in {"", "client_closed"} || failAt == Some(0) then []
                                        else [Terminal(sub.reason.value)]
      ensures EndsWell(rsp.out, sub.reason) && Written(rsp.out) == Written(old(rsp.out))
      ensures reason == sub.reason.value || (reason == "client_closed" && sub.reason == Some(""))
    {
      reason := sub.reason.value;
      assert rsp.out + [] == rsp.out;
      if reason == "" || reason == "client_closed" {
        reason := "client_closed";
        return;
      }
      WrittenAppend(rsp.out, Terminal(reason));
      var _ := WriteOne(Terminal(reason), failAt);
    }

    method WriteHeartbeat(failAt: Option<nat>) returns (ok: bool)
      requires NoTerminal(rsp.out)
      modifies rsp
      ensures rsp.out == old(rsp.out) + if failAt == Some(0) then [] else [Heartbeat]
      ensures ok <==> failAt.None? || failAt.value > 1
      ensures NoTerminal(rsp.out) && Written(rsp.out) == Written(old(rsp.out))
    {
      WrittenAppend(rsp.out, Heartbeat);
      assert rsp.out + [] == rsp.out;
      ok := WriteOne(Heartbeat, failAt);
    }

    method WritePreamble(initialFrame: Option<string>, failAt: Option<nat>) returns (ok: bool)
      requires rsp.out == []
      modifies rsp
      ensures NoTerminal(rsp.out) && Written(rsp.out) == []
      ensures var preamble := [Prelude] + if initialFrame.Some? then [Initial(initialFrame.value)] else [];
        && (ok <==> failAt.None? || failAt.value > |preamble|)
        && rsp.out == if ok then preamble else preamble[..failAt.value]
    {
      var preamble := [Prelude] + if initialFrame.Some? then [Initial(initialFrame.value)] else [];
      ok := rsp.Write(preamble, failAt);
      assert IsPreamble(rsp.out) by {
        assert IsPreamble(preamble);
      }
      PreambleWritesNoTx(rsp.out);
    }

    // Writes transaction frames taken from the queue.
    method WriteBatch(frames: seq<string>, failAt: Option<nat>) returns (ok: bool)
      requires InHand(frames)
      modifies rsp
      ensures ok <==> failAt.None? || failAt.value > |frames|
      ensures rsp.out == old(rsp.out) + SentOf(frames, failAt)
      ensures ok ==> InStep() && Written(rsp.out) == Written(old(rsp.out)) + frames
      ensures NoTerminal(rsp.out) && Written(rsp.out) <= accepted
    {
      ghost var k := if failAt.Some? && failAt.value <= |frames| then failAt.value else |frames|;
      WrittenFrames(rsp.out, frames[..k]);
      NothingTerminal(rsp.out, frames[..k]);
      PrefixWritten(Written(rsp.out), frames, k, sub.queue);
      assert AsOutput(frames)[..k] == AsOutput(frames[..k]);
      ok := rsp.Write(AsOutput(frames), failAt);
      assert rsp.out == old(rsp.out) + AsOutput(frames[..k]);
      assert frames[..|frames|] == frames;
    }

    // Once a drop is seen no transaction frame goes out; a gone client gets nothing.
    method TakeTurn(t: Turn) returns (ended: bool, reason: string, ghost did: Did)
      requires InStep()
      modifies this`accepted, sub, rsp
      ensures TurnWrites(t, did, old(rsp.out), rsp.out, sub.reason)
      ensures t.choice.HeartbeatTick? ==>
                && (ended <==> t.failAt.Some? && t.failAt.value <= 1)
                && rsp.out == old(rsp.out) + if t.failAt == Some(0) then [] else [Heartbeat]
      ensures t.choice.SeeDone? ==> (ended <==> sub.reason.Some?)
      ensures LastOf(did) ==> ended
      ensures t.choice.TakeFrame? && old(sub.queue) != [] ==> did.Batched?
      ensures did.Batched? ==>
                if did.seen then ended else (ended <==> t.failAt.Some? && t.failAt.value <= |did.frames|)
      ensures did.Batched? && (old(sub.reason).Some? || t.during.drop.Some?) ==> did.seen
      // A broken write gives the reason, unless another one was stored before.
      ensures ended && (did.Beaten? || (did.Batched? && !did.seen)) ==>
                && reason == (if t.timedOut then "slow_consumer" else "client_closed")
                && (old(sub.reason).None? && t.before == Moment([], None) && did.Beaten? ==> sub.reason == Some(reason))
      ensures t.choice.ClientClosed? && old(sub.reason).None? && t.before == Moment([], None) ==>
                sub.reason == Some("client_closed")
      ensures sub.wired == old(sub.wired)
      ensures old(sub.reason).Some? ==> Written(rsp.out) == Written(old(rsp.out))
      ensures old(sub.reason).Some? && t.choice.SeeDone? ==> ended
      ensures t.choice.ClientClosed? ==> ended && rsp.out == old(rsp.out)
      ensures !ended ==> InStep()
      ensures ended ==> sub.reason.Some? && Written(rsp.out) <= accepted && EndsWell(rsp.out, sub.reason)
      ensures old(sub.reason).Some? ==> sub.reason == old(sub.reason)
    {
      Others(t.before);
      ended, reason, did := Fire(t);
    }

    // The case that fires, once the others have had their turn.
    method Fire(t: Turn) returns (ended: bool, reason: string, ghost did: Did)
      requires InStep()
      modifies this`accepted, sub, rsp
      ensures TurnWrites(t, did, old(rsp.out), rsp.out, sub.reason)
      ensures t.choice.HeartbeatTick? ==>
                && (ended <==> t.failAt.Some? && t.failAt.value <= 1)
                && rsp.out == old(rsp.out) + if t.failAt == Some(0) then [] else [Heartbeat]
      ensures t.choice.SeeDone? ==> (ended <==> sub.reason.Some?)
      ensures LastOf(did) ==> ended
      ensures t.choice.TakeFrame? && old(sub.queue) != [] ==> did.Batched?
      ensures did.Batched? ==>
                if did.seen then ended else (ended <==> t.failAt.Some? && t.failAt.value <= |did.frames|)
      ensures did.Batched? && (old(sub.reason).Some? || t.during.drop.Some?) ==> did.seen
      ensures ended && (did.Beaten? || (did.Batched? && !did.seen)) ==>
                && reason == (if t.timedOut then "slow_consumer" else "client_closed")
                && (old(sub.reason).None? && did.Beaten? ==> sub.reason == Some(reason))
      ensures t.choice.ClientClosed? && old(sub.reason).None? ==> sub.reason == Some("client_closed")
      ensures sub.wired == old(sub.wired)
      ensures old(sub.reason).Some? ==> Written(rsp.out) == Written(old(rsp.out))
      ensures t.choice.ClientClosed? ==> ended && rsp.out == old(rsp.out)
      ensures !ended ==> InStep()
      ensures ended ==> sub.reason.Some? && Written(rsp.out) <= accepted && EndsWell(rsp.out, sub.reason)
      ensures old(sub.reason).Some? ==> sub.reason == old(sub.reason)
    {
      ended, reason, did := false, "client_closed", Nothing;
      match t.choice
      case TakeFrame =>
        if sub.queue != [] {
          ended, reason, did := BatchTurn(t);
        }
      case HeartbeatTick =>
        did := Beaten;
        ended, reason := BeatTurn(t);
      case ClientClosed =>
        ended, did := true, Gone;
        DropFor(reason);
      case SeeDone =>
        if sub.reason.Some? {
          ended, did := true, SawDone;
          reason := Finish(t.failAt);
        }
    }

    // A heartbeat goes out; a broken write ends the stream.
    method BeatTurn(t: Turn) returns (ended: bool, reason: string)
      requires InStep()
      modifies sub, rsp
      ensures rsp.out == old(rsp.out) + if t.failAt == Some(0) then [] else [Heartbeat]
      ensures NoTerminal(rsp.out) && Written(rsp.out) == Written(old(rsp.out))
      ensures ended <==> t.failAt.Some? && t.failAt.value <= 1
      ensures ended ==> reason == if t.timedOut then "slow_consumer" else "client_closed"
      ensures sub.reason == if ended && old(sub.reason).None? then Some(reason) else old(sub.reason)
      ensures sub.queue == old(sub.queue) && sub.wired == old(sub.wired)
    {
      ended, reason := false, "client_closed";
      var ok := WriteHeartbeat(t.failAt);
      if !ok {
        ended, reason := true, WriteFailureReason(t.timedOut);
        DropFor(reason);
      }
    }

    // Unless the stream ends, the frames written grow, along what was accepted.
    method BatchTurn(t: Turn) returns (ended: bool, reason: string, ghost did: Did)
      requires InStep() && sub.queue != [] && t.choice.TakeFrame?
      modifies this`accepted, sub, rsp
      ensures did.Batched? && TurnWrites(t, did, old(rsp.out), rsp.out, sub.reason)
      ensures if did.seen then ended else (ended <==> t.failAt.Some? && t.failAt.value <= |did.frames|)
      ensures old(sub.reason).Some? || t.during.drop.Some? ==> did.seen
      ensures ended && !did.seen ==> reason == if t.timedOut then "slow_consumer" else "client_closed"
      ensures sub.wired == old(sub.wired)
      ensures old(sub.reason).Some? ==> ended && Written(rsp.out) == Written(old(rsp.out))
      ensures !ended ==> InStep() && Written(old(rsp.out)) < Written(rsp.out)
      ensures ended ==> sub.reason.Some? && Written(rsp.out) <= accepted && EndsWell(rsp.out, sub.reason)
      ensures old(sub.reason).Some? ==> sub.reason == old(sub.reason)
    {
      ended, reason := false, "client_closed";
      var frames := TakeBatch(t.batching);
      did := Batched(frames, false);
      OthersInHand(t.during, frames);
      if sub.reason.Some? {
        did := Batched(frames, true);
        reason := Finish(t.failAt);
        ended := true;
        return;
      }
      OthersInHand(t.writing, frames);
      var ok := WriteBatch(frames, t.failAt);
      if !ok {
        reason := WriteFailureReason(t.timedOut);
        DropFor(reason);
        ended := true;
      }
    }

    /** A stream's whole life: while it runs, the written frames and the queue are
        exactly what the queue accepted, in order; when it ends, the subscriber is
        dropped, the written frames are a prefix of that, and at most one terminal
        frame, with the stored reason, closes the response. It opens with the prelude and
        the initial frame, and each turn, up to the one that ends the stream, writes what
        its case calls for. */
    method Run(initialFrame: Option<string>, opening: Moment, failAt: Option<nat>, timedOut: bool, turns: seq<Turn>)
      returns (ended: bool, reason: string, ghost outs: seq<seq<Output>>, ghost dids: seq<Did>)
      requires sub.queue == [] && accepted == [] && rsp.out == []
      modifies this`accepted, sub, rsp
      ensures sub.wired
      ensures var preamble := [Prelude] + if initialFrame.Some? then [Initial(initialFrame.value)] else [];
        if failAt.Some? && failAt.value <= |preamble| then
          ended && rsp.out == preamble[..failAt.value]
          && reason == if timedOut then "slow_consumer" else "client_closed"
        else
          && TurnsWrite(turns, dids, outs, sub.reason) && outs[0] == preamble && outs[|dids|] == rsp.out
          && (!ended ==> |dids| == |turns|)
      ensures !ended ==> InStep()
      ensures ended ==> sub.reason.Some? && Written(rsp.out) <= accepted && EndsWell(rsp.out, sub.reason)
      ensures old(sub.reason).Some? ==> sub.reason == old(sub.reason) && Written(rsp.out) == []
    {
      ended, reason, outs, dids := false, "client_closed", [], [];
      assert sub.State().queue == [];
      sub.WireSendFunc();
      assert sub.State().queue == [] && sub.State().reason == old(sub.reason);
      Others(opening);
      var ok := WritePreamble(initialFrame, failAt);
      if !ok {
        reason := WriteFailureReason(timedOut);
        DropFor(reason);
        ended := true;
        return;
      }
      outs := [rsp.out];
      var n := 0;
      while n < |turns| && !ended
        invariant n == |dids| <= |turns| && sub.wired
        invariant TurnsWrite(turns, dids, outs, sub.reason) && outs[|dids|] == rsp.out
        invariant outs[0] == [Prelude] + if initialFrame.Some? then [Initial(initialFrame.value)] else []
        invariant !ended && dids != [] ==> !LastOf(dids[n - 1])
        invariant !ended ==> InStep()
        invariant ended ==> sub.reason.Some? && Written(rsp.out) <= accepted && EndsWell(rsp.out, sub.reason)
        invariant old(sub.reason).Some? ==> sub.reason == old(sub.reason) && Written(rsp.out) == []
      {
        ghost var before := sub.reason;
        ghost var did;
        ended, reason, did := TakeTurn(turns[n]);
        TurnsWriteMore(turns, dids, outs, before, did, rsp.out, sub.reason);
        dids, outs := dids + [did], outs + [rsp.out];
        n := n + 1;
      }
    }
  }

  ghost predicate IsPreamble(out: seq<Output>) {
    forall i :: 0 <= i < |out| ==> out[i].Prelude? || out[i].Initial?
  }

  lemma {:induction false} PreambleWritesNoTx(out: seq<Output>)
    requires IsPreamble(out)
    ensures Written(out) == [] && NoTerminal(out)
  {
    if out != [] {
      PreambleWritesNoTx(out[..|out| - 1]);
    }
  }
}
