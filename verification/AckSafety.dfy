/** What a connection acknowledges, records and hands over, for any server
    (internal/wal/reader.go:211-303, 331-397). */
module AckSafety {
  import opened WalTypes
  import opened Assembly
  import opened WalReader

  function MessageIn(t: Turn): Option<Message> {
    if t.event.XLog? then t.event.msg else None
  }

  // The messages received in these turns.
  function MessagesOf(turns: seq<Turn>): seq<Message> {
    if turns == [] then []
    else
      var msg := MessageIn(turns[|turns| - 1]);
      MessagesOf(turns[..|turns| - 1]) + if msg.Some? then [msg.value] else []
  }

  // No transaction is open after these turns.
  ghost predicate Idle(turns: seq<Turn>) {
    forall b :: !OpenAt(MessagesOf(turns), b)
  }

  // Turn j brings the Commit, at position l, of an open transaction.
  ghost predicate CommitAt(turns: seq<Turn>, j: int, l: int) {
    && 0 <= j < |turns| && MessageIn(turns[j]).Some?
    && MessageIn(turns[j]).value.Commit? && MessageIn(turns[j]).value.lsn == l
    && !Idle(turns[..j])
  }

  // Turn j reports the WAL end l while no transaction is open.
  ghost predicate IdleEndAt(turns: seq<Turn>, j: int, l: int) {
    && 0 <= j < |turns| && turns[j].event.Keepalive? && turns[j].event.walEnd == l
    && Idle(turns[..j])
  }

  ghost predicate Source(turns: seq<Turn>, j: int, l: int) {
    CommitAt(turns, j, l) || IdleEndAt(turns, j, l)
  }

  // The server sends no Commit below an earlier one, nor below a WAL end it reported
  // while no transaction was open.
  ghost predicate Honest(turns: seq<Turn>) {
    forall i, j, p, l :: i < j && Source(turns, i, p) && CommitAt(turns, j, l) ==> p <= l
  }

  // ----- The loop tracks the messages -----

  lemma TurnsAppend(mapper: Mapper, lsn: LSN, turns: seq<Turn>, t: Turn)
    ensures ConnAfter(mapper, lsn, turns + [t]) == Next(mapper, ConnAfter(mapper, lsn, turns), t)
    ensures MessageIn(t).None? ==> MessagesOf(turns + [t]) == MessagesOf(turns)
    ensures MessageIn(t).Some? ==> MessagesOf(turns + [t]) == MessagesOf(turns) + [MessageIn(t).value]
  {
    assert (turns + [t])[..|turns|] == turns;
  }

  // What one turn does to everything but the acts.
  lemma NextBuilder(mapper: Mapper, c: Conn, t: Turn)
    requires !c.stopped
    ensures var d := Next(mapper, c, t);
      && (!d.stopped ==>
            d.builder == if MessageIn(t).Some? then After(mapper, c.builder, MessageIn(t).value) else c.builder)
      && d.at == c.at + 1
      && d.ack == (if t.event.Keepalive? && c.builder.inFlight.None? then Advanced(c.ack, t.event.walEnd)
                   else if MessageIn(t).Some? && Emits(c.builder, MessageIn(t).value).Some? then
                     Advanced(c.ack, MessageIn(t).value.lsn)
                   else c.ack)
  {
    if t.event.XLog? && t.event.msg.Some? && Emits(c.builder, t.event.msg.value).Some? {
      var lsn := t.event.msg.value.lsn;
      var c0 := (if t.due then Beat(c) else c).(at := c.at + 1);
      BeatsKeep(c0.(builder := After(mapper, c.builder, t.event.msg.value), lsn := lsn, ack := Advanced(c.ack, lsn),
                    acts := c0.acts + [Recorded(lsn)]), t.event.ticks);
    }
  }

  lemma {:induction false} BuilderTracks(mapper: Mapper, lsn: LSN, turns: seq<Turn>)
    requires !ConnAfter(mapper, lsn, turns).stopped
    ensures ConnAfter(mapper, lsn, turns).builder == BuilderAfter(mapper, MessagesOf(turns))
  {
    if turns != [] {
      var n := |turns| - 1;
      var init := turns[..n];
      assert init + [turns[n]] == turns;
      TurnsAppend(mapper, lsn, init, turns[n]);
      BuilderTracks(mapper, lsn, init);
      NextBuilder(mapper, ConnAfter(mapper, lsn, init), turns[n]);
      if MessageIn(turns[n]).Some? {
        OneMore(mapper, MessagesOf(init), MessageIn(turns[n]).value);
      }
    }
  }

  // The builder has a transaction in flight exactly when one is open.
  lemma IdleBuilder(mapper: Mapper, lsn: LSN, turns: seq<Turn>)
    requires !ConnAfter(mapper, lsn, turns).stopped
    ensures ConnAfter(mapper, lsn, turns).builder.inFlight.None? <==> Idle(turns)
  {
    BuilderTracks(mapper, lsn, turns);
    TracksAll(mapper, MessagesOf(turns));
  }

  // ----- The acknowledged position -----

  lemma AckStep(mapper: Mapper, lsn: LSN, turns: seq<Turn>, t: Turn)
    ensures var c, d := ConnAfter(mapper, lsn, turns), ConnAfter(mapper, lsn, turns + [t]);
      && c.ack <= d.ack
      && (d.ack == c.ack || Source(turns + [t], |turns|, d.ack))
      && (forall p :: !c.stopped && Source(turns + [t], |turns|, p) ==> p <= d.ack)
  {
    var c := ConnAfter(mapper, lsn, turns);
    TurnsAppend(mapper, lsn, turns, t);
    assert (turns + [t])[..|turns|] == turns;
    if !c.stopped {
      IdleBuilder(mapper, lsn, turns);
      NextBuilder(mapper, c, t);
    }
  }

  lemma SourcePrefix(turns: seq<Turn>, n: nat, j: int, l: int)
    requires j < n <= |turns|
    ensures Source(turns[..n], j, l) <==> Source(turns, j, l)
    ensures CommitAt(turns[..n], j, l) <==> CommitAt(turns, j, l)
  {
    if 0 <= j {
      assert turns[..n][..j] == turns[..j];
    }
  }

  /** The acknowledged position is the highest Commit position, or WAL end reported
      while idle, received so far; or zero before any. */
  lemma {:induction false} AckIsHighest(mapper: Mapper, lsn: LSN, turns: seq<Turn>)
    ensures var ack := ConnAfter(mapper, lsn, turns).ack;
      && (ack == 0 || exists j :: Source(turns, j, ack))
      && (forall j, p :: Source(turns, j, p) && !ConnAfter(mapper, lsn, turns[..j]).stopped ==> p <= ack)
  {
    if turns != [] {
      var n := |turns| - 1;
      var init := turns[..n];
      assert init + [turns[n]] == turns;
      AckIsHighest(mapper, lsn, init);
      AckStep(mapper, lsn, init, turns[n]);
      var before := ConnAfter(mapper, lsn, init).ack;
      if before != 0 {
        var j :| Source(init, j, before);
        SourcePrefix(turns, n, j, before);
      }
      forall j, p | Source(turns, j, p) && !ConnAfter(mapper, lsn, turns[..j]).stopped
        ensures p <= ConnAfter(mapper, lsn, turns).ack
      {
        if j < n {
          SourcePrefix(turns, n, j, p);
          assert init[..j] == turns[..j];
        }
      }
    }
  }

  lemma {:induction false} AckGrows(mapper: Mapper, lsn: LSN, turns: seq<Turn>, n: nat, m: nat)
    requires n <= m <= |turns|
    ensures ConnAfter(mapper, lsn, turns[..n]).ack <= ConnAfter(mapper, lsn, turns[..m]).ack
    decreases m - n
  {
    if n < m {
      assert turns[..n + 1] == turns[..n] + [turns[n]];
      AckStep(mapper, lsn, turns[..n], turns[n]);
      AckGrows(mapper, lsn, turns, n + 1, m);
    }
  }

  lemma CommitCloses(msgs: seq<Message>, m: Message)
    requires m.Commit?
    ensures forall b :: !OpenAt(msgs + [m], b)
  {
    assert (msgs + [m])[|msgs|] == m;
  }

  lemma AckFrozen(mapper: Mapper, lsn: LSN, turns: seq<Turn>, n: nat)
    requires n < |turns| && !Idle(turns[..n]) && !Idle(turns[..n + 1])
    ensures ConnAfter(mapper, lsn, turns[..n + 1]).ack == ConnAfter(mapper, lsn, turns[..n]).ack
  {
    var c := ConnAfter(mapper, lsn, turns[..n]);
    assert turns[..n + 1] == turns[..n] + [turns[n]];
    TurnsAppend(mapper, lsn, turns[..n], turns[n]);
    if !c.stopped {
      IdleBuilder(mapper, lsn, turns[..n]);
      NextBuilder(mapper, c, turns[n]);
      if MessageIn(turns[n]).Some? && MessageIn(turns[n]).value.Commit? {
        CommitCloses(MessagesOf(turns[..n]), MessageIn(turns[n]).value);
        assert false;
      }
    }
  }

  lemma {:induction false} AckFrozenOver(mapper: Mapper, lsn: LSN, turns: seq<Turn>, n: nat, m: nat)
    requires n <= m <= |turns| && forall i :: n <= i <= m ==> !Idle(turns[..i])
    ensures ConnAfter(mapper, lsn, turns[..m]).ack == ConnAfter(mapper, lsn, turns[..n]).ack
    decreases m - n
  {
    if n < m {
      AckFrozen(mapper, lsn, turns, n);
      AckFrozenOver(mapper, lsn, turns, n + 1, m);
    }
  }

  // ----- Standby updates -----

  // Updates sent in one turn: at most one before receiving, at the old position.
  ghost predicate SentInTurn(more: seq<Act>, n: nat, before: LSN, after: LSN) {
    && (forall k :: 0 <= k < |more| && more[k].Standby? ==>
          (more[k].at == n && more[k].position == before) || (more[k].at == n + 1 && more[k].position == after))
    && (forall j, k :: 0 <= j < k < |more| && more[j].Standby? && more[k].Standby? ==> more[j].at <= more[k].at)
  }

  lemma {:induction false} BeatsSend(c: Conn, n: nat)
    ensures |Beats(c, n).acts| == |c.acts| + n && c.acts <= Beats(c, n).acts
    ensures forall k :: |c.acts| <= k < |c.acts| + n ==> Beats(c, n).acts[k] == Standby(c.at, c.ack)
  {
    if n > 0 {
      BeatsSend(c, n - 1);
      BeatsKeep(c, n - 1);
    }
  }

  // A Commit records, waits, and hands over.
  lemma CommitSends(c: Conn, tx: Tx, ticks: nat, handedOff: bool)
    ensures var d := Delivered(c, tx, ticks, handedOff);
      && c.acts <= d.acts
      && (forall k :: |c.acts| <= k < |d.acts| && d.acts[k].Standby? ==> d.acts[k] == Standby(c.at, c.ack))
  {
    BeatsSend(c, ticks);
  }

  lemma EventSends(mapper: Mapper, c: Conn, event: Event)
    ensures var d := OnEvent(mapper, c, event);
      && c.acts <= d.acts
      && (forall k :: |c.acts| <= k < |d.acts| && d.acts[k].Standby? ==> d.acts[k] == Standby(c.at, d.ack))
  {
    if event.XLog? && event.msg.Some? {
      var msg := event.msg.value;
      var tx := Emits(c.builder, msg);
      if tx.Some? {
        var lsn := tx.value.commitLSN;
        var c1 := c.(builder := After(mapper, c.builder, msg), lsn := lsn, ack := Advanced(c.ack, lsn),
                     acts := c.acts + [Recorded(lsn)]);
        CommitSends(c1, tx.value, event.ticks, event.handedOff);
        BeatsKeep(c1, event.ticks);
      }
    }
  }

  lemma TurnSends(mapper: Mapper, c: Conn, t: Turn)
    ensures var d := Next(mapper, c, t);
      c.acts <= d.acts && SentInTurn(d.acts[|c.acts|..], c.at, c.ack, d.ack)
  {
    if !c.stopped {
      var c1 := if t.due then Beat(c) else c;
      EventSends(mapper, c1.(at := c1.at + 1), t.event);
    }
  }

  ghost predicate SentAsAcked(mapper: Mapper, lsn: LSN, turns: seq<Turn>, acts: seq<Act>) {
    && (forall k :: 0 <= k < |acts| && acts[k].Standby? ==>
          acts[k].at <= |turns| && acts[k].position == ConnAfter(mapper, lsn, turns[..acts[k].at]).ack)
    && (forall j, k :: 0 <= j < k < |acts| && acts[j].Standby? && acts[k].Standby? ==> acts[j].at <= acts[k].at)
  }

  lemma SentPrefix(mapper: Mapper, lsn: LSN, turns: seq<Turn>, acts: seq<Act>)
    requires turns != [] && SentAsAcked(mapper, lsn, turns[..|turns| - 1], acts)
    ensures SentAsAcked(mapper, lsn, turns, acts)
  {
    forall k | 0 <= k < |acts| && acts[k].Standby?
      ensures acts[k].at <= |turns| && acts[k].position == ConnAfter(mapper, lsn, turns[..acts[k].at]).ack
    {
      assert turns[..|turns| - 1][..acts[k].at] == turns[..acts[k].at];
    }
  }

  lemma SentMore(mapper: Mapper, lsn: LSN, turns: seq<Turn>, acts: seq<Act>, more: seq<Act>)
    requires turns != [] && SentAsAcked(mapper, lsn, turns, acts)
    requires forall k :: 0 <= k < |acts| && acts[k].Standby? ==> acts[k].at < |turns|
    requires var n := |turns| - 1;
      SentInTurn(more, n, ConnAfter(mapper, lsn, turns[..n]).ack, ConnAfter(mapper, lsn, turns).ack)
    ensures SentAsAcked(mapper, lsn, turns, acts + more)
  {
    assert turns[..|turns|] == turns;
  }

  lemma {:induction false} StandbysAreAcks(mapper: Mapper, lsn: LSN, turns: seq<Turn>)
    ensures SentAsAcked(mapper, lsn, turns, ConnAfter(mapper, lsn, turns).acts)
  {
    if turns != [] {
      var n := |turns| - 1;
      var init := turns[..n];
      assert init + [turns[n]] == turns;
      StandbysAreAcks(mapper, lsn, init);
      var c := ConnAfter(mapper, lsn, init);
      AtCounts(mapper, lsn, init);
      TurnsAppend(mapper, lsn, init, turns[n]);
      TurnSends(mapper, c, turns[n]);
      SentPrefix(mapper, lsn, turns, c.acts);
      var acts := ConnAfter(mapper, lsn, turns).acts;
      SentMore(mapper, lsn, turns, c.acts, acts[|c.acts|..]);
      assert acts == c.acts + acts[|c.acts|..];
    }
  }

  /** Ack safety: with an honest server, no standby update carries a position above a
      Commit not received when it was sent. */
  lemma AckIsSafe(mapper: Mapper, lsn: LSN, turns: seq<Turn>, k: nat, j: int, l: LSN)
    requires Honest(turns)
    requires var acts := ConnAfter(mapper, lsn, turns).acts; k < |acts| && acts[k].Standby? && acts[k].at <= j
    requires CommitAt(turns, j, l)
    ensures ConnAfter(mapper, lsn, turns).acts[k].position <= l
  {
    var act := ConnAfter(mapper, lsn, turns).acts[k];
    StandbysAreAcks(mapper, lsn, turns);
    AckIsHighest(mapper, lsn, turns[..act.at]);
    if act.position != 0 {
      var i :| Source(turns[..act.at], i, act.position);
      SourcePrefix(turns, act.at, i, act.position);
    }
  }

  /** Positions never decrease on a connection, and stay put while a transaction is
      open. */
  lemma PositionsGrow(mapper: Mapper, lsn: LSN, turns: seq<Turn>, j: nat, k: nat)
    requires var acts := ConnAfter(mapper, lsn, turns).acts;
      j < k < |acts| && acts[j].Standby? && acts[k].Standby?
    ensures var acts := ConnAfter(mapper, lsn, turns).acts;
      && acts[j].at <= acts[k].at <= |turns|
      && acts[j].position <= acts[k].position
      && ((forall i :: acts[j].at <= i <= acts[k].at ==> !Idle(turns[..i])) ==> acts[j].position == acts[k].position)
  {
    var acts := ConnAfter(mapper, lsn, turns).acts;
    StandbysAreAcks(mapper, lsn, turns);
    AckGrows(mapper, lsn, turns, acts[j].at, acts[k].at);
    if forall i :: acts[j].at <= i <= acts[k].at ==> !Idle(turns[..i]) {
      AckFrozenOver(mapper, lsn, turns, acts[j].at, acts[k].at);
    }
  }

  // ----- Recording and handing over -----

  // Every handed transaction was recorded before, with no other recorded in between.
  ghost predicate RecordedFirst(acts: seq<Act>) {
    forall k :: 0 <= k < |acts| && acts[k].Handed? ==> exists r :: RecordedAt(acts, r, k)
  }

  ghost predicate RecordedAt(acts: seq<Act>, r: int, k: int)
    requires 0 <= k < |acts| && acts[k].Handed?
  {
    && 0 <= r < k && acts[r] == Recorded(acts[k].tx.commitLSN)
    && forall i :: r < i < k ==> acts[i].Standby?
  }

  lemma RecordedKept(acts: seq<Act>, more: seq<Act>)
    requires RecordedFirst(acts) && acts <= more
    requires forall k :: |acts| <= k < |more| ==> !more[k].Handed?
    ensures RecordedFirst(more)
  {
    forall k | 0 <= k < |more| && more[k].Handed?
      ensures exists r :: RecordedAt(more, r, k)
    {
      var r :| RecordedAt(acts, r, k);
      assert RecordedAt(more, r, k);
    }
  }

  lemma RecordedHandOver(acts: seq<Act>, beats: seq<Act>, tx: Tx)
    requires RecordedFirst(acts) && forall k :: 0 <= k < |beats| ==> beats[k].Standby?
    ensures RecordedFirst(acts + [Recorded(tx.commitLSN)] + beats)
    ensures RecordedFirst(acts + [Recorded(tx.commitLSN)] + beats + [Handed(tx)])
  {
    var waiting := acts + [Recorded(tx.commitLSN)] + beats;
    RecordedKept(acts, waiting);
    var all := waiting + [Handed(tx)];
    forall k | 0 <= k < |all| && all[k].Handed?
      ensures exists r :: RecordedAt(all, r, k)
    {
      if k == |waiting| {
        assert RecordedAt(all, |acts|, k);
      } else {
        var r :| RecordedAt(waiting, r, k);
        assert RecordedAt(all, r, k);
      }
    }
  }

  lemma {:induction false} HandedQuiet(acts: seq<Act>, beats: seq<Act>)
    requires forall k :: 0 <= k < |beats| ==> !beats[k].Handed?
    ensures HandedIn(acts + beats) == HandedIn(acts)
  {
    if beats == [] {
      assert acts + beats == acts;
    } else {
      var n := |beats| - 1;
      HandedQuiet(acts, beats[..n]);
      assert acts + beats == acts + beats[..n] + [beats[n]];
      HandedAppend(acts + beats[..n], beats[n]);
    }
  }

  lemma CommitHands(c: Conn, acts: seq<Act>, tx: Tx, ticks: nat, handedOff: bool)
    requires RecordedFirst(acts) && c.acts == acts + [Recorded(tx.commitLSN)]
    ensures var d := Delivered(c, tx, ticks, handedOff);
      && RecordedFirst(d.acts)
      && HandedIn(d.acts) == HandedIn(acts) + if handedOff then [tx] else []
  {
    BeatsSend(c, ticks);
    var waiting := Beats(c, ticks).acts;
    var beats := waiting[|c.acts|..];
    assert waiting == acts + [Recorded(tx.commitLSN)] + beats;
    RecordedHandOver(acts, beats, tx);
    HandedWaiting(acts, beats, tx);
  }

  lemma HandedWaiting(acts: seq<Act>, beats: seq<Act>, tx: Tx)
    requires forall k :: 0 <= k < |beats| ==> beats[k].Standby?
    ensures HandedIn(acts + [Recorded(tx.commitLSN)] + beats) == HandedIn(acts)
    ensures HandedIn(acts + [Recorded(tx.commitLSN)] + beats + [Handed(tx)]) == HandedIn(acts) + [tx]
  {
    HandedAppend(acts, Recorded(tx.commitLSN));
    HandedQuiet(acts + [Recorded(tx.commitLSN)], beats);
    HandedAppend(acts + [Recorded(tx.commitLSN)] + beats, Handed(tx));
  }

  // Acts that hand nothing over.
  lemma QuietActs(acts: seq<Act>, more: seq<Act>)
    requires RecordedFirst(acts) && acts <= more
    requires forall k :: |acts| <= k < |more| ==> !more[k].Handed?
    ensures RecordedFirst(more) && HandedIn(more) == HandedIn(acts)
  {
    RecordedKept(acts, more);
    HandedQuiet(acts, more[|acts|..]);
    assert acts + more[|acts|..] == more;
  }

  lemma MessageHands(mapper: Mapper, c: Conn, msg: Message, ticks: nat, handedOff: bool)
    requires RecordedFirst(c.acts) && !c.stopped
    ensures var tx, d := Emits(c.builder, msg), OnMessage(mapper, c, msg, ticks, handedOff);
      && RecordedFirst(d.acts)
      && HandedIn(d.acts) == HandedIn(c.acts) + (if tx.Some? && handedOff then [tx.value] else [])
      && (d.stopped <==> tx.Some? && !handedOff)
      && (tx.Some? ==> d.ack >= tx.value.commitLSN && d.lsn == tx.value.commitLSN)
  {
    var tx := Emits(c.builder, msg);
    if tx.Some? {
      var lsn := tx.value.commitLSN;
      var c2 := c.(builder := After(mapper, c.builder, msg), lsn := lsn, ack := Advanced(c.ack, lsn),
                   acts := c.acts + [Recorded(lsn)]);
      CommitHands(c2, c.acts, tx.value, ticks, handedOff);
      BeatsKeep(c2, ticks);
    }
  }

  function EmittedIn(c: Conn, t: Turn): Option<Tx> {
    if MessageIn(t).Some? then Emits(c.builder, MessageIn(t).value) else None
  }

  predicate HandsOff(t: Turn) {
    t.event.XLog? && t.event.handedOff
  }

  // From c to d the transaction, if any, is recorded and acknowledged, and handed over
  // unless the process is cancelled; only that or a broken connection stops the loop.
  ghost predicate Hands(c: Conn, d: Conn, tx: Option<Tx>, t: Turn) {
    && RecordedFirst(d.acts)
    && HandedIn(d.acts) == HandedIn(c.acts) + (if tx.Some? && HandsOff(t) then [tx.value] else [])
    && (d.stopped <==> t.event.Broken? || (tx.Some? && !HandsOff(t)))
    && (tx.Some? ==> d.ack >= tx.value.commitLSN && d.lsn == tx.value.commitLSN)
  }

  lemma EventHands(mapper: Mapper, c: Conn, t: Turn)
    requires !c.stopped && RecordedFirst(c.acts)
    ensures Hands(c, OnEvent(mapper, c, t.event), EmittedIn(c, t), t)
  {
    if MessageIn(t).Some? {
      MessageHands(mapper, c, MessageIn(t).value, t.event.ticks, t.event.handedOff);
    } else {
      QuietActs(c.acts, OnEvent(mapper, c, t.event).acts);
      assert HandedIn(c.acts) + [] == HandedIn(c.acts);
    }
  }

  lemma HandsFrom(c: Conn, c1: Conn, d: Conn, tx: Option<Tx>, t: Turn)
    requires HandedIn(c1.acts) == HandedIn(c.acts) && Hands(c1, d, tx, t)
    ensures Hands(c, d, tx, t)
  {
  }

  lemma TurnHands(mapper: Mapper, c: Conn, t: Turn)
    requires !c.stopped && RecordedFirst(c.acts)
    ensures Hands(c, Next(mapper, c, t), EmittedIn(c, t), t)
  {
    var c1 := (if t.due then Beat(c) else c).(at := c.at + 1);
    QuietActs(c.acts, c1.acts);
    EventHands(mapper, c1, t);
    HandsFrom(c, c1, OnEvent(mapper, c1, t.event), EmittedIn(c, t), t);
  }

  // Which turns' transactions the router has been handed.
  ghost predicate HandedUpTo(mapper: Mapper, lsn: LSN, turns: seq<Turn>, n: nat) {
    var c := ConnAfter(mapper, lsn, turns);
    && n <= |turns|
    && HandedIn(c.acts) == EmittedBy(mapper, MessagesOf(turns[..n]))
    && (if c.stopped then n < |turns| && !ConnAfter(mapper, lsn, turns[..n]).stopped
                          && ConnAfter(mapper, lsn, turns[..n + 1]).stopped
        else n == |turns|)
  }

  lemma HandedTurn(mapper: Mapper, lsn: LSN, turns: seq<Turn>, t: Turn)
    requires !ConnAfter(mapper, lsn, turns).stopped
    requires RecordedFirst(ConnAfter(mapper, lsn, turns).acts) && HandedUpTo(mapper, lsn, turns, |turns|)
    ensures var d := ConnAfter(mapper, lsn, turns + [t]);
      && RecordedFirst(d.acts)
      && HandedUpTo(mapper, lsn, turns + [t], if d.stopped then |turns| else |turns| + 1)
  {
    var c := ConnAfter(mapper, lsn, turns);
    TurnsAppend(mapper, lsn, turns, t);
    BuilderTracks(mapper, lsn, turns);
    TurnHands(mapper, c, t);
    assert turns[..|turns|] == turns && (turns + [t])[..|turns|] == turns;
    assert (turns + [t])[..|turns| + 1] == turns + [t];
    if MessageIn(t).Some? {
      OneMore(mapper, MessagesOf(turns), MessageIn(t).value);
    }
  }

  /** The router is handed exactly the transactions the messages assemble to, in
      order, each recorded before it is handed over; all of them while the connection
      lives, and otherwise those of the turns before the one that ended it. */
  lemma {:induction false} HandsOverEmitted(mapper: Mapper, lsn: LSN, turns: seq<Turn>) returns (n: nat)
    ensures RecordedFirst(ConnAfter(mapper, lsn, turns).acts)
    ensures HandedUpTo(mapper, lsn, turns, n)
  {
    if turns == [] {
      n := 0;
    } else {
      var last := |turns| - 1;
      var init := turns[..last];
      assert init + [turns[last]] == turns;
      n := HandsOverEmitted(mapper, lsn, init);
      if ConnAfter(mapper, lsn, init).stopped {
        TurnsAppend(mapper, lsn, init, turns[last]);
        assert init[..n] == turns[..n] && init[..n + 1] == turns[..n + 1];
      } else {
        HandedTurn(mapper, lsn, init, turns[last]);
        n := if ConnAfter(mapper, lsn, turns).stopped then last else last + 1;
      }
    }
  }

  /** Acknowledged does not mean delivered: when the process is cancelled while a
      transaction waits for the router, its position is recorded and acknowledged, and
      it is never handed over. */
  lemma AckedNotDelivered(mapper: Mapper, lsn: LSN, turns: seq<Turn>, due: bool, l: LSN, time: int, ticks: nat)
    requires !ConnAfter(mapper, lsn, turns).stopped && !Idle(turns)
    ensures var t := Turn(due, XLog(Some(Commit(l, time)), ticks, false));
      var c, d := ConnAfter(mapper, lsn, turns), ConnAfter(mapper, lsn, turns + [t]);
      d.stopped && d.ack >= l && d.lsn == l && HandedIn(d.acts) == HandedIn(c.acts)
  {
    var t := Turn(due, XLog(Some(Commit(l, time)), ticks, false));
    TurnsAppend(mapper, lsn, turns, t);
    IdleBuilder(mapper, lsn, turns);
    var _ := HandsOverEmitted(mapper, lsn, turns);
    TurnHands(mapper, ConnAfter(mapper, lsn, turns), t);
  }
}
