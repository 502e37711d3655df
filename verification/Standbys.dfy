/** When the WAL reader answers the server (internal/wal/reader.go:211-329): what every
    turn of the receive loop observably does. */
module Standbys {
  import opened WalTypes
  import opened Assembly
  import opened WalReader
  import opened AckSafety

  // The update sent after n turns.
  function Beats(n: nat, position: LSN, times: nat): seq<Act> {
    seq(times, _ => Standby(n, position))
  }

  // Turn n answers a keepalive that asks for it.
  ghost predicate Asked(turns: seq<Turn>, n: nat) {
    n < |turns| && turns[n].event.Keepalive? && turns[n].event.replyRequested
  }

  // Turn n commits an open transaction.
  ghost predicate Commits(turns: seq<Turn>, n: nat) {
    && n < |turns| && MessageIn(turns[n]).Some? && MessageIn(turns[n]).value.Commit?
    && !Idle(turns[..n])
  }

  // What follows the receive in turn n, with the position reached then.
  ghost predicate Answers(turns: seq<Turn>, n: nat, position: LSN, acts: seq<Act>)
    requires n < |turns|
  {
    if Asked(turns, n) then acts == [Standby(n + 1, position)]
    else if Commits(turns, n) then
      exists tx: Tx ::
        && tx.commitLSN == MessageIn(turns[n]).value.lsn
        && acts == [Recorded(tx.commitLSN)] + Beats(n + 1, position, turns[n].event.ticks)
                   + if turns[n].event.handedOff then [Handed(tx)] else []
    else acts == []
  }

  lemma {:induction false} BeatsAre(c: Conn, n: nat)
    ensures WalReader.Beats(c, n).acts == c.acts + Beats(c.at, c.ack, n)
  {
    if n > 0 {
      BeatsAre(c, n - 1);
      BeatsKeep(c, n - 1);
      assert Beats(c.at, c.ack, n) == Beats(c.at, c.ack, n - 1) + [Standby(c.at, c.ack)];
    }
  }

  lemma CommitActs(mapper: Mapper, c: Conn, event: Event, tx: Tx)
    requires event.XLog? && event.msg.Some? && Emits(c.builder, event.msg.value) == Some(tx) && !c.stopped
    ensures var d := OnEvent(mapper, c, event);
      && d.acts == c.acts + ([Recorded(tx.commitLSN)] + Beats(c.at, d.ack, event.ticks)
                             + if event.handedOff then [Handed(tx)] else [])
      && (d.stopped <==> !event.handedOff)
  {
    var lsn := tx.commitLSN;
    var c1 := c.(builder := After(mapper, c.builder, event.msg.value), lsn := lsn, ack := Advanced(c.ack, lsn),
                 acts := c.acts + [Recorded(lsn)]);
    BeatsAre(c1, event.ticks);
    BeatsKeep(c1, event.ticks);
  }

  // A receive, with the loop's state before it.
  lemma EventActs(mapper: Mapper, turns: seq<Turn>, n: nat, c: Conn)
    requires n < |turns| && c.at == n + 1 && !c.stopped && (c.builder.inFlight.None? <==> Idle(turns[..n]))
    ensures var d := OnEvent(mapper, c, turns[n].event);
      && c.acts <= d.acts && Answers(turns, n, d.ack, d.acts[|c.acts|..])
      && (d.stopped <==> turns[n].event.Broken? || (Commits(turns, n) && !turns[n].event.handedOff))
  {
    var event := turns[n].event;
    if Commits(turns, n) {
      var tx := Emits(c.builder, event.msg.value).value;
      CommitActs(mapper, c, event, tx);
      var d := OnEvent(mapper, c, event);
      assert d.acts[|c.acts|..] == [Recorded(tx.commitLSN)] + Beats(n + 1, d.ack, event.ticks)
                                   + if event.handedOff then [Handed(tx)] else [];
    }
  }

  // Before the receive.
  lemma TimerActs(c: Conn, t: Turn, n: nat)
    requires c.at == n
    ensures (if t.due then Beat(c) else c).acts == c.acts + if t.due then [Standby(n, c.ack)] else []
  {
    assert c.acts + [] == c.acts;
  }

  lemma Rest(a: seq<Act>, b: seq<Act>)
    requires a <= b
    ensures b == a + b[|a|..]
  {
  }

  /** Every turn on a live connection: one update before the receive exactly when the
      timer is due; after it, one exactly when the server asked, or the record of the
      Commit of an open transaction, an update for each tick while the router is busy,
      and the hand-over; otherwise nothing. The connection ends exactly with a broken
      receive or a delivery cut short, and nothing follows. */
  lemma TurnsAreAnswered(mapper: Mapper, lsn: LSN, turns: seq<Turn>, n: nat)
    requires n < |turns|
    ensures var c, d, t := ConnAfter(mapper, lsn, turns[..n]), ConnAfter(mapper, lsn, turns[..n + 1]), turns[n];
      if c.stopped then d.stopped && d.acts == c.acts
      else
        && (exists more :: Answers(turns, n, d.ack, more)
                           && d.acts == c.acts + (if t.due then [Standby(n, c.ack)] else []) + more)
        && (d.stopped <==> t.event.Broken? || (Commits(turns, n) && !t.event.handedOff))
  {
    var c, t := ConnAfter(mapper, lsn, turns[..n]), turns[n];
    assert turns[..n + 1] == turns[..n] + [t];
    TurnsAppend(mapper, lsn, turns[..n], t);
    AtCounts(mapper, lsn, turns[..n]);
    if !c.stopped {
      IdleBuilder(mapper, lsn, turns[..n]);
      var c1 := (if t.due then Beat(c) else c).(at := n + 1);
      EventActs(mapper, turns, n, c1);
      TimerActs(c, t, n);
      Rest(c1.acts, OnEvent(mapper, c1, t.event).acts);
    }
  }

  // The updates among acts.
  function Sent(acts: seq<Act>): nat {
    if acts == [] then 0 else Sent(acts[..|acts| - 1]) + if acts[|acts| - 1].Standby? then 1 else 0
  }

  lemma {:induction false} SentAppend(a: seq<Act>, b: seq<Act>)
    ensures Sent(a + b) == Sent(a) + Sent(b)
  {
    if b == [] {
      assert a + b == a;
    } else {
      assert (a + b)[..|a + b| - 1] == a + b[..|b| - 1];
      SentAppend(a, b[..|b| - 1]);
    }
  }

  lemma {:induction false} BeatsAreSent(n: nat, position: LSN, times: nat)
    ensures Sent(Beats(n, position, times)) == times
  {
    if times > 0 {
      BeatsAreSent(n, position, times - 1);
      assert Beats(n, position, times)[..times - 1] == Beats(n, position, times - 1);
    }
  }

  // What turn n owes the server.
  ghost function Owed(turns: seq<Turn>, n: nat): nat
    requires n < |turns|
  {
    (if turns[n].due then 1 else 0)
    + if Asked(turns, n) then 1 else if Commits(turns, n) then turns[n].event.ticks else 0
  }

  ghost function OwedUpTo(turns: seq<Turn>, n: nat): nat
    requires n <= |turns|
  {
    if n == 0 then 0 else OwedUpTo(turns, n - 1) + Owed(turns, n - 1)
  }

  lemma AnswersAreSent(turns: seq<Turn>, n: nat, position: LSN, acts: seq<Act>)
    requires n < |turns| && Answers(turns, n, position, acts)
    ensures Sent(acts) + (if turns[n].due then 1 else 0) == Owed(turns, n)
  {
    if !Asked(turns, n) && Commits(turns, n) {
      var tx: Tx :| tx.commitLSN == MessageIn(turns[n]).value.lsn
                    && acts == [Recorded(tx.commitLSN)] + Beats(n + 1, position, turns[n].event.ticks)
                               + if turns[n].event.handedOff then [Handed(tx)] else [];
      var record, beats := [Recorded(tx.commitLSN)], Beats(n + 1, position, turns[n].event.ticks);
      SentAppend(record, beats);
      SentAppend(record + beats, if turns[n].event.handedOff then [Handed(tx)] else []);
      BeatsAreSent(n + 1, position, turns[n].event.ticks);
      assert Sent(record) == 0 by {
        assert record[..0] == [];
      }
    }
  }

  /** Over a whole live connection as many updates are sent as its turns owe. */
  lemma {:induction false} OwedIsSent(mapper: Mapper, lsn: LSN, turns: seq<Turn>, n: nat)
    requires n <= |turns| && (n > 0 ==> !ConnAfter(mapper, lsn, turns[..n - 1]).stopped)
    ensures Sent(ConnAfter(mapper, lsn, turns[..n]).acts) == OwedUpTo(turns, n)
  {
    if n > 0 {
      TurnsAreAnswered(mapper, lsn, turns, n - 1);
      if n > 1 {
        TurnsAreAnswered(mapper, lsn, turns, n - 2);
      }
      OwedIsSent(mapper, lsn, turns, n - 1);
      var c, d, t := ConnAfter(mapper, lsn, turns[..n - 1]), ConnAfter(mapper, lsn, turns[..n]), turns[n - 1];
      var timer := if t.due then [Standby(n - 1, c.ack)] else [];
      var more :| Answers(turns, n - 1, d.ack, more) && d.acts == c.acts + timer + more;
      SentAppend(c.acts, timer);
      SentAppend(c.acts + timer, more);
      AnswersAreSent(turns, n - 1, d.ack, more);
      assert timer != [] ==> timer[..0] == [];
    }
  }
}
