/** The receive loop of the WAL reader (internal/wal/reader.go): what it acknowledges
    to the server, records and hands to the router on one connection. */
module WalReader {
  import opened WalTypes
  import opened Assembly

  // What one receive yields. An XLog without message is empty or does not parse; its
  // ticks are the standby timers firing while a transaction waits for the router, and
  // handedOff is false when the process is cancelled meanwhile.
  datatype Event =
    | Keepalive(walEnd: LSN, replyRequested: bool)
    | XLog(msg: Option<Message>, ticks: nat, handedOff: bool)
    | Ignored
    | TimedOut
    | Broken

  // One turn of the loop; due says that the standby timer has fired before it.
  datatype Turn = Turn(due: bool, event: Event)

  // What the connection and the process observe. A standby update is tagged with the
  // number of turns received before it.
  datatype Act =
    | Standby(at: nat, position: LSN)
    | Recorded(lsn: LSN)
    | Handed(tx: Tx)

  // ----- One turn, on values -----

  datatype Conn = Conn(at: nat, builder: Builder, ack: LSN, lsn: LSN, acts: seq<Act>, stopped: bool)

  function Start(lsn: LSN): Conn {
    Conn(0, Empty, 0, lsn, [], false)
  }

  function Beat(c: Conn): Conn {
    c.(acts := c.acts + [Standby(c.at, c.ack)])
  }

  function Beats(c: Conn, n: nat): Conn {
    if n == 0 then c else Beat(Beats(c, n - 1))
  }

  function Advanced(ack: LSN, lsn: LSN): LSN {
    if lsn > ack then lsn else ack
  }

  function Delivered(c: Conn, tx: Tx, ticks: nat, handedOff: bool): Conn {
    var waited := Beats(c, ticks);
    if handedOff then waited.(acts := waited.acts + [Handed(tx)]) else waited.(stopped := true)
  }

  function OnMessage(mapper: Mapper, c: Conn, msg: Message, ticks: nat, handedOff: bool): Conn {
    var tx := Emits(c.builder, msg);
    var c := c.(builder := After(mapper, c.builder, msg));
    if tx.None? then c
    else
      var lsn := tx.value.commitLSN;
      Delivered(c.(lsn := lsn, ack := Advanced(c.ack, lsn), acts := c.acts + [Recorded(lsn)]),
                tx.value, ticks, handedOff)
  }

  function OnEvent(mapper: Mapper, c: Conn, event: Event): Conn {
    match event
    case TimedOut => c
    case Ignored => c
    case Broken => c.(builder := c.builder.(inFlight := None), stopped := true)
    case Keepalive(walEnd, replyRequested) =>
      var c := if c.builder.inFlight.None? then c.(ack := Advanced(c.ack, walEnd)) else c;
      if replyRequested then Beat(c) else c
    case XLog(msg, ticks, handedOff) =>
      if msg.None? then c else OnMessage(mapper, c, msg.value, ticks, handedOff)
  }

  function Next(mapper: Mapper, c: Conn, turn: Turn): Conn {
    if c.stopped then c.(at := c.at + 1)
    else
      var c := if turn.due then Beat(c) else c;
      OnEvent(mapper, c.(at := c.at + 1), turn.event)
  }

  function ConnAfter(mapper: Mapper, lsn: LSN, turns: seq<Turn>): Conn {
    if turns == [] then Start(lsn)
    else Next(mapper, ConnAfter(mapper, lsn, turns[..|turns| - 1]), turns[|turns| - 1])
  }

  // The transactions handed to the router, in order.
  function HandedIn(acts: seq<Act>): seq<Tx> {
    if acts == [] then []
    else
      var last := acts[|acts| - 1];
      HandedIn(acts[..|acts| - 1]) + if last.Handed? then [last.tx] else []
  }

  lemma HandedAppend(acts: seq<Act>, a: Act)
    ensures HandedIn(acts + [a]) == HandedIn(acts) + if a.Handed? then [a.tx] else []
  {
    assert (acts + [a])[..|acts|] == acts;
  }

  // ----- The loop -----

  class Reader {
    const mapper: Mapper
    // Position reported in standby updates.
    var ackLSN: LSN
    var lastCommittedLSN: LSN
    var txCh: seq<Tx>
    // History: turns received and acts on this connection, and what earlier
    // connections handed over.
    ghost var at: nat
    ghost var acts: seq<Act>
    ghost var earlier: seq<Tx>

    constructor (mapper: Mapper)
      ensures this.mapper == mapper && lastCommittedLSN == 0 && txCh == []
    {
      this.mapper := mapper;
      ackLSN, lastCommittedLSN, txCh := 0, 0, [];
      at, acts, earlier := 0, [], [];
    }

    ghost predicate Shows(c: Conn, txBld: TxBuilder, relCache: RelationCache)
      reads this, txBld, relCache
    {
      && txBld.mapper == mapper && c.builder == Builder(txBld.inFlight, relCache.m)
      && (c.at, c.ack, c.lsn, c.acts) == (at, ackLSN, lastCommittedLSN, acts)
      && txCh == earlier + HandedIn(acts)
    }

    method AdvanceAck(lsn: LSN)
      modifies this`ackLSN
      ensures ackLSN == Advanced(old(ackLSN), lsn)
    {
      if lsn > ackLSN {
        ackLSN := lsn;
      }
    }

    method SetLSN(lsn: LSN)
      modifies this`lastCommittedLSN, this`acts
      ensures lastCommittedLSN == lsn && acts == old(acts) + [Recorded(lsn)]
      ensures HandedIn(acts) == HandedIn(old(acts))
    {
      HandedAppend(acts, Recorded(lsn));
      lastCommittedLSN := lsn;
      acts := acts + [Recorded(lsn)];
    }

    method SendStandby()
      modifies this`acts
      ensures acts == old(acts) + [Standby(at, ackLSN)]
      ensures HandedIn(acts) == HandedIn(old(acts))
    {
      HandedAppend(acts, Standby(at, ackLSN));
      acts := acts + [Standby(at, ackLSN)];
    }

    // Standby updates go out from here while the router is busy.
    method Deliver(tx: Tx, ticks: nat, handedOff: bool, ghost c: Conn) returns (ok: bool)
      requires (c.at, c.ack, c.acts) == (at, ackLSN, acts) && !c.stopped
      requires txCh == earlier + HandedIn(acts)
      modifies this`acts, this`txCh
      ensures acts == Delivered(c, tx, ticks, handedOff).acts
      ensures ok <==> handedOff
      ensures txCh == earlier + HandedIn(acts)
      ensures txCh == if handedOff then old(txCh) + [tx] else old(txCh)
    {
      var n := 0;
      while n < ticks
        invariant n <= ticks && txCh == old(txCh) && HandedIn(acts) == HandedIn(old(acts))
        invariant acts == Beats(c, n).acts && (Beats(c, n).at, Beats(c, n).ack) == (at, ackLSN)
      {
        SendStandby();
        n := n + 1;
      }
      if handedOff {
        HandedAppend(acts, Handed(tx));
        txCh := txCh + [tx];
        acts := acts + [Handed(tx)];
      }
      ok := handedOff;
    }

    method ProcessRow(msg: Message, txBld: TxBuilder, relCache: RelationCache)
      requires IsRowMessage(msg) && txBld.mapper == mapper
      modifies txBld
      ensures txBld.inFlight == After(mapper, Builder(old(txBld.inFlight), relCache.m), msg).inFlight
    {
      // An undecodable change is skipped.
      match msg
      case Insert(oid, tuple) => var _ := txBld.HandleInsert(oid, tuple, relCache);
      case Update(oid, oldTuple, newTuple) => var _ := txBld.HandleUpdate(oid, oldTuple, newTuple, relCache);
      case Delete(oid, oldTuple) => var _ := txBld.HandleDelete(oid, oldTuple, relCache);
    }

    // Everything but Commit: no transaction comes out.
    method ProcessPlain(msg: Message, txBld: TxBuilder, relCache: RelationCache)
      requires !msg.Commit? && txBld.mapper == mapper
      modifies txBld, relCache
      ensures Builder(txBld.inFlight, relCache.m) == After(mapper, Builder(old(txBld.inFlight), old(relCache.m)), msg)
    {
      if msg.Begin? {
        txBld.HandleBegin(msg.xid, msg.finalLSN);
      } else if msg.RelationMsg? {
        var _ := relCache.Update(msg.rel);
      } else if IsRowMessage(msg) {
        ProcessRow(msg, txBld, relCache);
      }
    }

    method ProcessCommit(msg: Message, ticks: nat, handedOff: bool, txBld: TxBuilder, relCache: RelationCache,
                         ghost c: Conn)
      returns (ok: bool)
      requires msg.Commit? && Shows(c, txBld, relCache) && !c.stopped
      modifies this, txBld
      ensures Shows(OnMessage(mapper, c, msg, ticks, handedOff), txBld, relCache)
      ensures ok <==> !OnMessage(mapper, c, msg, ticks, handedOff).stopped
      ensures earlier == old(earlier)
    {
      BeatsKeep(c, ticks);
      var tx := txBld.HandleCommit(msg.lsn, msg.time);
      if tx.None? {
        return true;
      }
      SetLSN(msg.lsn);
      AdvanceAck(msg.lsn);
      ghost var c1 := c.(builder := After(mapper, c.builder, msg), lsn := msg.lsn, ack := Advanced(c.ack, msg.lsn),
                         acts := c.acts + [Recorded(msg.lsn)]);
      BeatsKeep(c1, ticks);
      ok := Deliver(tx.value, ticks, handedOff, c1);
    }

    method ProcessWALMessage(msg: Option<Message>, ticks: nat, handedOff: bool, txBld: TxBuilder,
                             relCache: RelationCache, ghost c: Conn)
      returns (ok: bool)
      requires Shows(c, txBld, relCache) && !c.stopped
      modifies this, txBld, relCache
      ensures Shows(OnEvent(mapper, c, XLog(msg, ticks, handedOff)), txBld, relCache)
      ensures ok <==> !OnEvent(mapper, c, XLog(msg, ticks, handedOff)).stopped
      ensures earlier == old(earlier)
    {
      if msg.None? {
        return true;
      }
      if msg.value.Commit? {
        ok := ProcessCommit(msg.value, ticks, handedOff, txBld, relCache, c);
      } else {
        ProcessPlain(msg.value, txBld, relCache);
        ok := true;
      }
    }

    // False when the connection is lost or the process cancelled.
    method Turned(turn: Turn, txBld: TxBuilder, relCache: RelationCache, ghost c: Conn) returns (ok: bool)
      requires Shows(c, txBld, relCache) && !c.stopped
      modifies this, txBld, relCache
      ensures Shows(Next(mapper, c, turn), txBld, relCache)
      ensures ok <==> !Next(mapper, c, turn).stopped
      ensures earlier == old(earlier)
    {
      if turn.due {
        SendStandby();
      }
      ghost var c1 := if turn.due then Beat(c) else c;
      at := at + 1;
      ghost var c2 := c1.(at := c1.at + 1);
      ok := true;
      match turn.event
      case TimedOut =>
      case Ignored =>
      case Broken =>
        txBld.Reset();
        ok := false;
      case Keepalive(walEnd, replyRequested) =>
        ProcessKeepalive(walEnd, replyRequested, txBld, relCache, c2);
      case XLog(msg, ticks, handedOff) =>
        ok := ProcessWALMessage(msg, ticks, handedOff, txBld, relCache, c2);
    }

    // With no transaction open everything up to walEnd has been seen.
    method ProcessKeepalive(walEnd: LSN, replyRequested: bool, txBld: TxBuilder, relCache: RelationCache, ghost c: Conn)
      requires Shows(c, txBld, relCache)
      modifies this`ackLSN, this`acts
      ensures Shows(OnEvent(mapper, c, Keepalive(walEnd, replyRequested)), txBld, relCache)
    {
      if !txBld.InTx() {
        AdvanceAck(walEnd);
      }
      if replyRequested {
        SendStandby();
      }
    }

    // Every run starts from an acknowledged position of zero, no open transaction
    // and no known relation.
    method RunLoop(turns: seq<Turn>)
      modifies this
      ensures var c := ConnAfter(mapper, old(lastCommittedLSN), turns);
        && (c.at, c.ack, c.lsn, c.acts) == (at, ackLSN, lastCommittedLSN, acts)
        && txCh == old(txCh) + HandedIn(c.acts)
    {
      ghost var lsn := lastCommittedLSN;
      at, acts, earlier := 0, [], txCh;
      var txBld := new TxBuilder(mapper);
      ackLSN := 0;
      var relCache := new RelationCache();
      var n := 0;
      var ok := true;
      while n < |turns| && ok
        invariant n <= |turns| && fresh(txBld) && fresh(relCache) && earlier == old(txCh)
        invariant Shows(ConnAfter(mapper, lsn, turns[..n]), txBld, relCache)
        invariant ok <==> !ConnAfter(mapper, lsn, turns[..n]).stopped
      {
        assert turns[..n + 1][..n] == turns[..n];
        ok := Turned(turns[n], txBld, relCache, ConnAfter(mapper, lsn, turns[..n]));
        n := n + 1;
      }
      assert turns[..|turns|] == turns;
      if !ok {
        StoppedStays(mapper, lsn, turns, n);
        at := |turns|;
      }
    }
  }

  lemma {:induction false} BeatsKeep(c: Conn, n: nat)
    ensures Beats(c, n) == c.(acts := Beats(c, n).acts)
  {
    if n > 0 {
      BeatsKeep(c, n - 1);
    }
  }

  lemma {:induction false} AtCounts(mapper: Mapper, lsn: LSN, turns: seq<Turn>)
    ensures ConnAfter(mapper, lsn, turns).at == |turns|
  {
    if turns != [] {
      var n := |turns| - 1;
      AtCounts(mapper, lsn, turns[..n]);
      if turns[n].event.XLog? {
        var c := ConnAfter(mapper, lsn, turns[..n]);
        MessageKeepsAt(mapper, (if turns[n].due then Beat(c) else c).(at := |turns|), turns[n].event);
      }
    }
  }

  lemma MessageKeepsAt(mapper: Mapper, c: Conn, event: Event)
    ensures OnEvent(mapper, c, event).at == c.at
  {
    if event.XLog? && event.msg.Some? {
      var tx := Emits(c.builder, event.msg.value);
      if tx.Some? {
        var lsn := tx.value.commitLSN;
        BeatsKeep(c.(builder := After(mapper, c.builder, event.msg.value), lsn := lsn, ack := Advanced(c.ack, lsn),
                     acts := c.acts + [Recorded(lsn)]), event.ticks);
      }
    }
  }

  // Nothing happens on a connection that is gone.
  lemma {:induction false} StoppedStays(mapper: Mapper, lsn: LSN, turns: seq<Turn>, n: nat)
    requires n <= |turns| && ConnAfter(mapper, lsn, turns[..n]).stopped
    ensures ConnAfter(mapper, lsn, turns) == ConnAfter(mapper, lsn, turns[..n]).(at := |turns|)
    decreases |turns| - n
  {
    AtCounts(mapper, lsn, turns[..n]);
    if n < |turns| {
      assert turns[..n + 1][..n] == turns[..n];
      StoppedStays(mapper, lsn, turns, n + 1);
    } else {
      assert turns[..n] == turns;
    }
  }
}
