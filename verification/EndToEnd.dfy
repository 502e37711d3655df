/** The pieces together: what a client reads off the wire, against a scan of all
    committed transactions that knows no index, queue or interleaving. */
module EndToEnd {
  import opened WalTypes
  import opened Whitelists
  import opened Routing
  import opened Delivery
  import DeliveryTheorems
  import Framing
  import EventStream

  // Delivery run with the router's own decision and lookup.
  ghost function EnvOf(cfg: Config): Env {
    Env((ch: Channel, start: LSN, ws: seq<Option<Whitelist>>, tx: Tx) =>
          if |ws| == |tx.changes| then Decide(cfg, ch, start, ws, tx) else Skip,
        (ch: Channel, c: Change) => KeyMatches(ch, c))
  }

  /** The router's decision has the cutoff the start theorem asks for. */
  lemma RouterRespectsStart(cfg: Config)
    ensures DeliveryTheorems.RespectsStart(EnvOf(cfg))
  {
  }

  // The frames of a plain scan: transaction by transaction, each under the grants its
  // changes were filtered by.
  ghost function Scan(cfg: Config, ch: Channel, start: LSN, txs: seq<Tx>, wss: seq<seq<Option<Whitelist>>>): seq<string>
    requires |wss| == |txs| && forall j :: 0 <= j < |txs| ==> |wss[j]| == |txs[j].changes|
  {
    if txs == [] then []
    else
      var n := |txs| - 1;
      Scan(cfg, ch, start, txs[..n], wss[..n]) + FrameIn(Decide(cfg, ch, start, wss[n], txs[n]))
  }

  // No grant at all: nothing is visible.
  lemma NoGrantSkips(cfg: Config, ch: Channel, start: LSN, tx: Tx)
    ensures Decide(cfg, ch, start, Constant(None, |tx.changes|), tx) == Skip
  {
  }

  ghost predicate Ordered(txs: seq<Tx>, log: seq<Entry>) {
    && (forall k :: 0 <= k < |log| ==> |log[k].ws| == |log[k].tx.changes|)
    && (forall k :: 0 <= k < |log| ==> 0 <= log[k].index < |txs| && txs[log[k].index] == log[k].tx)
    && (forall j, k :: 0 <= j < k < |log| ==> log[j].index < log[k].index)
  }

  ghost predicate Spreads(txs: seq<Tx>, log: seq<Entry>, wss: seq<seq<Option<Whitelist>>>) {
    && |wss| == |txs|
    && (forall j :: 0 <= j < |txs| ==> |wss[j]| == |txs[j].changes|)
    && (forall k :: 0 <= k < |log| && 0 <= log[k].index < |wss| ==> wss[log[k].index] == log[k].ws)
  }

  lemma ScanMore(cfg: Config, ch: Channel, start: LSN, txs: seq<Tx>, wss: seq<seq<Option<Whitelist>>>,
                 ws: seq<Option<Whitelist>>)
    requires txs != [] && |wss| == |txs| - 1 && |ws| == |txs[|txs| - 1].changes|
    requires forall j :: 0 <= j < |wss| ==> |wss[j]| == |txs[j].changes|
    ensures forall j :: 0 <= j < |txs| ==> |(wss + [ws])[j]| == |txs[j].changes|
    ensures var n := |txs| - 1;
      Scan(cfg, ch, start, txs, wss + [ws])
      == Scan(cfg, ch, start, txs[..n], wss) + FrameIn(Decide(cfg, ch, start, ws, txs[n]))
  {
    assert (wss + [ws])[..|wss|] == wss;
  }

  lemma LogShorter(txs: seq<Tx>, log: seq<Entry>)
    requires txs != [] && Ordered(txs, log)
    ensures log != [] && log[|log| - 1].index == |txs| - 1 ==> Ordered(txs[..|txs| - 1], log[..|log| - 1])
    ensures !(log != [] && log[|log| - 1].index == |txs| - 1) ==> Ordered(txs[..|txs| - 1], log)
  {
  }

  lemma SpreadsMore(txs: seq<Tx>, log: seq<Entry>, wss: seq<seq<Option<Whitelist>>>, e: Entry)
    requires txs != [] && log != [] && Ordered(txs, log) && e == log[|log| - 1] && e.index == |txs| - 1
    requires Spreads(txs[..|txs| - 1], log[..|log| - 1], wss)
    ensures Spreads(txs, log, wss + [e.ws])
  {
  }

  // The wss explain the dispatches of the log.
  ghost predicate Explains(cfg: Config, ch: Channel, start: LSN, txs: seq<Tx>, log: seq<Entry>,
                           wss: seq<seq<Option<Whitelist>>>)
  {
    Spreads(txs, log, wss) && Produced(EnvOf(cfg), ch, start, log) == Scan(cfg, ch, start, txs, wss)
  }

  lemma ExplainsDispatch(cfg: Config, ch: Channel, start: LSN, txs: seq<Tx>, log: seq<Entry>,
                         wss: seq<seq<Option<Whitelist>>>)
    requires txs != [] && log != [] && Ordered(txs, log) && log[|log| - 1].index == |txs| - 1
    requires Explains(cfg, ch, start, txs[..|txs| - 1], log[..|log| - 1], wss)
    ensures Explains(cfg, ch, start, txs, log, wss + [log[|log| - 1].ws])
  {
    var e := log[|log| - 1];
    ScanMore(cfg, ch, start, txs, wss, e.ws);
    SpreadsMore(txs, log, wss, e);
  }

  lemma ExplainsNone(cfg: Config, ch: Channel, start: LSN, txs: seq<Tx>, log: seq<Entry>,
                     wss: seq<seq<Option<Whitelist>>>)
    requires txs != [] && Explains(cfg, ch, start, txs[..|txs| - 1], log, wss)
    requires Ordered(txs[..|txs| - 1], log)
    ensures Explains(cfg, ch, start, txs, log, wss + [Constant(None, |txs[|txs| - 1].changes|)])
  {
    var n := |txs| - 1;
    var none := Constant(None, |txs[n].changes|);
    NoGrantSkips(cfg, ch, start, txs[n]);
    ScanMore(cfg, ch, start, txs, wss, none);
    assert Scan(cfg, ch, start, txs[..n], wss) + [] == Scan(cfg, ch, start, txs[..n], wss);
  }

  // The frames of the dispatches are the frames of a scan of all transactions, those
  // not dispatched counting as seen under no grant.
  lemma {:induction false} LogIsScan(cfg: Config, ch: Channel, start: LSN, txs: seq<Tx>, log: seq<Entry>)
    returns (wss: seq<seq<Option<Whitelist>>>)
    requires Ordered(txs, log)
    ensures Explains(cfg, ch, start, txs, log, wss)
    decreases |txs|
  {
    if txs == [] {
      wss := [];
    } else {
      var n := |txs| - 1;
      LogShorter(txs, log);
      if log != [] && log[|log| - 1].index == n {
        wss := LogIsScan(cfg, ch, start, txs[..n], log[..|log| - 1]);
        ExplainsDispatch(cfg, ch, start, txs, log, wss);
        wss := wss + [log[|log| - 1].ws];
      } else {
        wss := LogIsScan(cfg, ch, start, txs[..n], log);
        ExplainsNone(cfg, ch, start, txs, log, wss);
        wss := wss + [Constant(None, |txs[n].changes|)];
      }
    }
  }

  // The transactions the router has finished with, or is about to dispatch to id.
  function Finished(s: State, id: SubId): int {
    Due(TurnOf(s.pc, id), s.taken)
  }

  // Under whatever grants, the transaction means nothing to the subscriber.
  ghost predicate Meaningless(cfg: Config, ch: Channel, start: LSN, tx: Tx) {
    forall ws: seq<Option<Whitelist>> :: |ws| == |tx.changes| ==> Decide(cfg, ch, start, ws, tx) == Skip
  }

  lemma UneligibleIsMeaningless(cfg: Config, ch: Channel, start: LSN, tx: Tx)
    requires !Eligible(EnvOf(cfg), ch, tx)
    ensures Meaningless(cfg, ch, start, tx)
  {
    forall c | c in tx.changes
      ensures !KeyMatches(ch, c)
    {
      assert !EnvOf(cfg).finds(ch, c);
    }
    forall ws: seq<Option<Whitelist>> | |ws| == |tx.changes|
      ensures Decide(cfg, ch, start, ws, tx) == Skip
    {
      UnmatchedIsSkipped(cfg, ch, start, ws, tx);
    }
  }

  // Transaction j was dispatched under the grants wss says, or means nothing.
  ghost predicate Accounted(cfg: Config, s: State, sub: Sub, wss: seq<seq<Option<Whitelist>>>, j: int)
    requires 0 <= j < |s.committed| && j < |wss|
  {
    || (exists k :: 0 <= k < |sub.log| && sub.log[k].index == j && sub.log[k].ws == wss[j])
    || Meaningless(cfg, sub.channel, sub.startLSN, s.committed[j])
  }

  lemma AccountedFor(cfg: Config, s: State, id: SubId, wss: seq<seq<Option<Whitelist>>>, j: nat)
    requires id in s.subs && j < Finished(s, id) <= |s.committed|
    requires Settled(EnvOf(cfg), s.committed, s.subs[id].channel, s.subs[id].log, j)
    requires Spreads(s.committed[..Finished(s, id)], s.subs[id].log, wss)
    ensures Accounted(cfg, s, s.subs[id], wss, j)
  {
    var sub := s.subs[id];
    if Logged(sub.log, j) {
      var k :| 0 <= k < |sub.log| && sub.log[k].index == j;
      assert wss[sub.log[k].index] == sub.log[k].ws;
    } else {
      UneligibleIsMeaningless(cfg, sub.channel, sub.startLSN, s.committed[j]);
    }
  }

  // How far a subscriber's frames reach: to its last dispatch, and until it is dropped
  // to everything the router has finished with.
  ghost function Reach(s: State, id: SubId): int
    requires id in s.subs
  {
    var sub := s.subs[id];
    if sub.registered && !sub.done then Finished(s, id)
    else if sub.log == [] then sub.regAt
    else sub.log[|sub.log| - 1].index + 1
  }

  lemma LogIsOrdered(env: Env, s: State, id: SubId)
    requires Inv(env, s) && id in s.subs
    ensures 0 <= Finished(s, id) <= |s.committed| && Ordered(s.committed[..Finished(s, id)], s.subs[id].log)
    ensures Reach(s, id) <= Finished(s, id) || Reach(s, id) <= s.subs[id].regAt
  {
    SubAt(env, s, id);
  }

  lemma SettledWithinReach(env: Env, s: State, id: SubId, j: nat)
    requires Inv(env, s) && id in s.subs && s.subs[id].regAt <= j < Reach(s, id)
    ensures j < Finished(s, id) && Settled(env, s.committed, s.subs[id].channel, s.subs[id].log, j)
  {
    var sub := s.subs[id];
    SubAt(env, s, id);
    if !(sub.registered && !sub.done) {
      var k := |sub.log| - 1;
      assert Filled(env, s.committed, sub.channel, sub.log, sub.regAt, sub.log[k].index);
      assert j == sub.log[k].index ==> Logged(sub.log, j);
    }
  }

  // The scan, and where its frames are.
  lemma FramesAreTheScan(cfg: Config, s: State, id: SubId) returns (wss: seq<seq<Option<Whitelist>>>)
    requires Inv(EnvOf(cfg), s) && id in s.subs
    ensures var sub, n := s.subs[id], Finished(s, id);
      && 0 <= n <= |s.committed| && Spreads(s.committed[..n], sub.log, wss)
      && (var scan := Scan(cfg, sub.channel, sub.startLSN, s.committed[..n], wss);
          && Written(sub.out) <= scan
          && (!sub.done ==> scan == Written(sub.out) + sub.loop.Held() + sub.queue + InHand(TurnOf(s.pc, id))))
  {
    var sub, n := s.subs[id], Finished(s, id);
    LogIsOrdered(EnvOf(cfg), s, id);
    wss := LogIsScan(cfg, sub.channel, sub.startLSN, s.committed[..n], sub.log);
    SubAt(EnvOf(cfg), s, id);
    assert Conserved(EnvOf(cfg), InHand(TurnOf(s.pc, id)), sub);
    if !sub.done {
      Nothing(Written(sub.out), sub.loop.Held(), sub.queue, InHand(TurnOf(s.pc, id)));
    }
  }

  lemma AllAccounted(cfg: Config, s: State, id: SubId, wss: seq<seq<Option<Whitelist>>>)
    requires Inv(EnvOf(cfg), s) && id in s.subs
    requires 0 <= Finished(s, id) <= |s.committed| && Spreads(s.committed[..Finished(s, id)], s.subs[id].log, wss)
    ensures Reach(s, id) <= Finished(s, id) || Reach(s, id) <= s.subs[id].regAt
    ensures forall j :: s.subs[id].regAt <= j < Reach(s, id) ==> Accounted(cfg, s, s.subs[id], wss, j)
  {
    LogIsOrdered(EnvOf(cfg), s, id);
    forall j | s.subs[id].regAt <= j < Reach(s, id)
      ensures Accounted(cfg, s, s.subs[id], wss, j)
    {
      SettledWithinReach(EnvOf(cfg), s, id, j);
      AccountedFor(cfg, s, id, wss, j);
    }
  }

  /** Atomic, ordered, nothing twice, no hole, end to end: in every interleaving, the
      frames written to a client are a prefix of the scan of all committed
      transactions; until it is dropped, what is written, held, queued and in the
      router's hand is the whole scan. Every transaction from Register to the last
      dispatch, and until the drop to the last one finished with, either was dispatched
      under the grants shown or means nothing under any grant. */
  lemma ClientGetsTheScan(cfg: Config, steps: seq<Step>, id: SubId) returns (wss: seq<seq<Option<Whitelist>>>)
    requires Run(EnvOf(cfg), steps).Some? && id in Run(EnvOf(cfg), steps).value.subs
    ensures var s := Run(EnvOf(cfg), steps).value;
      var sub, n := s.subs[id], Finished(s, id);
      && 0 <= n <= |s.committed| && Spreads(s.committed[..n], sub.log, wss)
      && (var scan := Scan(cfg, sub.channel, sub.startLSN, s.committed[..n], wss);
          && Written(sub.out) <= scan
          && (!sub.done ==> scan == Written(sub.out) + sub.loop.Held() + sub.queue + InHand(TurnOf(s.pc, id))))
      && (Reach(s, id) <= n || Reach(s, id) <= sub.regAt)
      && (forall j :: sub.regAt <= j < Reach(s, id) ==> Accounted(cfg, s, sub, wss, j))
  {
    var s := Run(EnvOf(cfg), steps).value;
    RunInv(EnvOf(cfg), steps);
    wss := FramesAreTheScan(cfg, s, id);
    AllAccounted(cfg, s, id, wss);
  }

  lemma Nothing(written: seq<string>, held: seq<string>, queue: seq<string>, hand: seq<string>)
    ensures written + [] + held + queue + [] + hand == written + held + queue + hand
  {
    assert written + [] == written;
    assert written + held + queue + [] == written + held + queue;
  }

  // ----- The cutoff -----

  // What dispatches without a frame contribute.
  lemma {:induction false} ProducedBeyond(env: Env, ch: Channel, start: LSN, log: seq<Entry>, m: nat)
    requires m <= |log| && forall k :: 0 <= k < m ==> FramesOf(env, ch, start, log[k]) == []
    ensures Produced(env, ch, start, log) == Produced(env, ch, start, log[m..])
  {
    if log != [] {
      var n := |log| - 1;
      if m <= n {
        ProducedBeyond(env, ch, start, log[..n], m);
        assert log[m..][..n - m] == log[..n][m..];
      } else {
        ProducedBeyond(env, ch, start, log[..n], n);
        assert log[..n][n..] == [] && log[m..] == [];
      }
    }
  }

  // The first dispatch of a transaction not among the first cut.
  lemma {:induction false} FirstBeyond(log: seq<Entry>, cut: nat) returns (m: nat)
    requires forall j, k :: 0 <= j < k < |log| ==> log[j].index < log[k].index
    ensures m <= |log| && forall k :: 0 <= k < |log| ==> (k < m <==> log[k].index < cut)
  {
    if log == [] || log[|log| - 1].index < cut {
      m := |log|;
    } else {
      m := FirstBeyond(log[..|log| - 1], cut);
      assert forall k :: 0 <= k < |log| - 1 ==> log[..|log| - 1][k] == log[k];
    }
  }

  /** The cutoff, end to end: all that a client without since_lsn is ever written are
      frames of transactions recorded after its handshake read the position: they are a
      prefix of what the dispatches of those produced. */
  lemma ClientStartCutoff(cfg: Config, before: seq<Step>, id: SubId, channel: Channel, cap: nat, after: seq<Step>)
    returns (m: nat)
    requires Run(EnvOf(cfg), before + [Handshake(id, channel, None, cap)] + after).Some?
    ensures Run(EnvOf(cfg), before).Some?
    ensures id in Run(EnvOf(cfg), before + [Handshake(id, channel, None, cap)] + after).value.subs
    ensures var sub := Run(EnvOf(cfg), before + [Handshake(id, channel, None, cap)] + after).value.subs[id];
      && m <= |sub.log|
      && (forall k :: 0 <= k < |sub.log| ==>
            (k < m <==> sub.log[k].index < |Run(EnvOf(cfg), before).value.committed|))
      && Written(sub.out) <= Produced(EnvOf(cfg), sub.channel, sub.startLSN, sub.log[m..])
  {
    var env, steps := EnvOf(cfg), before + [Handshake(id, channel, None, cap)] + after;
    DeliveryTheorems.HandshakeStays(env, before, id, channel, cap, after);
    DeliveryTheorems.FramesAreConserved(env, steps, id);
    var sub, cut := Run(env, steps).value.subs[id], |Run(env, before).value.committed|;
    m := FirstBeyond(sub.log, cut);
    RouterRespectsStart(cfg);
    forall k: nat | k < m
      ensures FramesOf(env, sub.channel, sub.startLSN, sub.log[k]) == []
    {
      DeliveryTheorems.StartCutoff(env, before, id, channel, cap, after, k);
    }
    ProducedBeyond(env, sub.channel, sub.startLSN, sub.log, m);
  }

  // ----- On the wire -----

  ghost predicate Encodes(cfg: Config, codec: Framing.Codec, maxPayloadBytes: int) {
    forall ev :: cfg.encode(ev) == Framing.Encoded(codec, maxPayloadBytes, ev)
  }

  // encoding/json writes on one line.
  ghost predicate Compact(codec: Framing.Codec) {
    && (forall raw :: codec.compact(raw).Some? ==> EventStream.OneLine(codec.compact(raw).value))
    && (forall e :: codec.marshal(e).Some? ==> EventStream.OneLine(codec.marshal(e).value))
    && (forall s :: codec.quote(s).Some? ==> EventStream.OneLine(codec.quote(s).value))
  }

  // The event of exactly the kept changes.
  function PayloadOfKept(codec: Framing.Codec, tx: Tx, kept: seq<Change>): string {
    match codec.marshal(Framing.TxEvent(tx.id, tx.commitTS, Framing.MkChangeEvents(kept)))
    case Some(text) => text
    case None => Framing.FALLBACK_PAYLOAD
  }

  /** A frame is one event block for the kept changes, all of them and nothing else. */
  lemma FrameText(cfg: Config, codec: Framing.Codec, maxPayloadBytes: int, ch: Channel, start: LSN,
                  ws: seq<Option<Whitelist>>, tx: Tx)
    requires Encodes(cfg, codec, maxPayloadBytes) && |ws| == |tx.changes|
    requires Decide(cfg, ch, start, ws, tx).Frame?
    ensures var f := Decide(cfg, ch, start, ws, tx);
      f.text == Framing.Bytes(Framing.TxFrame(tx.id, PayloadOfKept(codec, tx, f.kept)))
  {
    var kept := Survivors(ch, ws, tx.changes);
    Framing.PicksUpTo(kept, |kept|);
    assert kept[..|kept|] == kept;
    var ev := Event(tx.(changes := kept), seq(|kept|, i => i));
    assert cfg.encode(ev) == Framing.Encoded(codec, maxPayloadBytes, ev);
  }

  ghost predicate IsTxBlock(text: string) {
    exists id: nat, payload :: TxBlock(text, id, payload)
  }

  ghost predicate TxBlock(text: string, id: nat, payload: string) {
    EventStream.OneLine(payload) && text == Framing.Bytes(Framing.TxFrame(id, payload))
  }

  lemma FallbackIsOneLine()
    ensures EventStream.OneLine(Framing.FALLBACK_PAYLOAD)
  {
  }

  lemma {:induction false} ProducedAreBlocks(cfg: Config, codec: Framing.Codec, maxPayloadBytes: int, ch: Channel,
                                             start: LSN, log: seq<Entry>)
    requires Encodes(cfg, codec, maxPayloadBytes) && Compact(codec)
    ensures forall text :: text in Produced(EnvOf(cfg), ch, start, log) ==> IsTxBlock(text)
  {
    if log != [] {
      var n := |log| - 1;
      ProducedAreBlocks(cfg, codec, maxPayloadBytes, ch, start, log[..n]);
      var e := log[n];
      if |e.ws| == |e.tx.changes| && Decide(cfg, ch, start, e.ws, e.tx).Frame? {
        FrameText(cfg, codec, maxPayloadBytes, ch, start, e.ws, e.tx);
        FallbackIsOneLine();
        var kept := Decide(cfg, ch, start, e.ws, e.tx).kept;
        assert TxBlock(Decide(cfg, ch, start, e.ws, e.tx).text, e.tx.id, PayloadOfKept(codec, e.tx, kept));
      }
    }
  }

  function ReasonJSON(codec: Framing.Codec, reason: string): string {
    match codec.quote(reason) case Some(text) => text case None => "\"unknown\""
  }

  // The block each output puts on the wire.
  ghost predicate Renders(codec: Framing.Codec, o: Output, f: Framing.SseFrame) {
    match o
    case Prelude => f == Framing.PreludeFrame
    case Heartbeat => f == Framing.HeartbeatFrame
    case Initial(text) => f.InitialDataFrame? && text == Framing.Bytes(f)
    case TxFrame(text) => f.TxFrame? && text == Framing.Bytes(f)
    case Terminal(reason) =>
      f == if reason == "shutdown" then Framing.ShutdownFrame else Framing.ErrorFrame(ReasonJSON(codec, reason))
  }

  // What EncodeInitialData yields.
  ghost predicate IsInitialBlock(codec: Framing.Codec, text: string) {
    exists raw :: InitialBlockOf(codec, raw, text)
  }

  ghost predicate InitialBlockOf(codec: Framing.Codec, raw: string, text: string) {
    codec.compact(raw).Some? && text == Framing.Bytes(Framing.InitialDataFrame(codec.compact(raw).value))
  }

  ghost function InitialBlocks(codec: Framing.Codec): DeliveryTheorems.IsInitial {
    (text: string) => IsInitialBlock(codec, text)
  }

  lemma RenderOne(codec: Framing.Codec, o: Output) returns (f: Framing.SseFrame)
    requires Compact(codec)
    requires o.TxFrame? ==> IsTxBlock(o.text)
    requires o.Initial? ==> IsInitialBlock(codec, o.text)
    ensures Renders(codec, o, f) && EventStream.Writable(f)
  {
    match o
    case Prelude => f := Framing.PreludeFrame;
    case Heartbeat => f := Framing.HeartbeatFrame;
    case Initial(text) =>
      var raw :| InitialBlockOf(codec, raw, text);
      f := Framing.InitialDataFrame(codec.compact(raw).value);
    case TxFrame(text) =>
      var id: nat, payload :| TxBlock(text, id, payload);
      f := Framing.TxFrame(id, payload);
    case Terminal(reason) =>
      f := if reason == "shutdown" then Framing.ShutdownFrame else Framing.ErrorFrame(ReasonJSON(codec, reason));
  }

  lemma {:induction false} RenderAll(codec: Framing.Codec, out: seq<Output>) returns (frames: seq<Framing.SseFrame>)
    requires Compact(codec)
    requires forall i :: 0 <= i < |out| && out[i].TxFrame? ==> IsTxBlock(out[i].text)
    requires forall i :: 0 <= i < |out| && out[i].Initial? ==> IsInitialBlock(codec, out[i].text)
    ensures |frames| == |out|
    ensures forall i :: 0 <= i < |out| ==> Renders(codec, out[i], frames[i]) && EventStream.Writable(frames[i])
  {
    frames := [];
    if out != [] {
      var n := |out| - 1;
      frames := RenderAll(codec, out[..n]);
      var f := RenderOne(codec, out[n]);
      frames := frames + [f];
    }
  }

  lemma {:induction false} WrittenHolds(out: seq<Output>, i: nat)
    requires i < |out| && out[i].TxFrame?
    ensures out[i].text in Written(out)
  {
    if i < |out| - 1 {
      WrittenHolds(out[..|out| - 1], i);
    }
  }

  /** What the client reads: given at Register what EncodeInitialData yields, the output
      of any run is a series of event blocks, and an event source reading them gets
      exactly their messages, in order. */
  lemma ClientReadsTheOutput(cfg: Config, codec: Framing.Codec, maxPayloadBytes: int, steps: seq<Step>, id: SubId)
    returns (frames: seq<Framing.SseFrame>)
    requires Encodes(cfg, codec, maxPayloadBytes) && Compact(codec)
    requires Run(EnvOf(cfg), steps).Some? && id in Run(EnvOf(cfg), steps).value.subs
    requires DeliveryTheorems.RegistersMeet(steps, id, InitialBlocks(codec))
    ensures var out := Run(EnvOf(cfg), steps).value.subs[id].out;
      && |frames| == |out|
      && (forall i :: 0 <= i < |out| ==> Renders(codec, out[i], frames[i]))
      && EventStream.Interpret(EventStream.Wire(frames)).out == EventStream.Messages("", frames)
  {
    var sub := Run(EnvOf(cfg), steps).value.subs[id];
    DeliveryTheorems.FramesAreConserved(EnvOf(cfg), steps, id);
    ProducedAreBlocks(cfg, codec, maxPayloadBytes, sub.channel, sub.startLSN, sub.log);
    forall i | 0 <= i < |sub.out| && sub.out[i].TxFrame?
      ensures IsTxBlock(sub.out[i].text)
    {
      WrittenHolds(sub.out, i);
      assert sub.out[i].text in Produced(EnvOf(cfg), sub.channel, sub.startLSN, sub.log);
    }
    DeliveryTheorems.InitialsFromRegister(EnvOf(cfg), steps, id, InitialBlocks(codec));
    forall i | 0 <= i < |sub.out| && sub.out[i].Initial?
      ensures IsInitialBlock(codec, sub.out[i].text)
    {
      assert DeliveryTheorems.OutputMeets(sub.out[i], InitialBlocks(codec));
    }
    frames := RenderAll(codec, sub.out);
    EventStream.RoundTrip(frames);
  }
}
