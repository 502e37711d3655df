/** The encoder of server-sent events (internal/sse/encoder.go, internal/sse/stream.go:31)
    against a reader written from sections 9.2.5 and 9.2.6 of the WHATWG HTML Living
    Standard. */
module Framing {
  import opened WalTypes
  import opened Whitelists
  import opened Routing
  import ArrayLiteral

  // ----- Events -----

  datatype ChangeEvent = ChangeEvent(op: Op, table: string, pk: string, data: Option<Columns>)

  datatype TxEvent = TxEvent(txID: nat, commitTS: int, changes: seq<ChangeEvent>)

  function MkChangeEvent(c: Change): ChangeEvent {
    ChangeEvent(c.op, c.table, c.pk, if c.data.Some? then c.data else c.changed)
  }

  function MkChangeEvents(changes: seq<Change>): seq<ChangeEvent> {
    seq(|changes|, i requires 0 <= i < |changes| => MkChangeEvent(changes[i]))
  }

  // The matched changes in the order given, indices out of range left out.
  function Picks(changes: seq<Change>, matched: seq<int>): seq<ChangeEvent> {
    if matched == [] then []
    else
      var last := matched[|matched| - 1];
      Picks(changes, matched[..|matched| - 1]) + if 0 <= last < |changes| then [MkChangeEvent(changes[last])] else []
  }

  method TxToEvent(tx: Tx, matched: Option<seq<int>>) returns (e: TxEvent)
    ensures e == TxEvent(tx.id, tx.commitTS,
                         if matched.None? then MkChangeEvents(tx.changes) else Picks(tx.changes, matched.value))
  {
    var changes: seq<ChangeEvent> := [];
    if matched.None? {
      for n := 0 to |tx.changes|
        invariant changes == MkChangeEvents(tx.changes[..n])
      {
        changes := changes + [MkChangeEvent(tx.changes[n])];
      }
      assert tx.changes[..|tx.changes|] == tx.changes;
    } else {
      var picks := matched.value;
      for n := 0 to |picks|
        invariant changes == Picks(tx.changes, picks[..n])
      {
        assert picks[..n + 1][..n] == picks[..n];
        var idx := picks[n];
        if idx < 0 || idx >= |tx.changes| {
          continue;
        }
        changes := changes + [MkChangeEvent(tx.changes[idx])];
      }
      assert picks[..|picks|] == picks;
    }
    e := TxEvent(tx.id, tx.commitTS, changes);
  }

  lemma {:induction false} PicksUpTo(changes: seq<Change>, n: nat)
    requires n <= |changes|
    ensures Picks(changes, seq(n, i => i)) == MkChangeEvents(changes[..n])
  {
    if n > 0 {
      PicksUpTo(changes, n - 1);
      var all: seq<int> := seq(n, i => i);
      assert all[..n - 1] == seq(n - 1, i => i);
      assert changes[..n][..n - 1] == changes[..n - 1];
    }
  }

  /** The index list the router builds picks every filtered change once, in order,
      and the event shows of each what its filtered form shows. */
  lemma RouterIndicesPickAll(changes: seq<Change>)
    ensures var events := Picks(changes, seq(|changes|, i => i));
      && |events| == |changes|
      && forall i :: 0 <= i < |changes| ==>
           && (events[i].op, events[i].table, events[i].pk) == (changes[i].op, changes[i].table, changes[i].pk)
           && Entries(events[i].data) == Shown(changes[i])
  {
    PicksUpTo(changes, |changes|);
    assert changes[..|changes|] == changes;
  }

  // ----- Frames -----

  datatype SseFrame =
    | PreludeFrame
    | InitialDataFrame(payload: string)
    | TxFrame(id: nat, payload: string)
    | ErrorFrame(reasonJSON: string)
    | ShutdownFrame
    | HeartbeatFrame

  const SERVICE_RESTART := "{\"reason\":\"service_restart\"}"

  function Decimal(n: nat): (s: string)
    ensures s != "" && forall i :: 0 <= i < |s| ==> '0' <= s[i] <= '9'
  {
    (if n < 10 then "" else Decimal(n / 10)) + [('0' as int + n % 10) as char]
  }

  function NumberOf(s: string): int {
    if s == "" then 0 else 10 * NumberOf(s[..|s| - 1]) + (s[|s| - 1] as int - '0' as int)
  }

  /** The id line holds the number itself, without leading zeros. */
  lemma {:induction false} DecimalIsNumber(n: nat)
    ensures NumberOf(Decimal(n)) == n && (n > 0 ==> Decimal(n)[0] != '0')
  {
    var last := ('0' as int + n % 10) as char;
    if n < 10 {
      assert Decimal(n) == [last] && Decimal(n)[..0] == "";
    } else {
      DecimalIsNumber(n / 10);
      assert Decimal(n) == Decimal(n / 10) + [last];
      assert Decimal(n)[..|Decimal(n)| - 1] == Decimal(n / 10);
    }
  }

  function Field(name: string, value: string): string {
    name + ": " + value
  }

  function Lines(f: SseFrame): seq<string> {
    match f
    case PreludeFrame => [Field("retry", "15000")]
    case InitialDataFrame(payload) => [Field("event", "initial_data"), Field("data", payload)]
    case TxFrame(id, payload) => [Field("event", "tx"), Field("id", Decimal(id)), Field("data", payload)]
    case ErrorFrame(reasonJSON) => [Field("event", "error"), Field("data", "{\"reason\":" + reasonJSON + "}")]
    case ShutdownFrame => [Field("event", "shutdown"), Field("data", SERVICE_RESTART)]
    case HeartbeatFrame => [":"]
  }

  function Joined(lines: seq<string>): string {
    if lines == [] then "" else lines[0] + "\n" + Joined(lines[1..])
  }

  // An event block: its lines, and the blank line that ends it.
  function Bytes(f: SseFrame): string {
    Joined(Lines(f)) + "\n"
  }

  // ----- The encoder -----

  // encoding/json; size is the length in bytes.
  datatype Codec = Codec(
    marshal: TxEvent -> Option<string>,
    quote: string -> Option<string>,
    compact: string -> Option<string>,
    size: string -> nat)

  class Encoder {
    const maxPayloadBytes: int
    const codec: Codec

    constructor (maxPayloadBytes: int, codec: Codec)
      ensures this.maxPayloadBytes == maxPayloadBytes && this.codec == codec
    {
      this.maxPayloadBytes, this.codec := maxPayloadBytes, codec;
    }

    predicate Overflows(text: string) {
      maxPayloadBytes > 0 && codec.size(text) > maxPayloadBytes
    }

    // None when the frame exceeds the payload limit.
    method Encode(ev: Event) returns (frame: Option<string>)
      ensures var event := TxEvent(ev.tx.id, ev.tx.commitTS, Picks(ev.tx.changes, ev.matchedIndices));
        var marshaled := codec.marshal(event);
        var payload := if marshaled.Some? then marshaled.value else "{\"tx_id\":0,\"commit_ts\":\"\",\"changes\":[]}";
        var text := "event: tx\n" + "id: " + Decimal(ev.tx.id) + "\ndata: " + payload + "\n\n";
        frame == if maxPayloadBytes > 0 && codec.size(text) > maxPayloadBytes then None else Some(text)
      ensures frame == Encoded(codec, maxPayloadBytes, ev)
    {
      var buf := "event: tx\n";
      buf := buf + "id: ";
      buf := buf + Decimal(ev.tx.id);
      buf := buf + "\ndata: ";
      var event := TxToEvent(ev.tx, Some(ev.matchedIndices));
      var marshaled := codec.marshal(event);
      var payload := if marshaled.Some? then marshaled.value else FALLBACK_PAYLOAD;
      buf := buf + payload;
      buf := buf + "\n\n";
      TxBytes(ev.tx.id, payload);
      if maxPayloadBytes > 0 && codec.size(buf) > maxPayloadBytes {
        return None;
      }
      frame := Some(buf);
    }

    method EncodeError(reason: string) returns (frame: string)
      ensures var quoted := codec.quote(reason);
        frame == "event: error\ndata: {\"reason\":" + (if quoted.Some? then quoted.value else "\"unknown\"") + "}\n\n"
      ensures frame == Bytes(ErrorFrame(
                match codec.quote(reason) case Some(text) => text case None => "\"unknown\""))
    {
      var quoted := codec.quote(reason);
      var reasonJSON := if quoted.Some? then quoted.value else "\"unknown\"";
      frame := "event: error\ndata: {\"reason\":";
      frame := frame + reasonJSON;
      frame := frame + "}\n\n";
      ErrorBytes(reasonJSON);
    }

    // No frame for an absent or null payload, an invalid one, or one over the limit.
    method EncodeInitialData(raw: string) returns (frame: Option<string>, overflow: bool)
      ensures frame.Some? <==>
                && raw != "" && ArrayLiteral.Trim(raw) != "null" && codec.compact(raw).Some?
                && !Overflows(Bytes(InitialDataFrame(codec.compact(raw).value)))
      ensures frame.Some? ==> frame.value == Bytes(InitialDataFrame(codec.compact(raw).value))
      ensures frame.Some? ==>
                && frame.value == "event: initial_data\ndata: " + codec.compact(raw).value + "\n\n"
                && (maxPayloadBytes > 0 ==> codec.size(frame.value) <= maxPayloadBytes)
      ensures overflow ==>
                && maxPayloadBytes > 0 && codec.compact(raw).Some?
                && codec.size("event: initial_data\ndata: " + codec.compact(raw).value + "\n\n") > maxPayloadBytes
      ensures overflow <==>
                && raw != "" && ArrayLiteral.Trim(raw) != "null" && codec.compact(raw).Some?
                && Overflows(Bytes(InitialDataFrame(codec.compact(raw).value)))
    {
      if |raw| == 0 {
        return None, false;
      }
      if ArrayLiteral.Trim(raw) == "null" {
        return None, false;
      }
      var buf := "event: initial_data\ndata: ";
      var compacted := codec.compact(raw);
      if compacted.None? {
        return None, false;
      }
      buf := buf + compacted.value;
      buf := buf + "\n\n";
      InitialDataBytes(compacted.value);
      if maxPayloadBytes > 0 && codec.size(buf) > maxPayloadBytes {
        return None, true;
      }
      return Some(buf), false;
    }

    method EncodeHeartbeat() returns (frame: string)
      ensures frame == Bytes(HeartbeatFrame) == ":\n\n"
    {
      frame := ":\n\n";
      assert Joined([":"]) == ":\n";
    }

    method EncodeShutdown() returns (frame: string)
      ensures frame == Bytes(ShutdownFrame)
      ensures frame == "event: shutdown\ndata: " + "{\"reason\":\"service_restart\"}" + "\n\n"
    {
      frame := SHUTDOWN_BYTES;
      ShutdownBytes();
    }
  }

  const SHUTDOWN_BYTES := "event: shutdown\ndata: " + SERVICE_RESTART + "\n\n"

  const FALLBACK_PAYLOAD := "{\"tx_id\":0,\"commit_ts\":\"\",\"changes\":[]}"

  function Payload(codec: Codec, ev: Event): string {
    match codec.marshal(TxEvent(ev.tx.id, ev.tx.commitTS, Picks(ev.tx.changes, ev.matchedIndices)))
    case Some(text) => text
    case None => FALLBACK_PAYLOAD
  }

  function Encoded(codec: Codec, maxPayloadBytes: int, ev: Event): Option<string> {
    var text := Bytes(TxFrame(ev.tx.id, Payload(codec, ev)));
    if maxPayloadBytes > 0 && codec.size(text) > maxPayloadBytes then None else Some(text)
  }

  lemma TwoLines(a: string, b: string)
    ensures Joined([a, b]) == a + "\n" + b + "\n"
  {
    assert Joined([b]) == b + "\n" + "";
    assert [a, b][1..] == [b];
  }

  lemma TxBytes(id: nat, payload: string)
    ensures Bytes(TxFrame(id, payload)) == "event: tx\n" + "id: " + Decimal(id) + "\ndata: " + payload + "\n\n"
  {
    var first, second, third := Field("event", "tx"), Field("id", Decimal(id)), Field("data", payload);
    TwoLines(second, third);
    assert [first, second, third][1..] == [second, third];
    assert first + "\n" == "event: tx\n";
  }

  lemma EventBytes(name: string, data: string)
    ensures Joined([Field("event", name), Field("data", data)]) + "\n"
         == "event: " + name + "\ndata: " + data + "\n\n"
  {
    TwoLines(Field("event", name), Field("data", data));
  }

  lemma ErrorBytes(reasonJSON: string)
    ensures Bytes(ErrorFrame(reasonJSON)) == "event: error\ndata: {\"reason\":" + reasonJSON + "}\n\n"
  {
    EventBytes("error", "{\"reason\":" + reasonJSON + "}");
    assert "event: " + "error" + "\ndata: " + "{\"reason\":" == "event: error\ndata: {\"reason\":";
  }

  lemma InitialDataBytes(payload: string)
    ensures Bytes(InitialDataFrame(payload)) == "event: initial_data\ndata: " + payload + "\n\n"
  {
    EventBytes("initial_data", payload);
    assert "event: " + "initial_data" + "\ndata: " == "event: initial_data\ndata: ";
  }

  lemma ShutdownBytes()
    ensures Bytes(ShutdownFrame) == SHUTDOWN_BYTES
  {
    EventBytes("shutdown", SERVICE_RESTART);
    assert "event: " + "shutdown" + "\ndata: " == "event: shutdown\ndata: ";
  }

  lemma PreludeBytes()
    ensures Bytes(PreludeFrame) == "retry: 15000\n\n"
  {
    assert Joined([Field("retry", "15000")]) == Field("retry", "15000") + "\n" + "";
  }
}
