/** What a client's event source makes of the written frames: a reader of event
    streams as sections 9.2.5 and 9.2.6 of the WHATWG HTML Living Standard define it,
    and the round trip through it. */
module EventStream {
  import opened WalTypes
  import opened Framing

  // ----- The reader -----

  datatype Message = Message(kind: string, data: string, lastEventId: string)

  // The buffers of section 9.2.6, the reconnection time, and the dispatched messages.
  datatype Source = Source(kind: string, data: string, id: string, retry: Option<string>, out: seq<Message>)

  const NewSource := Source("", "", "", None, [])

  predicate LineEnds(c: char) {
    c == '\n' || c == '\r'
  }

  function LineEnd(s: string): (k: nat)
    ensures k <= |s|
    ensures k < |s| ==> LineEnds(s[k])
    ensures forall i :: 0 <= i < k ==> !LineEnds(s[i])
  {
    if s == "" || LineEnds(s[0]) then 0 else 1 + LineEnd(s[1..])
  }

  function PastLineEnd(s: string): (r: string)
    requires s != ""
    ensures |r| < |s|
  {
    if s[0] == '\r' && |s| > 1 && s[1] == '\n' then s[2..] else s[1..]
  }

  function Colon(s: string): (k: nat)
    ensures k <= |s|
    ensures k < |s| ==> s[k] == ':'
    ensures forall i :: 0 <= i < k ==> s[i] != ':'
  {
    if s == "" || s[0] == ':' then 0 else 1 + Colon(s[1..])
  }

  predicate Digits(s: string) {
    s != "" && forall i :: 0 <= i < |s| ==> '0' <= s[i] <= '9'
  }

  function ProcessField(r: Source, name: string, value: string): Source {
    if name == "event" then r.(kind := value)
    else if name == "data" then r.(data := r.data + value + "\n")
    else if name == "id" then (if '\0' in value then r else r.(id := value))
    else if name == "retry" then (if Digits(value) then r.(retry := Some(value)) else r)
    else r
  }

  function Dispatch(r: Source): Source {
    if r.data == "" then r.(kind := "")
    else
      var text := if r.data[|r.data| - 1] == '\n' then r.data[..|r.data| - 1] else r.data;
      var kind := if r.kind == "" then "message" else r.kind;
      r.(kind := "", data := "", out := r.out + [Message(kind, text, r.id)])
  }

  function ProcessLine(r: Source, line: string): Source {
    if line == "" then Dispatch(r)
    else if line[0] == ':' then r
    else if Colon(line) == |line| then ProcessField(r, line, "")
    else
      var value := line[Colon(line) + 1..];
      ProcessField(r, line[..Colon(line)], if value != "" && value[0] == ' ' then value[1..] else value)
  }

  // An unfinished line, and an event without its blank line, are discarded.
  function Feed(r: Source, text: string): Source
    decreases |text|
  {
    var k := LineEnd(text);
    if k == |text| then r else Feed(ProcessLine(r, text[..k]), PastLineEnd(text[k..]))
  }

  function Interpret(text: string): Source {
    Feed(NewSource, if text != "" && text[0] == '\U{FEFF}' then text[1..] else text)
  }

  // ----- What the client should get -----

  // Payloads the encoder writes on one line.
  predicate OneLine(s: string) {
    s != "" && forall i :: 0 <= i < |s| ==> !LineEnds(s[i])
  }

  predicate Writable(f: SseFrame) {
    match f
    case InitialDataFrame(payload) => OneLine(payload)
    case TxFrame(_, payload) => OneLine(payload)
    case ErrorFrame(reasonJSON) => OneLine(reasonJSON)
    case _ => true
  }

  // Type and data of the message a frame stands for.
  function Content(f: SseFrame): Option<(string, string)> {
    match f
    case PreludeFrame => None
    case HeartbeatFrame => None
    case InitialDataFrame(payload) => Some(("initial_data", payload))
    case TxFrame(_, payload) => Some(("tx", payload))
    case ErrorFrame(reasonJSON) => Some(("error", "{\"reason\":" + reasonJSON + "}"))
    case ShutdownFrame => Some(("shutdown", SERVICE_RESTART))
  }

  function NextId(id: string, f: SseFrame): string {
    if f.TxFrame? then Decimal(f.id) else id
  }

  // The messages of a list of frames, each tagged with the latest transaction id.
  function Messages(id: string, frames: seq<SseFrame>): seq<Message>
    decreases |frames|
  {
    if frames == [] then []
    else
      var f := frames[0];
      (if Content(f).Some? then [Message(Content(f).value.0, Content(f).value.1, NextId(id, f))] else [])
      + Messages(NextId(id, f), frames[1..])
  }

  function Wire(frames: seq<SseFrame>): string {
    if frames == [] then "" else Bytes(frames[0]) + Wire(frames[1..])
  }

  // ----- Reading lines -----

  lemma {:induction false} LineEndAfter(line: string, rest: string)
    requires forall i :: 0 <= i < |line| ==> !LineEnds(line[i])
    ensures LineEnd(line + "\n" + rest) == |line|
  {
    if line == "" {
      assert line + "\n" + rest == "\n" + rest;
    } else {
      LineEndAfter(line[1..], rest);
      assert (line + "\n" + rest)[1..] == line[1..] + "\n" + rest;
    }
  }

  lemma FeedLine(r: Source, line: string, rest: string)
    requires forall i :: 0 <= i < |line| ==> !LineEnds(line[i])
    ensures Feed(r, line + "\n" + rest) == Feed(ProcessLine(r, line), rest)
  {
    var text := line + "\n" + rest;
    LineEndAfter(line, rest);
    assert text[..|line|] == line && text[|line|..] == "\n" + rest;
    assert ("\n" + rest)[1..] == rest;
  }

  function ProcessLines(r: Source, lines: seq<string>): Source
    decreases |lines|
  {
    if lines == [] then r else ProcessLines(ProcessLine(r, lines[0]), lines[1..])
  }

  ghost predicate Clean(lines: seq<string>) {
    forall i :: 0 <= i < |lines| ==> OneLine(lines[i])
  }

  lemma {:induction false} FeedLines(r: Source, lines: seq<string>, rest: string)
    requires Clean(lines)
    ensures Feed(r, Joined(lines) + rest) == Feed(ProcessLines(r, lines), rest)
    decreases |lines|
  {
    if lines == [] {
      assert Joined(lines) + rest == rest;
    } else {
      assert OneLine(lines[0]);
      JoinedFirst(lines, rest);
      FeedLine(r, lines[0], Joined(lines[1..]) + rest);
      FeedLines(ProcessLine(r, lines[0]), lines[1..], rest);
    }
  }

  lemma JoinedFirst(lines: seq<string>, rest: string)
    requires lines != []
    ensures Joined(lines) + rest == lines[0] + "\n" + (Joined(lines[1..]) + rest)
  {
    Regroup(lines[0] + "\n", Joined(lines[1..]), rest);
  }

  lemma ProcessOne(r: Source, a: string)
    ensures ProcessLines(r, [a]) == ProcessLine(r, a)
  {
    assert [a][1..] == [];
  }

  lemma ProcessTwo(r: Source, a: string, b: string)
    ensures ProcessLines(r, [a, b]) == ProcessLine(ProcessLine(r, a), b)
  {
    assert [a, b][1..] == [b];
    ProcessOne(ProcessLine(r, a), b);
  }

  lemma ProcessThree(r: Source, a: string, b: string, c: string)
    ensures ProcessLines(r, [a, b, c]) == ProcessLine(ProcessLine(ProcessLine(r, a), b), c)
  {
    assert [a, b, c][1..] == [b, c];
    ProcessTwo(ProcessLine(r, a), b, c);
  }

  lemma {:induction false} ColonAfter(name: string, rest: string)
    requires forall i :: 0 <= i < |name| ==> name[i] != ':'
    ensures Colon(name + ":" + rest) == |name|
  {
    if name == "" {
      assert name + ":" + rest == ":" + rest;
    } else {
      ColonAfter(name[1..], rest);
      assert (name + ":" + rest)[1..] == name[1..] + ":" + rest;
    }
  }

  predicate FieldName(name: string) {
    name != "" && forall i :: 0 <= i < |name| ==> name[i] != ':' && !LineEnds(name[i])
  }

  // The one space after the colon is not part of the value.
  lemma ReadField(r: Source, name: string, value: string)
    requires FieldName(name)
    ensures ProcessLine(r, Field(name, value)) == ProcessField(r, name, value)
  {
    var line := Field(name, value);
    ColonAfter(name, " " + value);
    assert line == name + ":" + (" " + value);
    assert line[0] == name[0];
    assert line[..|name|] == name && line[|name| + 1..] == " " + value;
    assert (" " + value)[1..] == value;
  }

  lemma FieldIsOneLine(name: string, value: string)
    requires FieldName(name) && forall i :: 0 <= i < |value| ==> !LineEnds(value[i])
    ensures OneLine(Field(name, value))
  {
  }

  // ----- Reading frames -----

  predicate Between(r: Source) {
    r.kind == "" && r.data == ""
  }

  function Read(r: Source, f: SseFrame): Source {
    var retry := if f.PreludeFrame? then Some("15000") else r.retry;
    var id := NextId(r.id, f);
    var out := if Content(f).Some? then [Message(Content(f).value.0, Content(f).value.1, id)] else [];
    Source("", "", id, retry, r.out + out)
  }

  // The blank line after an event's last data line.
  lemma DispatchOne(r: Source, data: string)
    requires r.data == data + "\n" && r.kind != ""
    ensures ProcessLine(r, "") == Source("", "", r.id, r.retry, r.out + [Message(r.kind, data, r.id)])
  {
    assert r.data[..|r.data| - 1] == data;
  }

  // The field is recognised by its name.
  lemma Recognised(r: Source, value: string)
    ensures ProcessField(r, "event", value) == r.(kind := value)
    ensures ProcessField(r, "data", value) == r.(data := r.data + value + "\n")
    ensures '\0' !in value ==> ProcessField(r, "id", value) == r.(id := value)
    ensures Digits(value) ==> ProcessField(r, "retry", value) == r.(retry := Some(value))
  {
  }

  lemma ReadData(r: Source, data: string)
    requires r.data == "" && r.kind != ""
    ensures ProcessLine(ProcessLine(r, Field("data", data)), "")
         == Source("", "", r.id, r.retry, r.out + [Message(r.kind, data, r.id)])
  {
    ReadField(r, "data", data);
    Recognised(r, data);
    assert "" + data == data;
    DispatchOne(r.(data := data + "\n"), data);
  }

  lemma ReadEvent(r: Source, kind: string, data: string)
    requires Between(r) && kind != ""
    ensures ProcessLine(ProcessLines(r, [Field("event", kind), Field("data", data)]), "")
         == r.(out := r.out + [Message(kind, data, r.id)])
  {
    ProcessTwo(r, Field("event", kind), Field("data", data));
    ReadKind(r, kind);
    ReadData(r.(kind := kind), data);
  }

  lemma ReadKind(r: Source, kind: string)
    ensures ProcessLine(r, Field("event", kind)) == r.(kind := kind)
  {
    ReadField(r, "event", kind);
    Recognised(r, kind);
  }

  lemma ReadID(r: Source, id: string)
    requires '\0' !in id
    ensures ProcessLine(r, Field("id", id)) == r.(id := id)
  {
    ReadField(r, "id", id);
    Recognised(r, id);
  }

  lemma ReadTagged(r: Source, kind: string, id: string, data: string)
    requires Between(r) && kind != "" && '\0' !in id
    ensures ProcessLine(ProcessLines(r, [Field("event", kind), Field("id", id), Field("data", data)]), "")
         == Source("", "", id, r.retry, r.out + [Message(kind, data, id)])
  {
    ProcessThree(r, Field("event", kind), Field("id", id), Field("data", data));
    ReadKind(r, kind);
    ReadID(r.(kind := kind), id);
    ReadData(r.(kind := kind, id := id), data);
  }

  lemma ReadRetry(r: Source, value: string)
    requires Between(r) && Digits(value)
    ensures ProcessLine(ProcessLines(r, [Field("retry", value)]), "") == r.(retry := Some(value))
  {
    ProcessOne(r, Field("retry", value));
    ReadField(r, "retry", value);
    Recognised(r, value);
  }

  lemma EventIsClean(kind: string, data: string)
    requires OneLine(kind) && OneLine(data)
    ensures Clean([Field("event", kind), Field("data", data)])
  {
    FieldIsOneLine("event", kind);
    FieldIsOneLine("data", data);
  }

  lemma TxIsClean(id: nat, payload: string)
    requires OneLine(payload)
    ensures Clean(Lines(TxFrame(id, payload)))
  {
    FieldIsOneLine("event", "tx");
    FieldIsOneLine("id", Decimal(id));
    FieldIsOneLine("data", payload);
  }

  lemma Enclosed(before: string, s: string, after: string)
    requires OneLine(before) && OneLine(s) && OneLine(after)
    ensures OneLine(before + s + after)
  {
  }

  lemma LiteralsAreClean()
    ensures OneLine("{\"reason\":") && OneLine("}")
    ensures OneLine("initial_data") && OneLine("error") && OneLine("shutdown")
  {
  }

  lemma ServiceRestartIsClean()
    ensures OneLine(SERVICE_RESTART)
  {
  }

  lemma LinesAreClean(f: SseFrame)
    requires Writable(f)
    ensures Clean(Lines(f))
  {
    LiteralsAreClean();
    match f
    case PreludeFrame => FieldIsOneLine("retry", "15000");
    case HeartbeatFrame =>
    case InitialDataFrame(payload) => EventIsClean("initial_data", payload);
    case TxFrame(id, payload) => TxIsClean(id, payload);
    case ErrorFrame(reasonJSON) =>
      Enclosed("{\"reason\":", reasonJSON, "}");
      EventIsClean("error", "{\"reason\":" + reasonJSON + "}");
    case ShutdownFrame =>
      ServiceRestartIsClean();
      EventIsClean("shutdown", SERVICE_RESTART);
  }

  lemma ReadLines(r: Source, f: SseFrame)
    requires Between(r) && Writable(f)
    ensures ProcessLine(ProcessLines(r, Lines(f)), "") == Read(r, f)
  {
    match f
    case PreludeFrame =>
      ReadRetry(r, "15000");
      assert r.out + [] == r.out;
    case HeartbeatFrame => assert r.out + [] == r.out;
    case InitialDataFrame(payload) => ReadEvent(r, "initial_data", payload);
    case TxFrame(id, payload) => ReadTagged(r, "tx", Decimal(id), payload);
    case ErrorFrame(reasonJSON) => ReadEvent(r, "error", "{\"reason\":" + reasonJSON + "}");
    case ShutdownFrame => ReadEvent(r, "shutdown", SERVICE_RESTART);
  }

  lemma FeedBlock(r: Source, lines: seq<string>, rest: string)
    requires Clean(lines)
    ensures Feed(r, Joined(lines) + "\n" + rest) == Feed(ProcessLine(ProcessLines(r, lines), ""), rest)
  {
    Regroup(Joined(lines), "\n", rest);
    FeedLines(r, lines, "\n" + rest);
    FeedBlank(ProcessLines(r, lines), rest);
  }

  lemma FeedBlank(r: Source, rest: string)
    ensures Feed(r, "\n" + rest) == Feed(ProcessLine(r, ""), rest)
  {
    assert "" + "\n" + rest == "\n" + rest;
    FeedLine(r, "", rest);
  }

  // One frame, wherever the reader goes on afterwards.
  lemma FeedFrame(r: Source, f: SseFrame, rest: string)
    requires Between(r) && Writable(f)
    ensures Feed(r, Bytes(f) + rest) == Feed(Read(r, f), rest)
  {
    LinesAreClean(f);
    FeedBlock(r, Lines(f), rest);
    ReadLines(r, f);
  }

  // ----- Cut streams -----

  // No line of the text is empty, so nothing is dispatched.
  ghost predicate NoBlank(text: string) {
    && (forall i :: 0 <= i < |text| ==> text[i] != '\r')
    && (text != "" ==> text[0] != '\n')
    && (forall i :: 0 < i < |text| && text[i] == '\n' ==> text[i - 1] != '\n')
  }

  lemma OnlyBlankDispatches(r: Source, line: string)
    requires line != ""
    ensures ProcessLine(r, line).out == r.out
  {
  }

  lemma NoBlankRest(text: string, k: nat)
    requires NoBlank(text) && k < |text| && text[k] == '\n'
    ensures k > 0 && NoBlank(text[k + 1..])
  {
  }

  lemma {:induction false} NothingDispatched(r: Source, text: string)
    requires NoBlank(text)
    ensures Feed(r, text).out == r.out
    decreases |text|
  {
    var k := LineEnd(text);
    if k < |text| {
      NoBlankRest(text, k);
      OnlyBlankDispatches(r, text[..k]);
      assert text[k..][1..] == text[k + 1..];
      NothingDispatched(ProcessLine(r, text[..k]), text[k + 1..]);
    }
  }

  lemma {:induction false} JoinedHasNoBlank(lines: seq<string>)
    requires Clean(lines)
    ensures NoBlank(Joined(lines))
  {
    if lines != [] {
      assert OneLine(lines[0]);
      JoinedHasNoBlank(lines[1..]);
    }
  }

  lemma CutFrame(r: Source, f: SseFrame, part: string)
    requires Writable(f) && part < Bytes(f)
    ensures Feed(r, part).out == r.out
  {
    LinesAreClean(f);
    JoinedHasNoBlank(Lines(f));
    assert part <= Joined(Lines(f));
    NothingDispatched(r, part);
  }

  // ----- Round trip -----

  function ReadAll(r: Source, frames: seq<SseFrame>): Source
    decreases |frames|
  {
    if frames == [] then r else ReadAll(Read(r, frames[0]), frames[1..])
  }

  lemma {:induction false} ReadAllMessages(r: Source, frames: seq<SseFrame>)
    requires Between(r)
    ensures ReadAll(r, frames).out == r.out + Messages(r.id, frames) && Between(ReadAll(r, frames))
    ensures r.retry == Some("15000") ==> ReadAll(r, frames).retry == Some("15000")
    decreases |frames|
  {
    if frames != [] {
      ReadAllMessages(Read(r, frames[0]), frames[1..]);
    }
  }

  lemma {:induction false} FeedFrames(r: Source, frames: seq<SseFrame>, rest: string)
    requires Between(r) && forall f :: f in frames ==> Writable(f)
    ensures Feed(r, Wire(frames) + rest) == Feed(ReadAll(r, frames), rest)
    decreases |frames|
  {
    if frames == [] {
      assert Wire(frames) + rest == rest;
    } else {
      WireFirst(frames, rest);
      FeedFrame(r, frames[0], Wire(frames[1..]) + rest);
      FeedFrames(Read(r, frames[0]), frames[1..], rest);
    }
  }

  lemma WireFirst(frames: seq<SseFrame>, rest: string)
    requires frames != []
    ensures Wire(frames) + rest == Bytes(frames[0]) + (Wire(frames[1..]) + rest)
  {
    Regroup(Bytes(frames[0]), Wire(frames[1..]), rest);
  }

  lemma Regroup(a: string, b: string, c: string)
    ensures a + b + c == a + (b + c)
  {
  }

  lemma NoByteOrderMark(f: SseFrame)
    ensures Bytes(f) != "" && Bytes(f)[0] != '\U{FEFF}'
  {
    var first := Lines(f)[0];
    assert first[0] == 'r' || first[0] == 'e' || first[0] == ':';
    assert Bytes(f)[0] == first[0];
  }

  lemma InterpretFeeds(frames: seq<SseFrame>, rest: string)
    requires frames == [] ==> rest == "" || rest[0] != '\U{FEFF}'
    ensures Interpret(Wire(frames) + rest) == Feed(NewSource, Wire(frames) + rest)
  {
    if frames == [] {
      assert Wire(frames) + rest == rest;
    } else {
      NoByteOrderMark(frames[0]);
      assert (Wire(frames) + rest)[0] == Bytes(frames[0])[0];
    }
  }

  /** Framing round trip: the client gets exactly the messages of the written frames,
      in order, and no other. */
  lemma RoundTrip(frames: seq<SseFrame>)
    requires forall f :: f in frames ==> Writable(f)
    ensures Interpret(Wire(frames)).out == Messages("", frames)
    ensures frames != [] && frames[0] == PreludeFrame ==> Interpret(Wire(frames)).retry == Some("15000")
  {
    assert Wire(frames) + "" == Wire(frames);
    InterpretFeeds(frames, "");
    FeedFrames(NewSource, frames, "");
    ReadAllMessages(NewSource, frames);
    if frames != [] && frames[0] == PreludeFrame {
      ReadAllMessages(Read(NewSource, frames[0]), frames[1..]);
    }
  }

  /** Atomic on the wire: when the connection breaks inside a frame, the client gets
      the messages of the frames before it and nothing of that frame. */
  lemma CutStream(frames: seq<SseFrame>, broken: SseFrame, part: string)
    requires (forall f :: f in frames ==> Writable(f)) && Writable(broken)
    requires part < Bytes(broken)
    ensures Interpret(Wire(frames) + part).out == Messages("", frames)
  {
    if frames == [] {
      NoByteOrderMark(broken);
    }
    InterpretFeeds(frames, part);
    FeedFrames(NewSource, frames, part);
    ReadAllMessages(NewSource, frames);
    CutFrame(ReadAll(NewSource, frames), broken, part);
  }
}
