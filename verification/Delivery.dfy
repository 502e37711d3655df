/** Delivery as interleaved steps: the reader (internal/wal/reader.go), the
    hand-off channel, the router (internal/router/router.go), one bounded queue and
    one stream loop per subscriber (internal/sse/stream.go), and drops by anyone
    (internal/router/subscriber.go). Accesses whose order another goroutine can turn to
    effect are steps of their own: the reason store and the closing of Done, recording
    and hand-off, the offer of a frame and the drop after its refusal. One step each
    are a dispatch up to that offer (Done check, filter calls, encoder, and the reason
    store for an oversized transaction) and the end of a stream in finish. */
module Delivery {
  import opened WalTypes
  import opened Whitelists
  import opened Routing

  const CHANNEL_CAPACITY := 128

  // The router's decision and the indexes' test, as proved in modules Routing and
  // Router; the interleaving argument does not depend on what they are.
  datatype Env = Env(
    decide: (Channel, LSN, seq<Option<Whitelist>>, Tx) -> Outcome,
    finds: (Channel, Change) -> bool)

  type SubId = nat

  datatype Output =
    | Prelude
    | Initial(text: string)
    | TxFrame(text: string)
    | Heartbeat
    | Terminal(reason: string)

  // Where a stream loop stands. The frames are those it holds in hand.
  datatype Loop =
    | Starting
    | Preamble(left: seq<Output>)
    | Selecting
    | Batching(frames: seq<string>)
    | Writing(frames: seq<string>)
    | Ending(why: string, frames: seq<string>)
    | Leaving(frames: seq<string>)
    | Exited
  {
    function Held(): seq<string> {
      if Batching? || Writing? || Ending? || Leaving? then frames else []
    }
  }

  // History: one dispatch of a transaction past the Done check, and the grant
  // each of its filter calls resolved to.
  datatype Entry = Entry(index: nat, tx: Tx, ws: seq<Option<Whitelist>>)

  datatype Sub = Sub(
    channel: Channel,
    startLSN: LSN,
    cap: nat,
    registered: bool,
    reason: Option<string>,
    done: bool,
    queue: seq<string>,
    loop: Loop,
    out: seq<Output>,
    // History only: transactions recorded when the handshake read the LSN,
    // transactions taken by the router at Register, the dispatches, frames thrown
    // away at exit, the refused frame, frames written once Done was closed, the
    // batches they belong to, and whether the batch being written is one of them.
    cut: nat,
    regAt: nat,
    log: seq<Entry>,
    discarded: seq<string>,
    lost: seq<string>,
    late: nat,
    lateBatches: nat,
    batchIsLate: bool)

  datatype RouterPc =
    | Idle
    | Matching(next: nat, eligible: set<SubId>)
    | Dispatching(todo: set<SubId>)
    | Sending(todo: set<SubId>, id: SubId, text: string)
    | InDrop(todo: set<SubId>, id: SubId, refused: seq<string>)

  datatype State = State(
    // Every transaction recorded so far; the channel holds committed[taken..handed].
    committed: seq<Tx>,
    lsn: LSN,
    handed: nat,
    taken: nat,
    pc: RouterPc,
    subs: map<SubId, Sub>)
  {
    function With(id: SubId, sub: Sub): State {
      this.(subs := subs[id := sub])
    }
  }

  const Init := State([], 0, 0, 0, Idle, map[])

  datatype Step =
    | SlotCreated(lsn: LSN)
    | Record(tx: Tx)
    | HandOff
    | Take
    | Match
    | BeginDispatch
    | Check(id: SubId, ws: seq<Option<Whitelist>>)
    | Send
    | DropReturned
    | Finished
    | Handshake(id: SubId, channel: Channel, since: Option<LSN>, cap: nat)
    | Register(id: SubId, initial: Option<string>)
    | Deregister(id: SubId)
    | DropStore(id: SubId, why: string)
    | DropCancel(id: SubId)
    | WritePreamble(id: SubId)
    | TakeFirst(id: SubId)
    | TakeMore(id: SubId)
    | CheckDone(id: SubId, terminalWritten: bool)
    | WriteNext(id: SubId)
    | WriteFails(id: SubId, why: string)
    | Beat(id: SubId)
    | ClientGone(id: SubId)
    | SeeDone(id: SubId, terminalWritten: bool)
    | OwnDrop(id: SubId)
    | Leave(id: SubId)

  // ----- What each step does -----

  predicate Busy(s: State) {
    0 < s.taken <= |s.committed| && !s.pc.Idle?
  }

  function Current(s: State): Tx
    requires Busy(s)
  {
    s.committed[s.taken - 1]
  }

  // The subscribers a change finds in the indexes.
  function Found(env: Env, s: State, c: Change): set<SubId> {
    set id | id in s.subs && s.subs[id].registered && env.finds(s.subs[id].channel, c)
  }

  // The first reason wins.
  function Stored(sub: Sub, why: string): Sub {
    if sub.reason.None? then sub.(reason := Some(why)) else sub
  }

  // finish(): queued frames are discarded, and at most one terminal frame goes out.
  function Finish(sub: Sub, terminalWritten: bool): Sub
    requires sub.reason.Some?
  {
    var silent := sub.reason.value == "" || sub.reason.value == "client_closed";
    var last := if terminalWritten && !silent then [Terminal(sub.reason.value)] else [];
    sub.(out := sub.out + last, discarded := sub.discarded + sub.loop.Held() + sub.queue, queue := [], loop := Exited)
  }

  ghost predicate Enabled(env: Env, s: State, step: Step) {
    match step
    // Recorded positions never decrease: commits arrive in WAL order, and a new
    // slot starts no lower than the positions recorded before it.
    case SlotCreated(lsn) => lsn >= s.lsn
    case Record(tx) => s.handed == |s.committed| && tx.commitLSN >= s.lsn
    case HandOff => s.handed < |s.committed| && s.handed - s.taken < CHANNEL_CAPACITY
    case Take => s.pc.Idle? && s.taken < s.handed
    case Match => s.pc.Matching? && Busy(s) && s.pc.next < |Current(s).changes|
    case BeginDispatch => s.pc.Matching? && Busy(s) && s.pc.next == |Current(s).changes|
    case Check(id, ws) =>
      s.pc.Dispatching? && Busy(s) && id in s.pc.todo && id in s.subs && |ws| == |Current(s).changes|
    case Send => s.pc.Sending? && s.pc.id in s.subs
    case DropReturned => s.pc.InDrop? && s.pc.id in s.subs && s.subs[s.pc.id].done
    case Finished => s.pc.Dispatching? && s.pc.todo == {}
    case Handshake(id, _, _, cap) => id !in s.subs && cap > 0
    case Register(id, _) => id in s.subs && s.subs[id].loop.Starting?
    case Deregister(id) => id in s.subs && s.subs[id].loop.Exited?
    case DropStore(id, _) => id in s.subs
    case DropCancel(id) => id in s.subs && s.subs[id].reason.Some?
    case WritePreamble(id) => id in s.subs && s.subs[id].loop.Preamble?
    case TakeFirst(id) => id in s.subs && s.subs[id].loop.Selecting? && s.subs[id].queue != []
    case TakeMore(id) =>
      id in s.subs && s.subs[id].loop.Batching? && |s.subs[id].loop.frames| < s.subs[id].cap && s.subs[id].queue != []
    case CheckDone(id, _) =>
      && id in s.subs && s.subs[id].loop.Batching?
      && (|s.subs[id].loop.frames| == s.subs[id].cap || s.subs[id].queue == [])
      && (s.subs[id].done ==> s.subs[id].reason.Some?)
    case WriteNext(id) => id in s.subs && s.subs[id].loop.Writing?
    case WriteFails(id, _) =>
      id in s.subs && (s.subs[id].loop.Writing? || s.subs[id].loop.Preamble? || s.subs[id].loop.Selecting?)
    case Beat(id) => id in s.subs && s.subs[id].loop.Selecting?
    case ClientGone(id) => id in s.subs && s.subs[id].loop.Selecting?
    case SeeDone(id, _) =>
      id in s.subs && s.subs[id].loop.Selecting? && s.subs[id].done && s.subs[id].reason.Some?
    case OwnDrop(id) => id in s.subs && s.subs[id].loop.Ending?
    case Leave(id) => id in s.subs && s.subs[id].loop.Leaving? && s.subs[id].done
  }

  ghost function DoMatch(env: Env, s: State): State
    requires s.pc.Matching? && Busy(s) && s.pc.next < |Current(s).changes|
  {
    s.(pc := Matching(s.pc.next + 1, s.pc.eligible + Found(env, s, Current(s).changes[s.pc.next])))
  }

  // A router step on one subscriber: where the router goes, and the subscriber after.
  datatype Move = Move(pc: RouterPc, sub: Sub)

  // The Done check, the filter loop and the encoder. A dropped subscriber is skipped.
  ghost function Dispatch(env: Env, index: nat, tx: Tx, todo: set<SubId>, id: SubId, sub: Sub,
                          ws: seq<Option<Whitelist>>): Move
  {
    if sub.done then Move(Dispatching(todo), sub)
    else
      Act(env.decide(sub.channel, sub.startLSN, ws, tx), todo, id, sub.(log := sub.log + [Entry(index, tx, ws)]))
  }

  ghost function DoCheck(env: Env, s: State, id: SubId, ws: seq<Option<Whitelist>>): Move
    requires s.pc.Dispatching? && Busy(s) && id in s.subs
  {
    Dispatch(env, s.taken - 1, Current(s), s.pc.todo - {id}, id, s.subs[id], ws)
  }

  function Act(outcome: Outcome, todo: set<SubId>, id: SubId, sub: Sub): Move {
    match outcome
    case Skip => Move(Dispatching(todo), sub)
    case Frame(_, text) => Move(Sending(todo, id, text), sub)
    case TooLarge => Move(InDrop(todo, id, []), Stored(sub, "tx_too_large"))
  }

  // Offers the frame; a refusal goes on to Drop, which stores the first reason.
  function DoSend(s: State): Move
    requires s.pc.Sending? && s.pc.id in s.subs
  {
    var sub := s.subs[s.pc.id];
    if |sub.queue| < sub.cap then
      Move(Dispatching(s.pc.todo), sub.(queue := sub.queue + [s.pc.text]))
    else
      Move(InDrop(s.pc.todo, s.pc.id, [s.pc.text]), Stored(sub, "slow_consumer"))
  }

  // Drop returns once the reason is stored and Done is closed, by whichever caller.
  function DoDropReturned(s: State): Move
    requires s.pc.InDrop? && s.pc.id in s.subs
  {
    var sub := s.subs[s.pc.id];
    Move(Dispatching(s.pc.todo), sub.(lost := sub.lost + s.pc.refused))
  }

  function Moved(s: State, id: SubId, move: Move): State {
    s.With(id, move.sub).(pc := move.pc)
  }

  function DoHandshake(s: State, id: SubId, channel: Channel, since: Option<LSN>, cap: nat): State {
    var start := if since.Some? then since.value else s.lsn;
    var cut := if since.Some? then 0 else |s.committed|;
    s.With(id, Sub(channel, start, cap, false, None, false, [], Starting, [], cut, 0, [], [], [], 0, 0, false))
  }

  function DoRegister(s: State, sub: Sub, initial: Option<string>): Sub {
    var left := [Prelude] + if initial.Some? then [Initial(initial.value)] else [];
    sub.(registered := true, regAt := s.taken, loop := Preamble(left))
  }

  function DoWritePreamble(sub: Sub): Sub
    requires sub.loop.Preamble?
  {
    if sub.loop.left == [] then sub.(loop := Selecting)
    else sub.(out := sub.out + [sub.loop.left[0]], loop := Preamble(sub.loop.left[1..]))
  }

  function DoTake(sub: Sub): Sub
    requires sub.queue != []
  {
    sub.(queue := sub.queue[1..], loop := Batching(sub.loop.Held() + [sub.queue[0]]))
  }

  function DoCheckDone(sub: Sub, terminalWritten: bool): Sub
    requires sub.loop.Batching? && (sub.done ==> sub.reason.Some?)
  {
    if sub.done then Finish(sub, terminalWritten) else sub.(loop := Writing(sub.loop.frames), batchIsLate := false)
  }

  function DoWriteNext(sub: Sub): Sub
    requires sub.loop.Writing?
  {
    if sub.loop.frames == [] then sub.(loop := Selecting)
    else
      sub.(out := sub.out + [TxFrame(sub.loop.frames[0])],
           loop := Writing(sub.loop.frames[1..]),
           late := if sub.done then sub.late + 1 else sub.late,
           lateBatches := if sub.done && !sub.batchIsLate then sub.lateBatches + 1 else sub.lateBatches,
           batchIsLate := sub.batchIsLate || sub.done)
  }

  ghost predicate IsStreamStep(step: Step) {
    step.Register? || step.Deregister? || step.DropStore? || step.DropCancel? || step.WritePreamble?
    || step.TakeFirst? || step.TakeMore? || step.CheckDone? || step.WriteNext? || step.WriteFails?
    || step.Beat? || step.ClientGone? || step.SeeDone? || step.OwnDrop? || step.Leave?
  }

  // A step of one subscriber's stream loop, or of anyone dropping it.
  ghost function StreamStep(env: Env, s: State, step: Step): Sub
    requires IsStreamStep(step) && Enabled(env, s, step)
  {
    var sub := s.subs[step.id];
    match step
    case Register(_, initial) => DoRegister(s, sub, initial)
    case Deregister(_) => sub.(registered := false)
    case DropStore(_, why) => Stored(sub, why)
    case DropCancel(_) => sub.(done := true)
    case WritePreamble(_) => DoWritePreamble(sub)
    case TakeFirst(_) => DoTake(sub)
    case TakeMore(_) => DoTake(sub)
    case CheckDone(_, terminalWritten) => DoCheckDone(sub, terminalWritten)
    case WriteNext(_) => DoWriteNext(sub)
    case WriteFails(_, why) => sub.(loop := Ending(why, sub.loop.Held()))
    case Beat(_) => sub.(out := sub.out + [Heartbeat])
    case ClientGone(_) => sub.(loop := Ending("client_closed", sub.loop.Held()))
    case SeeDone(_, terminalWritten) => Finish(sub, terminalWritten)
    case OwnDrop(_) => Stored(sub, sub.loop.why).(loop := Leaving(sub.loop.frames))
    case Leave(_) =>
      sub.(discarded := sub.discarded + sub.loop.Held() + sub.queue, queue := [], loop := Exited)
  }

  ghost function Apply(env: Env, s: State, step: Step): State
    requires Enabled(env, s, step)
  {
    match step
    case SlotCreated(lsn) => s.(lsn := lsn)
    case Record(tx) => s.(committed := s.committed + [tx], lsn := tx.commitLSN)
    case HandOff => s.(handed := s.handed + 1)
    case Take => s.(taken := s.taken + 1, pc := Matching(0, {}))
    case Match => DoMatch(env, s)
    case BeginDispatch => s.(pc := Dispatching(s.pc.eligible))
    case Check(id, ws) => Moved(s, id, DoCheck(env, s, id, ws))
    case Send => Moved(s, s.pc.id, DoSend(s))
    case DropReturned => Moved(s, s.pc.id, DoDropReturned(s))
    case Finished => s.(pc := Idle)
    case Handshake(id, channel, since, cap) => DoHandshake(s, id, channel, since, cap)
    case _ => Moved(s, step.id, Move(s.pc, StreamStep(env, s, step)))
  }

  // The state after a run, if every step of it is enabled when taken.
  ghost function Run(env: Env, steps: seq<Step>): Option<State> {
    if steps == [] then Some(Init)
    else
      var before := Run(env, steps[..|steps| - 1]);
      var step := steps[|steps| - 1];
      if before.Some? && Enabled(env, before.value, step) then Some(Apply(env, before.value, step)) else None
  }

  // ----- What the router owes a subscriber -----

  datatype Turn =
    | Resting
    | Collecting(upTo: nat, found: bool)
    | Owed
    | Holding(frames: seq<string>)

  function TurnOf(pc: RouterPc, id: SubId): Turn {
    match pc
    case Idle => Resting
    case Matching(next, eligible) => Collecting(next, id in eligible)
    case Dispatching(todo) => if id in todo then Owed else Resting
    case Sending(todo, holder, text) =>
      if id == holder then Holding([text]) else if id in todo then Owed else Resting
    case InDrop(todo, holder, refused) =>
      if id == holder then Holding(refused) else if id in todo then Owed else Resting
  }

  // Transactions with a smaller index are settled for the subscriber.
  function Due(turn: Turn, taken: nat): int {
    if turn.Owed? || turn.Collecting? then taken - 1 else taken
  }

  function InHand(turn: Turn): seq<string> {
    if turn.Holding? then turn.frames else []
  }

  // ----- The invariant -----

  ghost function FramesOf(env: Env, ch: Channel, startLSN: LSN, e: Entry): seq<string>
  {
    FrameIn(env.decide(ch, startLSN, e.ws, e.tx))
  }

  ghost function FrameIn(outcome: Outcome): seq<string> {
    if outcome.Frame? then [outcome.text] else []
  }

  // The frames dispatch produced for the subscriber, in dispatch order.
  ghost function Produced(env: Env, ch: Channel, startLSN: LSN, log: seq<Entry>): seq<string>
  {
    if log == [] then []
    else
      Produced(env, ch, startLSN, log[..|log| - 1]) + FramesOf(env, ch, startLSN, log[|log| - 1])
  }

  ghost function Written(out: seq<Output>): seq<string> {
    if out == [] then []
    else
      var last := out[|out| - 1];
      Written(out[..|out| - 1]) + if last.TxFrame? then [last.text] else []
  }

  ghost predicate Eligible(env: Env, ch: Channel, tx: Tx) {
    exists c :: c in tx.changes && env.finds(ch, c)
  }

  ghost predicate Logged(log: seq<Entry>, j: nat) {
    exists k :: 0 <= k < |log| && log[k].index == j
  }

  // Transaction j was dispatched to the subscriber, or has no change it looks for.
  ghost predicate Settled(env: Env, committed: seq<Tx>, channel: Channel, log: seq<Entry>, j: nat) {
    Logged(log, j) || (j < |committed| ==> !Eligible(env, channel, committed[j]))
  }

  // Dispatches follow commit order, each transaction at most once.
  ghost predicate LogInv(committed: seq<Tx>, due: int, sub: Sub) {
    && (forall k :: 0 <= k < |sub.log| ==> |sub.log[k].ws| == |sub.log[k].tx.changes|)
    && (forall k :: 0 <= k < |sub.log| ==>
          0 <= sub.log[k].index < due && sub.log[k].index < |committed| && committed[sub.log[k].index] == sub.log[k].tx)
    && (forall j, k :: 0 <= j < k < |sub.log| ==> sub.log[j].index < sub.log[k].index)
  }

  // No frame is lost, doubled or moved: each produced frame is in one place.
  ghost predicate Conserved(env: Env, inHand: seq<string>, sub: Sub)
  {
    && Produced(env, sub.channel, sub.startLSN, sub.log)
       == Written(sub.out) + sub.discarded + sub.loop.Held() + sub.queue + sub.lost + inHand
    && (sub.lost != [] ==> sub.done && inHand == [])
    && (sub.discarded != [] ==> sub.loop.Exited?)
  }

  // Until it is dropped, a registered subscriber misses no settled transaction.
  ghost predicate Complete(env: Env, committed: seq<Tx>, taken: nat, turn: Turn, sub: Sub) {
    sub.registered && !sub.done ==>
      && (forall j :: sub.regAt <= j < Due(turn, taken) ==> Settled(env, committed, sub.channel, sub.log, j))
      && (turn.Collecting? && !turn.found && sub.regAt < taken <= |committed| ==>
            turn.upTo <= |committed[taken - 1].changes|
            && forall c :: c in committed[taken - 1].changes[..turn.upTo] ==> !env.finds(sub.channel, c))
  }

  // Whether it was dropped since or not, a subscriber misses no transaction between its
  // Register and any of its dispatches.
  ghost predicate NoGaps(env: Env, committed: seq<Tx>, turn: Turn, sub: Sub) {
    && (forall k :: 0 <= k < |sub.log| ==> Filled(env, committed, sub.channel, sub.log, sub.regAt, sub.log[k].index))
    && (sub.loop.Starting? ==> sub.log == [] && (turn.Resting? || (turn.Collecting? && !turn.found)))
    && (!sub.loop.Starting? && !sub.done ==> sub.registered)
  }

  ghost predicate Filled(env: Env, committed: seq<Tx>, channel: Channel, log: seq<Entry>, from: nat, upTo: int) {
    forall j :: from <= j < upTo ==> Settled(env, committed, channel, log, j)
  }

  ghost predicate Ends(sub: Sub) {
    && sub.cap > 0 && |sub.queue| <= sub.cap && |sub.loop.Held()| <= sub.cap
    && (sub.done ==> sub.reason.Some?)
    && (!sub.done ==> sub.late == 0 && !(sub.loop.Writing? && sub.batchIsLate))
    && sub.lateBatches <= 1 && (sub.lateBatches == 0 <==> sub.late == 0)
    && (sub.done && sub.loop.Writing? ==> (sub.batchIsLate <==> sub.lateBatches == 1))
    && sub.late + (if sub.done && sub.loop.Writing? then |sub.loop.frames| else 0) <= sub.cap
    && (sub.loop.Exited? ==> sub.done)
    && (sub.loop.Starting? ==> !sub.registered && sub.out == [])
    && (sub.loop.Preamble? ==>
          forall i :: 0 <= i < |sub.loop.left| ==> sub.loop.left[i].Prelude? || sub.loop.left[i].Initial?)
    && (forall i :: 0 <= i < |sub.out| && sub.out[i].Terminal? ==>
          i == |sub.out| - 1 && sub.loop.Exited? && sub.reason == Some(sub.out[i].reason))
  }

  ghost predicate CutInv(committed: seq<Tx>, sub: Sub) {
    sub.cut <= |committed| && forall j :: 0 <= j < sub.cut ==> committed[j].commitLSN <= sub.startLSN
  }

  ghost predicate SubInv(env: Env, committed: seq<Tx>, taken: nat, turn: Turn, sub: Sub) {
    && LogInv(committed, Due(turn, taken), sub)
    && Conserved(env, InHand(turn), sub)
    && Complete(env, committed, taken, turn, sub)
    && NoGaps(env, committed, turn, sub)
    && Ends(sub)
    && CutInv(committed, sub)
  }

  ghost predicate PcInv(s: State) {
    && s.taken <= s.handed <= |s.committed| <= s.handed + 1
    && s.handed - s.taken <= CHANNEL_CAPACITY
    && (!s.pc.Idle? ==> s.taken > 0)
    && (s.pc.Matching? ==> s.pc.eligible <= s.subs.Keys && s.pc.next <= |s.committed[s.taken - 1].changes|)
    && (s.pc.Dispatching? || s.pc.Sending? || s.pc.InDrop? ==> s.pc.todo <= s.subs.Keys)
    && (s.pc.Sending? || s.pc.InDrop? ==> s.pc.id in s.subs && s.pc.id !in s.pc.todo)
    && (s.pc.InDrop? ==> s.subs[s.pc.id].reason.Some? && s.subs[s.pc.id].lost == [])
    && (forall j :: 0 <= j < |s.committed| ==> s.committed[j].commitLSN <= s.lsn)
  }

  type SubPredicate = (seq<Tx>, nat, Turn, Sub) -> bool

  ghost function InvOf(env: Env): SubPredicate {
    (committed: seq<Tx>, taken: nat, turn: Turn, sub: Sub) => SubInv(env, committed, taken, turn, sub)
  }

  ghost predicate AllSubs(p: SubPredicate, s: State) {
    forall id {:trigger TurnOf(s.pc, id)} :: id in s.subs ==> p(s.committed, s.taken, TurnOf(s.pc, id), s.subs[id])
  }

  ghost predicate Inv(env: Env, s: State) {
    PcInv(s) && AllSubs(InvOf(env), s)
  }

  // ----- Every step keeps it -----

  lemma WrittenAppend(out: seq<Output>, o: Output)
    ensures Written(out + [o]) == if o.TxFrame? then Written(out) + [o.text] else Written(out)
  {
    assert (out + [o])[..|out|] == out;
    assert Written(out) + [] == Written(out);
  }

  // Moving the first frame of the queue to the end of the batch.
  lemma Dequeued<T>(a: seq<T>, held: seq<T>, queue: seq<T>, b: seq<T>, c: seq<T>)
    requires queue != []
    ensures a + (held + [queue[0]]) + queue[1..] + b + c == a + held + queue + b + c
  {
    assert queue == [queue[0]] + queue[1..];
    assert a + (held + [queue[0]]) + queue[1..] == a + held + queue;
  }

  // Moving the first frame of the batch to the end of what is written.
  lemma Emitted<T>(written: seq<T>, none: seq<T>, held: seq<T>, a: seq<T>, b: seq<T>, c: seq<T>)
    requires none == [] && held != []
    ensures written + [held[0]] + none + held[1..] + a + b + c == written + none + held + a + b + c
  {
    assert held == [held[0]] + held[1..];
    assert written + [held[0]] + none + held[1..] == written + none + held;
  }

  // Throwing away what is held and queued.
  lemma Dumped<T>(a: seq<T>, d: seq<T>, held: seq<T>, queue: seq<T>, b: seq<T>, c: seq<T>)
    ensures a + (d + held + queue) + [] + [] + b + c == a + d + held + queue + b + c
  {
    assert a + (d + held + queue) + [] + [] == a + d + held + queue;
  }

  lemma ExitConserves(env: Env, sub: Sub, inHand: seq<string>, out: seq<Output>)
    requires Conserved(env, inHand, sub)
    requires Written(out) == Written(sub.out)
    ensures Conserved(env, inHand,
              sub.(out := out, discarded := sub.discarded + sub.loop.Held() + sub.queue, queue := [], loop := Exited))
  {
    Dumped(Written(sub.out), sub.discarded, sub.loop.Held(), sub.queue, sub.lost, inHand);
  }

  lemma FinishConserves(env: Env, sub: Sub, inHand: seq<string>, terminalWritten: bool)
    requires Conserved(env, inHand, sub) && sub.reason.Some?
    ensures Conserved(env, inHand, Finish(sub, terminalWritten))
  {
    WrittenAppend(sub.out, Terminal(sub.reason.value));
    assert sub.out + [] == sub.out;
    ExitConserves(env, sub, inHand, Finish(sub, terminalWritten).out);
  }

  lemma TakeConserves(env: Env, sub: Sub, inHand: seq<string>)
    requires Conserved(env, inHand, sub) && sub.queue != []
    requires sub.loop.Selecting? || sub.loop.Batching?
    ensures Conserved(env, inHand, DoTake(sub))
  {
    Dequeued(Written(sub.out) + sub.discarded, sub.loop.Held(), sub.queue, sub.lost, inHand);
  }

  lemma WrittenNext(sub: Sub)
    requires sub.loop.Writing? && sub.loop.frames != []
    ensures Written(DoWriteNext(sub).out) == Written(sub.out) + [sub.loop.frames[0]]
    ensures DoWriteNext(sub).loop.Held() == sub.loop.frames[1..]
  {
    WrittenAppend(sub.out, TxFrame(sub.loop.frames[0]));
  }

  lemma WriteConserves(env: Env, sub: Sub, inHand: seq<string>)
    requires Conserved(env, inHand, sub) && sub.loop.Writing?
    ensures Conserved(env, inHand, DoWriteNext(sub))
  {
    if sub.loop.frames != [] {
      WrittenNext(sub);
      Emitted(Written(sub.out), sub.discarded, sub.loop.frames, sub.queue, sub.lost, inHand);
    }
  }

  ghost predicate MovesFrames(step: Step) {
    step.TakeFirst? || step.TakeMore? || step.CheckDone? || step.WriteNext? || step.SeeDone? || step.Leave?
  }

  lemma MovingStepConserves(env: Env, s: State, inHand: seq<string>, step: Step)
    requires MovesFrames(step) && Enabled(env, s, step)
    requires var sub := s.subs[step.id]; Conserved(env, inHand, sub)
    ensures Conserved(env, inHand, StreamStep(env, s, step))
  {
    var sub := s.subs[step.id];
    match step
    case TakeFirst(_) => TakeConserves(env, sub, inHand);
    case TakeMore(_) => TakeConserves(env, sub, inHand);
    case CheckDone(_, terminalWritten) =>
      if sub.done {
        FinishConserves(env, sub, inHand, terminalWritten);
      }
    case WriteNext(_) => WriteConserves(env, sub, inHand);
    case SeeDone(_, terminalWritten) => FinishConserves(env, sub, inHand, terminalWritten);
    case Leave(_) => ExitConserves(env, sub, inHand, sub.out);
  }

  ghost predicate SamePlaces(a: Sub, b: Sub) {
    && a.channel == b.channel && a.startLSN == b.startLSN && a.log == b.log
    && Written(a.out) == Written(b.out) && a.discarded == b.discarded && a.loop.Held() == b.loop.Held()
    && a.queue == b.queue && a.lost == b.lost
    && (a.done ==> b.done)
    && (a.loop.Exited? ==> b.loop.Exited?)
  }

  lemma PreambleMovesNothing(sub: Sub)
    requires sub.loop.Preamble? && Ends(sub)
    ensures SamePlaces(sub, DoWritePreamble(sub))
  {
    if sub.loop.left != [] {
      WrittenAppend(sub.out, sub.loop.left[0]);
    }
  }

  lemma QuietStepMovesNothing(env: Env, s: State, step: Step)
    requires IsStreamStep(step) && !MovesFrames(step) && Enabled(env, s, step) && Ends(s.subs[step.id])
    ensures SamePlaces(s.subs[step.id], StreamStep(env, s, step))
  {
    match step
    case WritePreamble(id) => PreambleMovesNothing(s.subs[id]);
    case Beat(id) => WrittenAppend(s.subs[id].out, Heartbeat);
    case _ =>
  }

  lemma StreamStepConserves(env: Env, s: State, inHand: seq<string>, step: Step)
    requires IsStreamStep(step) && Enabled(env, s, step) && Ends(s.subs[step.id])
    requires var sub := s.subs[step.id]; Conserved(env, inHand, sub)
    ensures Conserved(env, inHand, StreamStep(env, s, step))
  {
    if MovesFrames(step) {
      MovingStepConserves(env, s, inHand, step);
    } else {
      QuietStepMovesNothing(env, s, step);
    }
  }

  lemma MovingStepEnds(env: Env, s: State, step: Step)
    requires MovesFrames(step) && Enabled(env, s, step) && Ends(s.subs[step.id])
    ensures Ends(StreamStep(env, s, step))
  {
  }

  lemma QuietStepEnds(env: Env, s: State, step: Step)
    requires IsStreamStep(step) && !MovesFrames(step) && Enabled(env, s, step) && Ends(s.subs[step.id])
    ensures Ends(StreamStep(env, s, step))
  {
    var sub := s.subs[step.id];
    match step
    case DropStore(_, why) => StoredEnds(sub, why);
    case DropCancel(_) => CancelledEnds(sub);
    case WritePreamble(_) => PreambleEnds(sub);
    case OwnDrop(_) => StoredEnds(sub, sub.loop.why);
    case _ =>
  }

  lemma StoredEnds(sub: Sub, why: string)
    requires Ends(sub)
    ensures Ends(Stored(sub, why))
  {
  }

  lemma CancelledEnds(sub: Sub)
    requires Ends(sub) && sub.reason.Some?
    ensures Ends(sub.(done := true))
  {
  }

  lemma PreambleEnds(sub: Sub)
    requires Ends(sub) && sub.loop.Preamble?
    ensures Ends(DoWritePreamble(sub))
  {
  }

  // What no step of the stream loop, and no drop, touches.
  ghost predicate Framed(taken: nat, sub: Sub, sub': Sub) {
    && (sub'.channel, sub'.startLSN, sub'.cut, sub'.log, sub'.lost)
       == (sub.channel, sub.startLSN, sub.cut, sub.log, sub.lost)
    && (sub.reason.Some? ==> sub'.reason == sub.reason)
    && (sub.done ==> sub'.done)
    && (sub'.registered ==> (sub.registered && sub'.regAt == sub.regAt) || sub'.regAt == taken)
  }

  lemma MovingStepFrame(env: Env, s: State, step: Step)
    requires MovesFrames(step) && Enabled(env, s, step)
    ensures Framed(s.taken, s.subs[step.id], StreamStep(env, s, step))
  {
  }

  lemma QuietStepFrame(env: Env, s: State, step: Step)
    requires IsStreamStep(step) && !MovesFrames(step) && Enabled(env, s, step)
    ensures Framed(s.taken, s.subs[step.id], StreamStep(env, s, step))
  {
  }

  lemma StreamStepFrame(env: Env, s: State, step: Step)
    requires IsStreamStep(step) && Enabled(env, s, step)
    ensures Framed(s.taken, s.subs[step.id], StreamStep(env, s, step))
  {
    if MovesFrames(step) {
      MovingStepFrame(env, s, step);
    } else {
      QuietStepFrame(env, s, step);
    }
  }

  lemma StreamStepComplete(env: Env, s: State, turn: Turn, step: Step)
    requires IsStreamStep(step) && Enabled(env, s, step)
    requires Complete(env, s.committed, s.taken, turn, s.subs[step.id])
    ensures Complete(env, s.committed, s.taken, turn, StreamStep(env, s, step))
  {
    StreamStepFrame(env, s, step);
  }

  lemma StreamStepNoGaps(env: Env, s: State, turn: Turn, step: Step)
    requires IsStreamStep(step) && Enabled(env, s, step) && Ends(s.subs[step.id])
    requires NoGaps(env, s.committed, turn, s.subs[step.id])
    ensures NoGaps(env, s.committed, turn, StreamStep(env, s, step))
  {
    StreamStepFrame(env, s, step);
  }

  lemma StreamStepSub(env: Env, s: State, step: Step)
    requires IsStreamStep(step) && Enabled(env, s, step)
    requires SubInv(env, s.committed, s.taken, TurnOf(s.pc, step.id), s.subs[step.id])
    ensures SubInv(env, s.committed, s.taken, TurnOf(s.pc, step.id), StreamStep(env, s, step))
  {
    StreamStepConserves(env, s, InHand(TurnOf(s.pc, step.id)), step);
    StreamStepComplete(env, s, TurnOf(s.pc, step.id), step);
    StreamStepNoGaps(env, s, TurnOf(s.pc, step.id), step);
    if MovesFrames(step) {
      MovingStepEnds(env, s, step);
    } else {
      QuietStepEnds(env, s, step);
    }
    StreamStepFrame(env, s, step);
  }

  // A step on one subscriber that leaves the turns of the others alone keeps p for all.
  lemma OneMoved(p: SubPredicate, s: State, id: SubId, move: Move)
    requires AllSubs(p, s)
    requires forall j :: j in s.subs && j != id ==> TurnOf(move.pc, j) == TurnOf(s.pc, j)
    requires p(s.committed, s.taken, TurnOf(move.pc, id), move.sub)
    ensures AllSubs(p, Moved(s, id, move))
  {
  }

  lemma PcReplaced(s: State, id: SubId, sub: Sub)
    requires PcInv(s) && id in s.subs
    requires (s.subs[id].reason.Some? ==> sub.reason.Some?) && s.subs[id].lost == sub.lost
    ensures PcInv(s.With(id, sub))
  {
  }

  lemma SubAt(env: Env, s: State, id: SubId)
    requires AllSubs(InvOf(env), s) && id in s.subs
    ensures SubInv(env, s.committed, s.taken, TurnOf(s.pc, id), s.subs[id])
  {
    assert InvOf(env)(s.committed, s.taken, TurnOf(s.pc, id), s.subs[id]);
  }

  lemma OneMovedInv(env: Env, s: State, id: SubId, move: Move)
    requires AllSubs(InvOf(env), s)
    requires forall j :: j in s.subs && j != id ==> TurnOf(move.pc, j) == TurnOf(s.pc, j)
    requires SubInv(env, s.committed, s.taken, TurnOf(move.pc, id), move.sub)
    ensures AllSubs(InvOf(env), Moved(s, id, move))
  {
    assert InvOf(env)(s.committed, s.taken, TurnOf(move.pc, id), move.sub);
    OneMoved(InvOf(env), s, id, move);
  }

  lemma StreamStepSubs(env: Env, s: State, step: Step)
    requires IsStreamStep(step) && Enabled(env, s, step) && AllSubs(InvOf(env), s)
    ensures AllSubs(InvOf(env), Moved(s, step.id, Move(s.pc, StreamStep(env, s, step))))
  {
    SubAt(env, s, step.id);
    StreamStepSub(env, s, step);
    OneMovedInv(env, s, step.id, Move(s.pc, StreamStep(env, s, step)));
  }

  lemma StreamStepInv(env: Env, s: State, step: Step)
    requires IsStreamStep(step) && Enabled(env, s, step) && Inv(env, s)
    ensures Inv(env, Moved(s, step.id, Move(s.pc, StreamStep(env, s, step))))
  {
    StreamStepSubs(env, s, step);
    StreamStepFrame(env, s, step);
    PcReplaced(s, step.id, StreamStep(env, s, step));
  }

  // ----- Reader and router steps -----

  // A step of the reader or the router that leaves every subscriber as it is.
  lemma AllTurned(env: Env, s: State, t: State)
    requires AllSubs(InvOf(env), s) && t.subs == s.subs
    requires forall id :: id in s.subs ==>
               SubInv(env, s.committed, s.taken, TurnOf(s.pc, id), s.subs[id]) ==>
               SubInv(env, t.committed, t.taken, TurnOf(t.pc, id), s.subs[id])
    ensures AllSubs(InvOf(env), t)
  {
    forall id | id in t.subs
      ensures InvOf(env)(t.committed, t.taken, TurnOf(t.pc, id), t.subs[id])
    {
      SubAt(env, s, id);
    }
  }

  lemma SettledLonger(env: Env, committed: seq<Tx>, tx: Tx, channel: Channel, log: seq<Entry>, j: nat)
    requires j < |committed|
    ensures Settled(env, committed + [tx], channel, log, j) <==> Settled(env, committed, channel, log, j)
  {
  }

  lemma RecordedSub(env: Env, committed: seq<Tx>, tx: Tx, taken: nat, turn: Turn, sub: Sub)
    requires SubInv(env, committed, taken, turn, sub) && taken <= |committed|
    ensures SubInv(env, committed + [tx], taken, turn, sub)
  {
    RecordedComplete(env, committed, tx, taken, turn, sub);
    RecordedNoGaps(env, committed, tx, turn, sub);
    assert LogInv(committed + [tx], Due(turn, taken), sub);
  }

  lemma RecordedComplete(env: Env, committed: seq<Tx>, tx: Tx, taken: nat, turn: Turn, sub: Sub)
    requires Complete(env, committed, taken, turn, sub) && taken <= |committed|
    ensures Complete(env, committed + [tx], taken, turn, sub)
  {
    forall j: nat | j < |committed|
      ensures Settled(env, committed + [tx], sub.channel, sub.log, j)
         <==> Settled(env, committed, sub.channel, sub.log, j)
    {
      SettledLonger(env, committed, tx, sub.channel, sub.log, j);
    }
  }

  lemma RecordedNoGaps(env: Env, committed: seq<Tx>, tx: Tx, turn: Turn, sub: Sub)
    requires NoGaps(env, committed, turn, sub)
    requires forall k :: 0 <= k < |sub.log| ==> sub.log[k].index < |committed|
    ensures NoGaps(env, committed + [tx], turn, sub)
  {
    forall k | 0 <= k < |sub.log|
      ensures Filled(env, committed + [tx], sub.channel, sub.log, sub.regAt, sub.log[k].index)
    {
      assert Filled(env, committed, sub.channel, sub.log, sub.regAt, sub.log[k].index);
      forall j: nat | sub.regAt <= j < sub.log[k].index
        ensures Settled(env, committed + [tx], sub.channel, sub.log, j)
      {
        SettledLonger(env, committed, tx, sub.channel, sub.log, j);
      }
    }
  }

  lemma TakenSub(env: Env, committed: seq<Tx>, taken: nat, sub: Sub)
    requires SubInv(env, committed, taken, Resting, sub)
    ensures SubInv(env, committed, taken + 1, Collecting(0, false), sub)
  {
  }

  lemma MatchedSub(env: Env, committed: seq<Tx>, taken: nat, n: nat, had: bool, sub: Sub)
    requires 0 < taken <= |committed| && n < |committed[taken - 1].changes|
    requires SubInv(env, committed, taken, Collecting(n, had), sub)
    ensures var hit := sub.registered && env.finds(sub.channel, committed[taken - 1].changes[n]);
      SubInv(env, committed, taken, Collecting(n + 1, had || hit), sub)
  {
    var hit := sub.registered && env.finds(sub.channel, committed[taken - 1].changes[n]);
    MatchedComplete(env, committed, taken, n, had, hit, sub);
    assert InHand(Collecting(n, had)) == InHand(Collecting(n + 1, had || hit));
  }

  lemma MatchedComplete(env: Env, committed: seq<Tx>, taken: nat, n: nat, had: bool, hit: bool, sub: Sub)
    requires 0 < taken <= |committed| && n < |committed[taken - 1].changes|
    requires hit <==> sub.registered && env.finds(sub.channel, committed[taken - 1].changes[n])
    requires Complete(env, committed, taken, Collecting(n, had), sub)
    ensures Complete(env, committed, taken, Collecting(n + 1, had || hit), sub)
  {
    var changes := committed[taken - 1].changes;
    assert changes[..n + 1] == changes[..n] + [changes[n]];
  }

  lemma CollectedComplete(env: Env, committed: seq<Tx>, taken: nat, found: bool, sub: Sub)
    requires 0 < taken <= |committed|
    requires Complete(env, committed, taken, Collecting(|committed[taken - 1].changes|, found), sub)
    ensures Complete(env, committed, taken, if found then Owed else Resting, sub)
  {
    var changes := committed[taken - 1].changes;
    if sub.registered && !sub.done && !found && sub.regAt < taken {
      assert changes[..|changes|] == changes;
      assert !Eligible(env, sub.channel, committed[taken - 1]);
      assert Settled(env, committed, sub.channel, sub.log, taken - 1);
    }
  }

  lemma CollectedSub(env: Env, committed: seq<Tx>, taken: nat, found: bool, sub: Sub)
    requires 0 < taken <= |committed|
    requires SubInv(env, committed, taken, Collecting(|committed[taken - 1].changes|, found), sub)
    ensures SubInv(env, committed, taken, if found then Owed else Resting, sub)
  {
    CollectedComplete(env, committed, taken, found, sub);
    assert LogInv(committed, taken - 1, sub);
    assert InHand(if found then Owed else Resting) == [];
  }

  lemma RecordPc(env: Env, s: State, tx: Tx)
    requires PcInv(s) && Enabled(env, s, Record(tx))
    ensures PcInv(Apply(env, s, Record(tx)))
    ensures s.taken <= |s.committed|
  {
  }

  lemma RecordInv(env: Env, s: State, tx: Tx)
    requires Inv(env, s) && Enabled(env, s, Record(tx))
    ensures Inv(env, Apply(env, s, Record(tx)))
  {
    var t := Apply(env, s, Record(tx));
    RecordPc(env, s, tx);
    forall id | id in s.subs && SubInv(env, s.committed, s.taken, TurnOf(s.pc, id), s.subs[id])
      ensures SubInv(env, t.committed, t.taken, TurnOf(t.pc, id), s.subs[id])
    {
      RecordedSub(env, s.committed, tx, s.taken, TurnOf(s.pc, id), s.subs[id]);
    }
    AllTurned(env, s, t);
  }

  lemma TakePc(env: Env, s: State)
    requires PcInv(s) && Enabled(env, s, Take)
    ensures PcInv(Apply(env, s, Take))
    ensures forall id :: TurnOf(s.pc, id) == Resting && TurnOf(Apply(env, s, Take).pc, id) == Collecting(0, false)
  {
  }

  lemma TakeInv(env: Env, s: State)
    requires Inv(env, s) && Enabled(env, s, Take)
    ensures Inv(env, Apply(env, s, Take))
  {
    TakePc(env, s);
    forall id | id in s.subs && SubInv(env, s.committed, s.taken, Resting, s.subs[id])
      ensures SubInv(env, s.committed, s.taken + 1, Collecting(0, false), s.subs[id])
    {
      TakenSub(env, s.committed, s.taken, s.subs[id]);
    }
    AllTurned(env, s, Apply(env, s, Take));
  }

  // Whether the subscriber is among those found so far.
  lemma MatchTurn(env: Env, s: State, id: SubId)
    requires Enabled(env, s, Match) && id in s.subs
    ensures var next, sub := s.pc.next, s.subs[id];
      && TurnOf(s.pc, id) == Collecting(next, id in s.pc.eligible)
      && TurnOf(DoMatch(env, s).pc, id)
         == Collecting(next + 1, id in s.pc.eligible
                                 || (sub.registered && env.finds(sub.channel, Current(s).changes[next])))
  {
  }

  lemma MatchInv(env: Env, s: State)
    requires Inv(env, s) && Enabled(env, s, Match)
    ensures Inv(env, Apply(env, s, Match))
  {
    MatchPc(env, s);
    forall id | id in s.subs && SubInv(env, s.committed, s.taken, TurnOf(s.pc, id), s.subs[id])
      ensures SubInv(env, s.committed, s.taken, TurnOf(DoMatch(env, s).pc, id), s.subs[id])
    {
      MatchTurn(env, s, id);
      MatchedSub(env, s.committed, s.taken, s.pc.next, id in s.pc.eligible, s.subs[id]);
    }
    AllTurned(env, s, DoMatch(env, s));
  }

  lemma MatchPc(env: Env, s: State)
    requires PcInv(s) && Enabled(env, s, Match)
    ensures PcInv(DoMatch(env, s))
  {
  }

  lemma BeginSub(env: Env, committed: seq<Tx>, taken: nat, n: nat, eligible: set<SubId>, id: SubId, sub: Sub)
    requires 0 < taken <= |committed| && n == |committed[taken - 1].changes|
    requires SubInv(env, committed, taken, TurnOf(Matching(n, eligible), id), sub)
    ensures SubInv(env, committed, taken, TurnOf(Dispatching(eligible), id), sub)
  {
    assert TurnOf(Matching(n, eligible), id) == Collecting(n, id in eligible);
    CollectedSub(env, committed, taken, id in eligible, sub);
  }

  lemma BeginInv(env: Env, s: State)
    requires Inv(env, s) && Enabled(env, s, BeginDispatch)
    ensures Inv(env, Apply(env, s, BeginDispatch))
  {
    forall id | id in s.subs && SubInv(env, s.committed, s.taken, TurnOf(s.pc, id), s.subs[id])
      ensures SubInv(env, s.committed, s.taken, TurnOf(Dispatching(s.pc.eligible), id), s.subs[id])
    {
      BeginSub(env, s.committed, s.taken, s.pc.next, s.pc.eligible, id, s.subs[id]);
    }
    AllTurned(env, s, Apply(env, s, BeginDispatch));
  }

  lemma SameTurns(p: SubPredicate, s: State, t: State)
    requires AllSubs(p, s)
    requires t.subs == s.subs && t.committed == s.committed && t.taken == s.taken
    requires forall id :: TurnOf(t.pc, id) == TurnOf(s.pc, id)
    ensures AllSubs(p, t)
  {
  }

  lemma SameTurnsInv(env: Env, s: State, step: Step)
    requires Inv(env, s) && Enabled(env, s, step) && (step.SlotCreated? || step.HandOff? || step.Finished?)
    ensures Inv(env, Apply(env, s, step))
  {
    SameTurns(InvOf(env), s, Apply(env, s, step));
  }

  lemma ProducedAppend(env: Env, ch: Channel, startLSN: LSN, log: seq<Entry>, e: Entry)
    ensures Produced(env, ch, startLSN, log + [e]) == Produced(env, ch, startLSN, log) + FramesOf(env, ch, startLSN, e)
  {
    assert (log + [e])[..|log|] == log;
  }

  lemma LoggedAppend(log: seq<Entry>, e: Entry, j: nat)
    ensures Logged(log + [e], j) <==> Logged(log, j) || e.index == j
  {
    if Logged(log, j) {
      var k :| 0 <= k < |log| && log[k].index == j;
      assert (log + [e])[k].index == j;
    }
    assert (log + [e])[|log|] == e;
  }

  lemma CheckedComplete(env: Env, committed: seq<Tx>, taken: nat, frames: seq<string>, sub: Sub, e: Entry)
    requires 0 < taken && e.index == taken - 1 && Complete(env, committed, taken, Owed, sub)
    ensures Complete(env, committed, taken, Holding(frames), sub.(log := sub.log + [e]))
  {
    forall j: nat
      ensures Settled(env, committed, sub.channel, sub.log, j) || j == taken - 1 ==>
                Settled(env, committed, sub.channel, sub.log + [e], j)
    {
      LoggedAppend(sub.log, e, j);
    }
  }

  lemma CheckedLog(committed: seq<Tx>, taken: nat, sub: Sub, e: Entry)
    requires 0 < taken <= |committed| && LogInv(committed, taken - 1, sub)
    requires e.index == taken - 1 && e.tx == committed[taken - 1] && |e.ws| == |e.tx.changes|
    ensures LogInv(committed, taken, sub.(log := sub.log + [e]))
  {
  }

  lemma CheckedConserves(env: Env, sub: Sub, e: Entry)
    requires Conserved(env, [], sub) && !sub.done
    ensures Conserved(env, FramesOf(env, sub.channel, sub.startLSN, e), sub.(log := sub.log + [e]))
  {
    ProducedAppend(env, sub.channel, sub.startLSN, sub.log, e);
    assert sub.lost == [];
    var all := Written(sub.out) + sub.discarded + sub.loop.Held() + sub.queue + [];
    assert all + [] == all;
  }

  lemma CheckedNoGaps(env: Env, committed: seq<Tx>, taken: nat, frames: seq<string>, sub: Sub, e: Entry)
    requires 0 < taken && e.index == taken - 1 && !sub.done
    requires Complete(env, committed, taken, Owed, sub) && NoGaps(env, committed, Owed, sub)
    ensures NoGaps(env, committed, Holding(frames), sub.(log := sub.log + [e]))
  {
    forall j: nat
      ensures Settled(env, committed, sub.channel, sub.log, j) ==>
                Settled(env, committed, sub.channel, sub.log + [e], j)
    {
      LoggedAppend(sub.log, e, j);
    }
    assert Filled(env, committed, sub.channel, sub.log, sub.regAt, e.index);
    forall k | 0 <= k < |sub.log| + 1
      ensures Filled(env, committed, sub.channel, sub.log + [e], sub.regAt, (sub.log + [e])[k].index)
    {
      assert k < |sub.log| ==> Filled(env, committed, sub.channel, sub.log, sub.regAt, sub.log[k].index);
    }
  }

  // A dispatch that passed the Done check settles the transaction; its frame, if
  // any, is in the router's hand.
  lemma CheckedSub(env: Env, committed: seq<Tx>, taken: nat, sub: Sub, ws: seq<Option<Whitelist>>)
    requires 0 < taken <= |committed| && |ws| == |committed[taken - 1].changes|
    requires SubInv(env, committed, taken, Owed, sub) && !sub.done
    ensures var e := Entry(taken - 1, committed[taken - 1], ws);
      SubInv(env, committed, taken, Holding(FramesOf(env, sub.channel, sub.startLSN, e)), sub.(log := sub.log + [e]))
  {
    var e := Entry(taken - 1, committed[taken - 1], ws);
    CheckedLog(committed, taken, sub, e);
    CheckedConserves(env, sub, e);
    CheckedComplete(env, committed, taken, FramesOf(env, sub.channel, sub.startLSN, e), sub, e);
    CheckedNoGaps(env, committed, taken, FramesOf(env, sub.channel, sub.startLSN, e), sub, e);
    CheckedRest(committed, sub, e);
  }

  lemma CheckedRest(committed: seq<Tx>, sub: Sub, e: Entry)
    ensures Ends(sub.(log := sub.log + [e])) <==> Ends(sub)
    ensures CutInv(committed, sub.(log := sub.log + [e])) <==> CutInv(committed, sub)
  {
  }

  lemma StoredSub(env: Env, committed: seq<Tx>, taken: nat, turn: Turn, sub: Sub, why: string)
    requires SubInv(env, committed, taken, turn, sub)
    ensures SubInv(env, committed, taken, turn, Stored(sub, why))
  {
  }

  // Holding no frame is resting.
  lemma EmptyHandSub(env: Env, committed: seq<Tx>, taken: nat, sub: Sub)
    requires SubInv(env, committed, taken, Holding([]), sub)
    ensures SubInv(env, committed, taken, Resting, sub)
  {
  }

  lemma SkippedSub(env: Env, committed: seq<Tx>, taken: nat, sub: Sub)
    requires SubInv(env, committed, taken, Owed, sub) && sub.done
    ensures SubInv(env, committed, taken, Resting, sub)
  {
    assert InHand(Owed) == InHand(Resting) && Due(Owed, taken) < Due(Resting, taken);
    assert LogInv(committed, Due(Resting, taken), sub);
    assert NoGaps(env, committed, Resting, sub);
  }

  lemma QueuedSub(env: Env, committed: seq<Tx>, taken: nat, sub: Sub, text: string)
    requires SubInv(env, committed, taken, Holding([text]), sub) && |sub.queue| < sub.cap
    ensures SubInv(env, committed, taken, Resting, sub.(queue := sub.queue + [text]))
  {
    assert sub.lost == [];
    var before := Written(sub.out) + sub.discarded + sub.loop.Held();
    assert before + sub.queue + [] + [text] == before + (sub.queue + [text]) + [] + [];
  }

  lemma LostConserves(env: Env, sub: Sub, refused: seq<string>)
    requires Conserved(env, refused, sub) && sub.done && sub.lost == []
    ensures Conserved(env, [], sub.(lost := sub.lost + refused))
  {
    var before := Written(sub.out) + sub.discarded + sub.loop.Held() + sub.queue;
    assert before + [] + refused == before + ([] + refused) + [];
  }

  lemma LostSub(env: Env, committed: seq<Tx>, taken: nat, sub: Sub, refused: seq<string>)
    requires SubInv(env, committed, taken, Holding(refused), sub) && sub.done && sub.lost == []
    ensures SubInv(env, committed, taken, Resting, sub.(lost := sub.lost + refused))
  {
    LostConserves(env, sub, refused);
  }

  lemma ActSub(env: Env, committed: seq<Tx>, taken: nat, outcome: Outcome, todo: set<SubId>, id: SubId, sub: Sub)
    requires SubInv(env, committed, taken, Holding(FrameIn(outcome)), sub) && id !in todo
    ensures var move := Act(outcome, todo, id, sub); SubInv(env, committed, taken, TurnOf(move.pc, id), move.sub)
  {
    var move := Act(outcome, todo, id, sub);
    if outcome.Skip? {
      EmptyHandSub(env, committed, taken, sub);
      assert TurnOf(move.pc, id) == Resting && move.sub == sub;
    } else {
      assert TurnOf(move.pc, id) == Holding(FrameIn(outcome));
      if outcome.TooLarge? {
        StoredSub(env, committed, taken, Holding([]), sub, "tx_too_large");
      }
    }
  }

  lemma DispatchSub(env: Env, committed: seq<Tx>, taken: nat, todo: set<SubId>, id: SubId, sub: Sub,
                    ws: seq<Option<Whitelist>>)
    requires 0 < taken <= |committed| && |ws| == |committed[taken - 1].changes| && id !in todo
    requires SubInv(env, committed, taken, Owed, sub)
    ensures var move := Dispatch(env, taken - 1, committed[taken - 1], todo, id, sub, ws);
      SubInv(env, committed, taken, TurnOf(move.pc, id), move.sub)
  {
    var tx := committed[taken - 1];
    if sub.done {
      SkippedSub(env, committed, taken, sub);
      assert TurnOf(Dispatching(todo), id) == Resting;
    } else {
      CheckedSub(env, committed, taken, sub, ws);
      ActSub(env, committed, taken, env.decide(sub.channel, sub.startLSN, ws, tx), todo, id,
             sub.(log := sub.log + [Entry(taken - 1, tx, ws)]));
    }
  }

  lemma CheckInv(env: Env, s: State, id: SubId, ws: seq<Option<Whitelist>>)
    requires Inv(env, s) && Enabled(env, s, Check(id, ws))
    ensures Inv(env, Moved(s, id, DoCheck(env, s, id, ws)))
  {
    SubAt(env, s, id);
    DispatchSub(env, s.committed, s.taken, s.pc.todo - {id}, id, s.subs[id], ws);
    CheckPc(env, s, id, ws);
    OneMovedInv(env, s, id, DoCheck(env, s, id, ws));
  }

  lemma CheckPc(env: Env, s: State, id: SubId, ws: seq<Option<Whitelist>>)
    requires PcInv(s) && Enabled(env, s, Check(id, ws))
    requires SubInv(env, s.committed, s.taken, TurnOf(s.pc, id), s.subs[id])
    ensures var move := DoCheck(env, s, id, ws);
      && PcInv(Moved(s, id, move))
      && forall j :: j in s.subs && j != id ==> TurnOf(move.pc, j) == TurnOf(s.pc, j)
  {
    CheckMove(env, s.taken - 1, Current(s), s.pc.todo - {id}, id, s.subs[id], ws);
    CheckedPc(s, id, DoCheck(env, s, id, ws));
  }

  // Where a dispatch can leave the router.
  ghost predicate Leads(move: Move, todo: set<SubId>, id: SubId) {
    || move.pc == Dispatching(todo)
    || (move.pc.Sending? && move.pc.todo == todo && move.pc.id == id)
    || (move.pc == InDrop(todo, id, []) && move.sub.reason.Some? && move.sub.lost == [])
  }

  lemma CheckMove(env: Env, index: nat, tx: Tx, todo: set<SubId>, id: SubId, sub: Sub, ws: seq<Option<Whitelist>>)
    requires sub.lost != [] ==> sub.done
    ensures Leads(Dispatch(env, index, tx, todo, id, sub, ws), todo, id)
  {
  }

  lemma CheckedPc(s: State, id: SubId, move: Move)
    requires PcInv(s) && s.pc.Dispatching? && id in s.pc.todo && Leads(move, s.pc.todo - {id}, id)
    ensures PcInv(Moved(s, id, move))
    ensures forall j :: j in s.subs && j != id ==> TurnOf(move.pc, j) == TurnOf(s.pc, j)
  {
  }

  lemma SendSub(env: Env, s: State)
    requires Enabled(env, s, Send) && SubInv(env, s.committed, s.taken, Holding([s.pc.text]), s.subs[s.pc.id])
    requires s.pc.id !in s.pc.todo
    ensures SubInv(env, s.committed, s.taken, TurnOf(DoSend(s).pc, s.pc.id), DoSend(s).sub)
  {
    var sub := s.subs[s.pc.id];
    if |sub.queue| < sub.cap {
      QueuedSub(env, s.committed, s.taken, sub, s.pc.text);
      assert TurnOf(DoSend(s).pc, s.pc.id) == Resting;
    } else {
      StoredSub(env, s.committed, s.taken, Holding([s.pc.text]), sub, "slow_consumer");
      assert TurnOf(DoSend(s).pc, s.pc.id) == Holding([s.pc.text]);
    }
  }

  lemma SendPc(env: Env, s: State)
    requires PcInv(s) && Enabled(env, s, Send)
    requires SubInv(env, s.committed, s.taken, TurnOf(s.pc, s.pc.id), s.subs[s.pc.id])
    ensures PcInv(Moved(s, s.pc.id, DoSend(s)))
    ensures forall j :: j in s.subs && j != s.pc.id ==> TurnOf(DoSend(s).pc, j) == TurnOf(s.pc, j)
  {
  }

  lemma SendInv(env: Env, s: State)
    requires Inv(env, s) && Enabled(env, s, Send)
    ensures Inv(env, Moved(s, s.pc.id, DoSend(s)))
  {
    SubAt(env, s, s.pc.id);
    SendSub(env, s);
    SendPc(env, s);
    OneMovedInv(env, s, s.pc.id, DoSend(s));
  }

  lemma DropReturnedPc(env: Env, s: State)
    requires PcInv(s) && Enabled(env, s, DropReturned)
    ensures PcInv(Moved(s, s.pc.id, DoDropReturned(s)))
    ensures forall j :: j in s.subs && j != s.pc.id ==> TurnOf(DoDropReturned(s).pc, j) == TurnOf(s.pc, j)
    ensures TurnOf(s.pc, s.pc.id) == Holding(s.pc.refused) && TurnOf(DoDropReturned(s).pc, s.pc.id) == Resting
  {
  }

  lemma DropReturnedInv(env: Env, s: State)
    requires Inv(env, s) && Enabled(env, s, DropReturned)
    ensures Inv(env, Moved(s, s.pc.id, DoDropReturned(s)))
  {
    DropReturnedPc(env, s);
    SubAt(env, s, s.pc.id);
    LostSub(env, s.committed, s.taken, s.subs[s.pc.id], s.pc.refused);
    OneMovedInv(env, s, s.pc.id, DoDropReturned(s));
  }

  // What a handshake leaves: nothing dispatched, nothing written, nothing owed.
  lemma NewSub(env: Env, committed: seq<Tx>, taken: nat, turn: Turn, sub: Sub)
    requires turn.Resting? || (turn.Collecting? && !turn.found)
    requires sub == Sub(sub.channel, sub.startLSN, sub.cap, false, None, false, [], Starting, [], sub.cut, 0,
                        [], [], [], 0, 0, false)
    requires sub.cap > 0 && CutInv(committed, sub)
    ensures SubInv(env, committed, taken, turn, sub)
  {
    assert Conserved(env, InHand(turn), sub);
  }

  lemma HandshakePc(env: Env, s: State, id: SubId, channel: Channel, since: Option<LSN>, cap: nat)
    requires PcInv(s) && Enabled(env, s, Handshake(id, channel, since, cap))
    ensures PcInv(DoHandshake(s, id, channel, since, cap))
    ensures TurnOf(s.pc, id).Resting? || (TurnOf(s.pc, id).Collecting? && !TurnOf(s.pc, id).found)
    ensures CutInv(s.committed, DoHandshake(s, id, channel, since, cap).subs[id])
  {
  }

  lemma HandshakeInv(env: Env, s: State, id: SubId, channel: Channel, since: Option<LSN>, cap: nat)
    requires Inv(env, s) && Enabled(env, s, Handshake(id, channel, since, cap))
    ensures Inv(env, DoHandshake(s, id, channel, since, cap))
  {
    HandshakePc(env, s, id, channel, since, cap);
    var sub := DoHandshake(s, id, channel, since, cap).subs[id];
    NewSub(env, s.committed, s.taken, TurnOf(s.pc, id), sub);
    OneMovedInv(env, s, id, Move(s.pc, sub));
    assert Moved(s, id, Move(s.pc, sub)) == DoHandshake(s, id, channel, since, cap);
  }

  lemma RouterStepInv(env: Env, s: State, step: Step)
    requires Inv(env, s) && Enabled(env, s, step) && !IsStreamStep(step)
    ensures Inv(env, Apply(env, s, step))
  {
    match step
    case Record(tx) => RecordInv(env, s, tx);
    case Take => TakeInv(env, s);
    case Match => MatchInv(env, s);
    case BeginDispatch => BeginInv(env, s);
    case Check(id, ws) => CheckInv(env, s, id, ws);
    case Send => SendInv(env, s);
    case DropReturned => DropReturnedInv(env, s);
    case Handshake(id, channel, since, cap) => HandshakeInv(env, s, id, channel, since, cap);
    case _ => SameTurnsInv(env, s, step);
  }

  lemma ApplyStream(env: Env, s: State, step: Step)
    requires Enabled(env, s, step) && IsStreamStep(step)
    ensures Apply(env, s, step) == Moved(s, step.id, Move(s.pc, StreamStep(env, s, step)))
  {
  }

  lemma StepInv(env: Env, s: State, step: Step)
    requires Inv(env, s) && Enabled(env, s, step)
    ensures Inv(env, Apply(env, s, step))
  {
    if IsStreamStep(step) {
      ApplyStream(env, s, step);
      StreamStepInv(env, s, step);
    } else {
      RouterStepInv(env, s, step);
    }
  }

  lemma {:induction false} RunInv(env: Env, steps: seq<Step>)
    requires Run(env, steps).Some?
    ensures Inv(env, Run(env, steps).value)
  {
    if steps != [] {
      var n := |steps| - 1;
      RunInv(env, steps[..n]);
      StepInv(env, Run(env, steps[..n]).value, steps[n]);
    }
  }
}
