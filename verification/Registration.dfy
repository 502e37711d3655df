/** Register, Deregister and Shutdown of any number of handlers, interleaved
    (internal/router/router.go:57-112, 321-330; internal/sse/stream.go:159-222). An index
    access, a gauge access and an access to the closed flag are steps of their own. */
module Registration {
  import opened WalTypes

  type SubId = nat

  // How far a handler has come: into its index, counted, past the closed check, and
  // after the stream out of the index and uncounted.
  datatype Stage =
    | Before
    | Added
    | Counted
    | Seen(closed: bool)
    | Live
    | Exiting
    | Removed
    | Gone
  {
    predicate Indexed() {
      Added? || Counted? || Seen? || Live? || Exiting?
    }

    predicate InGauge() {
      Counted? || Seen? || Live? || Exiting? || Removed?
    }
  }

  // isExact tells a row subscriber from a table subscriber.
  datatype Handler = Handler(isExact: bool, stage: Stage)

  type Handlers = map<SubId, Handler>

  datatype Shutdown =
    | Running
    | Closed
    | ExactSeen(pending: set<SubId>)
    | Dropping(pending: set<SubId>)
    | Done

  datatype State = State(
    handlers: Handlers,
    index: set<SubId>,
    exactActive: int,
    wildcardActive: int,
    dropped: set<SubId>,
    closed: bool,
    shutdown: Shutdown)

  const Init := State(map[], {}, 0, 0, {}, false, Running)

  datatype Step =
    | Arrive(id: SubId, isExact: bool)
    | AddToIndex(id: SubId)
    | IncGauge(id: SubId)
    | LoadClosed(id: SubId)
    | FinishRegister(id: SubId)
    | Drop(id: SubId)
    | DropAndExit(id: SubId)
    | SeeDone(id: SubId)
    | RemoveFromIndex(id: SubId)
    | DecGauge(id: SubId)
    | Closing(c: CloseStep)

  datatype CloseStep =
    | StoreClosed
    | SnapshotExact
    | SnapshotWildcard
    | DropNext(id: SubId)
    | Return

  ghost predicate CloseEnabled(s: State, c: CloseStep) {
    match c
    case StoreClosed => s.shutdown.Running?
    case SnapshotExact => s.shutdown.Closed?
    case SnapshotWildcard => s.shutdown.ExactSeen?
    case DropNext(id) => s.shutdown.Dropping? && id in s.shutdown.pending
    case Return => s.shutdown.Dropping? && s.shutdown.pending == {}
  }

  ghost predicate At(s: State, id: SubId, stage: Stage) {
    id in s.handlers && s.handlers[id].stage == stage
  }

  ghost predicate Enabled(s: State, step: Step) {
    match step
    case Arrive(id, _) => id !in s.handlers
    case AddToIndex(id) => At(s, id, Before)
    case IncGauge(id) => At(s, id, Added)
    case LoadClosed(id) => At(s, id, Counted)
    case FinishRegister(id) => id in s.handlers && s.handlers[id].stage.Seen?
    // Anyone may drop a subscriber at any time.
    case Drop(id) => id in s.handlers
    // The stream ends on a failed write or a gone client, after dropping the
    // subscriber itself, or once it sees Done closed.
    case DropAndExit(id) => At(s, id, Live)
    case SeeDone(id) => At(s, id, Live) && id in s.dropped
    case RemoveFromIndex(id) => At(s, id, Exiting)
    case DecGauge(id) => At(s, id, Removed)
    case Closing(c) => CloseEnabled(s, c)
  }

  ghost function Moved(s: State, id: SubId, stage: Stage): State
    requires id in s.handlers
  {
    s.(handlers := s.handlers[id := s.handlers[id].(stage := stage)])
  }

  ghost function Counting(s: State, isExact: bool, n: int): State {
    if isExact then s.(exactActive := s.exactActive + n) else s.(wildcardActive := s.wildcardActive + n)
  }

  ghost function OfKind(s: State, isExact: bool): set<SubId> {
    set id | id in s.index && id in s.handlers && s.handlers[id].isExact == isExact
  }

  ghost function Close(s: State, c: CloseStep): State
    requires CloseEnabled(s, c)
  {
    match c
    case StoreClosed => s.(closed := true, shutdown := Closed)
    case SnapshotExact => s.(shutdown := ExactSeen(OfKind(s, true)))
    case SnapshotWildcard => s.(shutdown := Dropping(s.shutdown.pending + OfKind(s, false)))
    case DropNext(id) => s.(dropped := s.dropped + {id}, shutdown := Dropping(s.shutdown.pending - {id}))
    case Return => s.(shutdown := Done)
  }

  ghost function Apply(s: State, step: Step): State
    requires Enabled(s, step)
  {
    match step
    case Arrive(id, isExact) => s.(handlers := s.handlers[id := Handler(isExact, Before)])
    case AddToIndex(id) => Moved(s, id, Added).(index := s.index + {id})
    case IncGauge(id) => Counting(Moved(s, id, Counted), s.handlers[id].isExact, 1)
    case LoadClosed(id) => Moved(s, id, Seen(s.closed))
    case FinishRegister(id) =>
      Moved(s, id, Live).(dropped := if s.handlers[id].stage.closed then s.dropped + {id} else s.dropped)
    case Drop(id) => s.(dropped := s.dropped + {id})
    case DropAndExit(id) => Moved(s, id, Exiting).(dropped := s.dropped + {id})
    case SeeDone(id) => Moved(s, id, Exiting)
    case RemoveFromIndex(id) => Moved(s, id, Removed).(index := s.index - {id})
    case DecGauge(id) => Counting(Moved(s, id, Gone), s.handlers[id].isExact, -1)
    case Closing(c) => Close(s, c)
  }

  // The state after a run, if every step of it is enabled when taken.
  ghost function Run(steps: seq<Step>): Option<State> {
    if steps == [] then Some(Init)
    else
      var before := Run(steps[..|steps| - 1]);
      var step := steps[|steps| - 1];
      if before.Some? && Enabled(before.value, step) then Some(Apply(before.value, step)) else None
  }

  // ----- Shutdown misses nobody -----

  // Shutdown's snapshots have covered id, or still will.
  ghost predicate Covered(s: State, id: SubId)
    requires id in s.handlers
  {
    match s.shutdown
    case Running => true
    case Closed => true
    case ExactSeen(pending) => s.handlers[id].isExact ==> id in pending
    case Dropping(pending) => id in pending
    case Done => false
  }

  ghost predicate Safe(s: State, id: SubId)
    requires id in s.handlers
  {
    var stage := s.handlers[id].stage;
    && (id in s.index <==> stage.Indexed())
    // A stream ends, and leaves its index, only after a drop.
    && (stage.Exiting? || stage.Removed? || stage.Gone? ==> id in s.dropped)
    // Past its closed check without having seen it set: a snapshot must catch it.
    && ((stage.Live? || stage == Seen(false)) && id !in s.dropped ==> Covered(s, id))
  }

  ghost predicate AllSafe(s: State) {
    && s.index <= s.handlers.Keys
    && (s.closed <==> !s.shutdown.Running?)
    && forall id :: id in s.handlers ==> Safe(s, id)
  }

  lemma CloseSafe(s: State, c: CloseStep)
    requires AllSafe(s) && CloseEnabled(s, c)
    ensures AllSafe(Close(s, c))
  {
    var t := Close(s, c);
    forall id | id in t.handlers
      ensures Safe(t, id)
    {
      assert Safe(s, id);
    }
  }

  lemma HandlerSafe(s: State, step: Step)
    requires AllSafe(s) && Enabled(s, step) && !step.Closing?
    ensures AllSafe(Apply(s, step))
  {
    var t := Apply(s, step);
    forall id | id in t.handlers
      ensures Safe(t, id)
    {
      if id in s.handlers {
        assert Safe(s, id);
      }
    }
  }

  // ----- The gauges -----

  ghost function Gauge(s: State, isExact: bool): int {
    if isExact then s.exactActive else s.wildcardActive
  }

  ghost function InGauge(handlers: Handlers, isExact: bool): set<SubId> {
    set id | id in handlers && handlers[id].isExact == isExact && handlers[id].stage.InGauge()
  }

  ghost predicate GaugesCount(s: State) {
    Gauge(s, true) == |InGauge(s.handlers, true)| && Gauge(s, false) == |InGauge(s.handlers, false)|
  }

  ghost function Weight(handlers: Handlers, id: SubId, isExact: bool): int {
    if id in handlers && handlers[id].isExact == isExact && handlers[id].stage.InGauge() then 1 else 0
  }

  lemma GaugeMoved(handlers: Handlers, id: SubId, h: Handler, isExact: bool)
    ensures |InGauge(handlers[id := h], isExact)|
         == |InGauge(handlers, isExact)| + Weight(handlers[id := h], id, isExact) - Weight(handlers, id, isExact)
  {
    var others := InGauge(handlers, isExact) - {id};
    Apart(handlers, id, isExact);
    Apart(handlers[id := h], id, isExact);
    assert InGauge(handlers[id := h], isExact) - {id} == others;
  }

  lemma Apart(handlers: Handlers, id: SubId, isExact: bool)
    ensures |InGauge(handlers, isExact)| == |InGauge(handlers, isExact) - {id}| + Weight(handlers, id, isExact)
  {
    var all := InGauge(handlers, isExact);
    if Weight(handlers, id, isExact) == 1 {
      assert all == (all - {id}) + {id};
    } else {
      assert all == all - {id};
    }
  }

  lemma GaugesStep(s: State, step: Step)
    requires GaugesCount(s) && Enabled(s, step)
    ensures GaugesCount(Apply(s, step))
  {
    var t := Apply(s, step);
    if !step.Closing? && !step.Drop? {
      GaugeMoved(s.handlers, step.id, t.handlers[step.id], true);
      GaugeMoved(s.handlers, step.id, t.handlers[step.id], false);
      assert t.handlers == s.handlers[step.id := t.handlers[step.id]];
    }
  }

  // ----- Every run -----

  lemma StepInv(s: State, step: Step)
    requires AllSafe(s) && GaugesCount(s) && Enabled(s, step)
    ensures AllSafe(Apply(s, step)) && GaugesCount(Apply(s, step))
  {
    GaugesStep(s, step);
    if step.Closing? {
      CloseSafe(s, step.c);
    } else {
      HandlerSafe(s, step);
    }
  }

  lemma {:induction false} RunInv(steps: seq<Step>)
    requires Run(steps).Some?
    ensures AllSafe(Run(steps).value) && GaugesCount(Run(steps).value)
  {
    if steps != [] {
      var n := |steps| - 1;
      RunInv(steps[..n]);
      StepInv(Run(steps[..n]).value, steps[n]);
    }
  }

  /** Once Register and Shutdown have both returned, the subscriber is dropped, in
      every interleaving of any number of handlers; and it leaves its index only
      after a drop. */
  lemma NobodySurvivesShutdown(steps: seq<Step>, id: SubId)
    requires Run(steps).Some? && id in Run(steps).value.handlers
    ensures var s := Run(steps).value;
      var stage := s.handlers[id].stage;
      && (s.shutdown.Done? && (stage.Live? || stage.Exiting? || stage.Removed? || stage.Gone?) ==> id in s.dropped)
      && (id !in s.index && !stage.Before? ==> id in s.dropped)
  {
    RunInv(steps);
    assert Safe(Run(steps).value, id);
  }

  ghost function AtStage(s: State, isExact: bool, stage: Stage): set<SubId> {
    set id | id in s.handlers && s.handlers[id] == Handler(isExact, stage)
  }

  lemma GaugeParts(s: State, isExact: bool)
    requires AllSafe(s)
    ensures InGauge(s.handlers, isExact)
         == (OfKind(s, isExact) - AtStage(s, isExact, Added)) + AtStage(s, isExact, Removed)
    ensures AtStage(s, isExact, Added) <= OfKind(s, isExact) && OfKind(s, isExact) !! AtStage(s, isExact, Removed)
  {
    forall id | id in s.handlers
      ensures id in s.index <==> s.handlers[id].stage.Indexed()
    {
      assert Safe(s, id);
    }
  }

  lemma PartSizes<T>(whole: set<T>, indexed: set<T>, added: set<T>, removed: set<T>)
    requires whole == (indexed - added) + removed && added <= indexed && indexed !! removed
    ensures |whole| == |indexed| - |added| + |removed|
  {
    assert indexed == (indexed - added) + added;
  }

  /** In every interleaving a gauge is the length of its index, less the subscribers
      added and not counted yet, plus those removed and not uncounted yet; so they are
      equal whenever no Register or Deregister is between its two accesses. */
  lemma GaugesMatchIndexes(steps: seq<Step>, isExact: bool)
    requires Run(steps).Some?
    ensures var s := Run(steps).value;
      && Gauge(s, isExact) == |OfKind(s, isExact)| - |AtStage(s, isExact, Added)| + |AtStage(s, isExact, Removed)|
      && ((forall id :: id in s.handlers ==> !s.handlers[id].stage.Added? && !s.handlers[id].stage.Removed?) ==>
            Gauge(s, isExact) == |OfKind(s, isExact)|)
  {
    var s := Run(steps).value;
    RunInv(steps);
    GaugeParts(s, isExact);
    var indexed, added, removed := OfKind(s, isExact), AtStage(s, isExact, Added), AtStage(s, isExact, Removed);
    PartSizes(InGauge(s.handlers, isExact), indexed, added, removed);
    if forall id :: id in s.handlers ==> !s.handlers[id].stage.Added? && !s.handlers[id].stage.Removed? {
      assert added == {} && removed == {};
    }
  }
}
