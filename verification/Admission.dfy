/** Admission slots (internal/limits/limits.go) held across the handshake
    (internal/sse/auth.go:145-174, internal/sse/handler.go:154-179): the methods as one
    handler runs them, then any number of handlers interleaved. */
module Admission {
  import opened WalTypes

  // ----- One handler alone -----

  class Limits {
    const globalConcurrent: nat
    const perUserConcurrentMax: int
    // Tokens in the semaphore channel.
    var globalSem: nat
    var perUserConcurrent: map<string, int>

    constructor (globalConcurrent: nat, perUserConcurrentMax: int)
      ensures this.globalConcurrent == globalConcurrent && this.perUserConcurrentMax == perUserConcurrentMax
      ensures globalSem == 0 && perUserConcurrent == map[]
    {
      this.globalConcurrent, this.perUserConcurrentMax := globalConcurrent, perUserConcurrentMax;
      globalSem, perUserConcurrent := 0, map[];
    }

    ghost predicate Valid()
      reads this
    {
      globalSem <= globalConcurrent
    }

    function CountOf(user: string): int
      reads this
    {
      if user in perUserConcurrent then perUserConcurrent[user] else 0
    }

    method AcquireGlobal() returns (ok: bool)
      requires Valid()
      modifies this`globalSem
      ensures Valid() && (ok <==> old(globalSem) < globalConcurrent)
      ensures globalSem == old(globalSem) + if ok then 1 else 0
    {
      ok := globalSem < globalConcurrent;
      if ok {
        globalSem := globalSem + 1;
      }
    }

    method ReleaseGlobal()
      modifies this`globalSem
      ensures globalSem == if old(globalSem) > 0 then old(globalSem) - 1 else 0
    {
      if globalSem > 0 {
        globalSem := globalSem - 1;
      }
    }

    method AcquirePerUser(user: string) returns (ok: bool, count: int)
      modifies this`perUserConcurrent
      ensures ok <==> old(CountOf(user)) < perUserConcurrentMax
      ensures CountOf(user) == count == old(CountOf(user)) + if ok then 1 else 0
      ensures forall u :: u != user ==> CountOf(u) == old(CountOf(u))
      ensures perUserConcurrent.Keys == old(perUserConcurrent.Keys) + {user}
    {
      var n := CountOf(user) + 1;
      perUserConcurrent := perUserConcurrent[user := n];
      if n > perUserConcurrentMax {
        perUserConcurrent := perUserConcurrent[user := n - 1];
        return false, n - 1;
      }
      return true, n;
    }

    method ReleasePerUser(user: string)
      modifies this`perUserConcurrent
      ensures perUserConcurrent.Keys == old(perUserConcurrent.Keys)
      ensures CountOf(user) == old(CountOf(user)) - if user in old(perUserConcurrent) then 1 else 0
      ensures forall u :: u != user ==> CountOf(u) == old(CountOf(u))
    {
      if user !in perUserConcurrent {
        return;
      }
      perUserConcurrent := perUserConcurrent[user := perUserConcurrent[user] - 1];
    }
  }

  datatype HandshakeResult = HandshakeResult(userID: string, globalAcquired: bool, perUserAcquired: bool)

  // authenticated is the user the backend names, None when it refuses; tableGranted
  // says that the grant holds the channel's table.
  method RunHandshake(limits: Limits, authenticated: Option<string>, tableGranted: bool)
    returns (res: HandshakeResult, ok: bool)
    requires limits.Valid()
    modifies limits
    ensures limits.Valid()
    ensures ok <==> old(limits.globalSem) < limits.globalConcurrent && authenticated.Some?
                    && old(limits.CountOf(authenticated.value)) < limits.perUserConcurrentMax && tableGranted
    ensures ok ==> res.globalAcquired && res.perUserAcquired && res.userID == authenticated.value
    ensures limits.globalSem == old(limits.globalSem) + if res.globalAcquired then 1 else 0
    ensures forall u ::
      limits.CountOf(u) == old(limits.CountOf(u)) + if res.perUserAcquired && u == res.userID then 1 else 0
    ensures res.perUserAcquired ==> res.userID in limits.perUserConcurrent
  {
    res := HandshakeResult("", false, false);
    ok := limits.AcquireGlobal();
    if !ok {
      return;
    }
    res := res.(globalAcquired := true);
    if authenticated.None? {
      ok := false;
      return;
    }
    res := res.(userID := authenticated.value);
    var count;
    ok, count := limits.AcquirePerUser(res.userID);
    if !ok {
      return;
    }
    res := res.(perUserAcquired := true);
    ok := tableGranted;
  }

  /** Every exit path of a handler gives back exactly the slots it took. */
  method RunHandshakeAndWriter(limits: Limits, authenticated: Option<string>, tableGranted: bool)
    returns (streamed: bool)
    requires limits.Valid()
    modifies limits
    ensures streamed <==> old(limits.globalSem) < limits.globalConcurrent && authenticated.Some?
                          && old(limits.CountOf(authenticated.value)) < limits.perUserConcurrentMax && tableGranted
    ensures limits.Valid() && limits.globalSem == old(limits.globalSem)
    ensures forall u :: limits.CountOf(u) == old(limits.CountOf(u))
  {
    var hs, ok := RunHandshake(limits, authenticated, tableGranted);
    streamed := ok;
    // The deferred releases.
    if hs.globalAcquired {
      limits.ReleaseGlobal();
    }
    if hs.perUserAcquired {
      limits.ReleasePerUser(hs.userID);
    }
  }

  // ----- Many handlers -----

  type HandlerId = nat

  // Where a handler stands; each arrow between two of them is one atomic access.
  datatype Handler =
    | Arrived
    | HoldsGlobal
    | Authenticated(user: string)
    // Counted itself above the cap and has to take the count back.
    | BackingOut(user: string)
    | Admitted(user: string)
    | Streaming(user: string)
    | Releasing(acquired: Option<string>)
    | ReleasingUser(user: string)
    | Gone
  {
    predicate HasGlobal() {
      !Arrived? && !ReleasingUser? && !Gone?
    }

    // The user's counter includes this handler.
    predicate CountedFor(u: string) {
      HasSlot(u) || (BackingOut? && user == u)
    }

    predicate HasSlot(u: string) {
      match this
      case Admitted(user) => user == u
      case Streaming(user) => user == u
      case Releasing(acquired) => acquired == Some(u)
      case ReleasingUser(user) => user == u
      case _ => false
    }
  }

  datatype State = State(global: nat, users: map<string, int>, handlers: map<HandlerId, Handler>)

  const Init := State(0, map[], map[])

  datatype Step =
    | Arrive(id: HandlerId)
    | TakeGlobal(id: HandlerId)
    | Authenticate(id: HandlerId, user: Option<string>)
    | AddUser(id: HandlerId)
    | TakeBack(id: HandlerId)
    | CheckTable(id: HandlerId, granted: bool)
    | EndStream(id: HandlerId)
    | GiveGlobal(id: HandlerId)
    | GiveUser(id: HandlerId)

  datatype Caps = Caps(global: nat, perUser: int)

  function UserCount(users: map<string, int>, u: string): int {
    if u in users then users[u] else 0
  }

  predicate Ready(h: Handler, step: Step) {
    match step
    case Arrive(_) => false
    case TakeGlobal(_) => h.Arrived?
    case Authenticate(_, _) => h.HoldsGlobal?
    case AddUser(_) => h.Authenticated?
    case TakeBack(_) => h.BackingOut?
    case CheckTable(_, _) => h.Admitted?
    case EndStream(_) => h.Streaming?
    case GiveGlobal(_) => h.Releasing?
    case GiveUser(_) => h.ReleasingUser?
  }

  predicate Enabled(s: State, step: Step) {
    if step.id in s.handlers then Ready(s.handlers[step.id], step) else step.Arrive?
  }

  function Moved(s: State, id: HandlerId, h: Handler): State {
    s.(handlers := s.handlers[id := h])
  }

  function DoAddUser(caps: Caps, s: State, id: HandlerId, user: string): State {
    var n := UserCount(s.users, user) + 1;
    Moved(s, id, if n > caps.perUser then BackingOut(user) else Admitted(user)).(users := s.users[user := n])
  }

  function Apply(caps: Caps, s: State, step: Step): State
    requires Enabled(s, step)
  {
    match step
    case Arrive(id) => Moved(s, id, Arrived)
    case TakeGlobal(id) =>
      if s.global < caps.global then Moved(s, id, HoldsGlobal).(global := s.global + 1) else Moved(s, id, Gone)
    case Authenticate(id, user) => Moved(s, id, if user.Some? then Authenticated(user.value) else Releasing(None))
    case AddUser(id) => DoAddUser(caps, s, id, s.handlers[id].user)
    case TakeBack(id) =>
      var u := s.handlers[id].user;
      Moved(s, id, Releasing(None)).(users := s.users[u := UserCount(s.users, u) - 1])
    case CheckTable(id, granted) =>
      var u := s.handlers[id].user;
      Moved(s, id, if granted then Streaming(u) else Releasing(Some(u)))
    case EndStream(id) => Moved(s, id, Releasing(Some(s.handlers[id].user)))
    case GiveGlobal(id) =>
      var a := s.handlers[id].acquired;
      Moved(s, id, if a.Some? then ReleasingUser(a.value) else Gone)
        .(global := if s.global > 0 then s.global - 1 else 0)
    case GiveUser(id) =>
      var u := s.handlers[id].user;
      Moved(s, id, Gone).(users := if u in s.users then s.users[u := s.users[u] - 1] else s.users)
  }

  // The state after a run, if every step of it is enabled when taken.
  function Run(caps: Caps, steps: seq<Step>): Option<State> {
    if steps == [] then Some(Init)
    else
      var before := Run(caps, steps[..|steps| - 1]);
      var step := steps[|steps| - 1];
      if before.Some? && Enabled(before.value, step) then Some(Apply(caps, before.value, step)) else None
  }

  function GlobalHolders(handlers: map<HandlerId, Handler>): set<HandlerId> {
    set id | id in handlers && handlers[id].HasGlobal()
  }

  function Counted(handlers: map<HandlerId, Handler>, u: string): set<HandlerId> {
    set id | id in handlers && handlers[id].CountedFor(u)
  }

  function SlotHolders(handlers: map<HandlerId, Handler>, u: string): set<HandlerId> {
    set id | id in handlers && handlers[id].HasSlot(u)
  }

  // Counters equal the handlers behind them, and the caps hold.
  ghost predicate Inv(caps: Caps, s: State) {
    && s.global == |GlobalHolders(s.handlers)| <= caps.global
    && (forall u :: UserCount(s.users, u) == |Counted(s.handlers, u)|)
    && (forall u :: SlotHolders(s.handlers, u) != {} ==> |SlotHolders(s.handlers, u)| <= caps.perUser)
  }

  lemma GlobalMoved(handlers: map<HandlerId, Handler>, id: HandlerId, h: Handler)
    ensures var holders, had := GlobalHolders(handlers), id in handlers && handlers[id].HasGlobal();
      |GlobalHolders(handlers[id := h])| == |holders| + (if h.HasGlobal() then 1 else 0) - (if had then 1 else 0)
  {
    var others := GlobalHolders(handlers) - {id};
    assert GlobalHolders(handlers[id := h]) == if h.HasGlobal() then others + {id} else others;
    assert GlobalHolders(handlers) == if id in handlers && handlers[id].HasGlobal() then others + {id} else others;
  }

  lemma CountedMoved(handlers: map<HandlerId, Handler>, id: HandlerId, h: Handler, u: string)
    ensures var had := id in handlers && handlers[id].CountedFor(u);
      |Counted(handlers[id := h], u)|
      == |Counted(handlers, u)| + (if h.CountedFor(u) then 1 else 0) - (if had then 1 else 0)
  {
    var others := Counted(handlers, u) - {id};
    assert Counted(handlers[id := h], u) == if h.CountedFor(u) then others + {id} else others;
    assert Counted(handlers, u) == if id in handlers && handlers[id].CountedFor(u) then others + {id} else others;
  }

  lemma SlotsMoved(handlers: map<HandlerId, Handler>, id: HandlerId, h: Handler, u: string)
    ensures !h.HasSlot(u) ==> SlotHolders(handlers[id := h], u) <= SlotHolders(handlers, u)
    ensures h.HasSlot(u) && id in handlers && handlers[id].HasSlot(u) ==>
              SlotHolders(handlers[id := h], u) == SlotHolders(handlers, u)
    ensures SlotHolders(handlers[id := h], u) <= Counted(handlers[id := h], u)
  {
  }

  lemma Smaller<T>(a: set<T>, b: set<T>)
    requires a <= b
    ensures |a| <= |b|
  {
    if a != b {
      assert b == a + (b - a);
    }
  }

  lemma GlobalKept(caps: Caps, s: State, step: Step)
    requires Inv(caps, s) && Enabled(s, step)
    ensures var t := Apply(caps, s, step); t.global == |GlobalHolders(t.handlers)| <= caps.global
  {
    var t := Apply(caps, s, step);
    GlobalMoved(s.handlers, step.id, t.handlers[step.id]);
    if step.GiveGlobal? {
      assert step.id in GlobalHolders(s.handlers);
    }
  }

  lemma UserKept(caps: Caps, s: State, step: Step, u: string)
    requires Inv(caps, s) && Enabled(s, step)
    ensures var t := Apply(caps, s, step); UserCount(t.users, u) == |Counted(t.handlers, u)|
  {
    var t := Apply(caps, s, step);
    CountedMoved(s.handlers, step.id, t.handlers[step.id], u);
    if step.GiveUser? && s.handlers[step.id].user == u {
      assert step.id in Counted(s.handlers, u);
    }
  }

  lemma SlotsKept(caps: Caps, s: State, step: Step, u: string)
    requires Inv(caps, s) && Enabled(s, step)
    ensures var t := Apply(caps, s, step);
      SlotHolders(t.handlers, u) != {} ==> |SlotHolders(t.handlers, u)| <= caps.perUser
  {
    var t := Apply(caps, s, step);
    var h := t.handlers[step.id];
    SlotsMoved(s.handlers, step.id, h, u);
    Smaller(SlotHolders(t.handlers, u), Counted(t.handlers, u));
    if !h.HasSlot(u) {
      Smaller(SlotHolders(t.handlers, u), SlotHolders(s.handlers, u));
      assert SlotHolders(t.handlers, u) != {} ==> SlotHolders(s.handlers, u) != {};
    } else if step.id in s.handlers && s.handlers[step.id].HasSlot(u) {
      assert SlotHolders(t.handlers, u) == SlotHolders(s.handlers, u);
    } else if step.AddUser? {
      UserKept(caps, s, step, u);
    }
  }

  lemma StepInv(caps: Caps, s: State, step: Step)
    requires Inv(caps, s) && Enabled(s, step)
    ensures Inv(caps, Apply(caps, s, step))
  {
    var t := Apply(caps, s, step);
    GlobalKept(caps, s, step);
    forall u
      ensures UserCount(t.users, u) == |Counted(t.handlers, u)|
      ensures SlotHolders(t.handlers, u) != {} ==> |SlotHolders(t.handlers, u)| <= caps.perUser
    {
      UserKept(caps, s, step, u);
      SlotsKept(caps, s, step, u);
    }
  }

  lemma {:induction false} RunInv(caps: Caps, steps: seq<Step>)
    requires Run(caps, steps).Some?
    ensures Inv(caps, Run(caps, steps).value)
  {
    if steps != [] {
      var before, last := steps[..|steps| - 1], steps[|steps| - 1];
      RunInv(caps, before);
      StepInv(caps, Run(caps, before).value, last);
    }
  }

  function Streams(handlers: map<HandlerId, Handler>): set<HandlerId> {
    set id | id in handlers && handlers[id].Streaming?
  }

  function StreamsOf(handlers: map<HandlerId, Handler>, u: string): set<HandlerId> {
    set id | id in handlers && handlers[id] == Streaming(u)
  }

  /** Admission bound: in every interleaving, streams never exceed the global cap, nor
      those of one user the per-user cap. */
  lemma StreamsWithinCaps(caps: Caps, steps: seq<Step>, u: string)
    requires Run(caps, steps).Some?
    ensures var s := Run(caps, steps).value;
      && |Streams(s.handlers)| <= caps.global
      && (StreamsOf(s.handlers, u) != {} ==> |StreamsOf(s.handlers, u)| <= caps.perUser)
  {
    var s := Run(caps, steps).value;
    RunInv(caps, steps);
    Smaller(Streams(s.handlers), GlobalHolders(s.handlers));
    Smaller(StreamsOf(s.handlers, u), SlotHolders(s.handlers, u));
    if id :| id in StreamsOf(s.handlers, u) {
      assert id in SlotHolders(s.handlers, u);
    }
  }

  /** Conservation: a counter is zero when no handler that took from it is left, and
      all are zero once every handler is gone. */
  lemma SlotsAreConserved(caps: Caps, steps: seq<Step>)
    requires Run(caps, steps).Some?
    ensures var s := Run(caps, steps).value;
      && s.global == |GlobalHolders(s.handlers)|
      && (forall u :: UserCount(s.users, u) == |Counted(s.handlers, u)|)
      && ((forall id :: id in s.handlers ==> s.handlers[id].Gone?) ==>
            s.global == 0 && forall u :: UserCount(s.users, u) == 0)
  {
    var s := Run(caps, steps).value;
    RunInv(caps, steps);
    if forall id :: id in s.handlers ==> s.handlers[id].Gone? {
      assert GlobalHolders(s.handlers) == {};
      forall u
        ensures Counted(s.handlers, u) == {}
      {
      }
    }
  }

  /** A user is refused exactly when admitted handlers and those still backing out
      reach the cap; with none backing out, exactly when admitted ones do. */
  lemma RefusalIsExact(caps: Caps, steps: seq<Step>, id: HandlerId)
    requires Run(caps, steps).Some? && Enabled(Run(caps, steps).value, AddUser(id))
    ensures var s := Run(caps, steps).value;
      var u := s.handlers[id].user;
      var refused := Apply(caps, s, AddUser(id)).handlers[id].BackingOut?;
      && (refused <==> |Counted(s.handlers, u)| >= caps.perUser)
      && ((forall j :: j in s.handlers ==> s.handlers[j] != BackingOut(u)) ==>
            (refused <==> |SlotHolders(s.handlers, u)| >= caps.perUser))
  {
    var s := Run(caps, steps).value;
    var u := s.handlers[id].user;
    RunInv(caps, steps);
    if forall j :: j in s.handlers ==> s.handlers[j] != BackingOut(u) {
      assert SlotHolders(s.handlers, u) == Counted(s.handlers, u);
    }
  }

  // ----- A refusal below the cap -----

  lemma Then(caps: Caps, steps: seq<Step>, s: State, step: Step) returns (t: seq<Step>, s': State)
    requires Run(caps, steps) == Some(s) && Enabled(s, step)
    ensures s' == Apply(caps, s, step) && Run(caps, t) == Some(s')
  {
    t, s' := steps + [step], Apply(caps, s, step);
    assert t[..|t| - 1] == steps;
  }

  lemma Enter(caps: Caps, steps: seq<Step>, s: State, id: HandlerId, user: string) returns (t: seq<Step>, s': State)
    requires Run(caps, steps) == Some(s) && id !in s.handlers && s.global < caps.global
    ensures Run(caps, t) == Some(s')
    ensures s' == State(s.global + 1, s.users, s.handlers[id := Authenticated(user)])
  {
    t, s' := Then(caps, steps, s, Arrive(id));
    t, s' := Then(caps, t, s', TakeGlobal(id));
    t, s' := Then(caps, t, s', Authenticate(id, Some(user)));
  }

  lemma Leave(caps: Caps, steps: seq<Step>, s: State, id: HandlerId) returns (t: seq<Step>, s': State)
    requires Run(caps, steps) == Some(s) && id in s.handlers && s.handlers[id].Admitted?
    requires s.global > 0 && s.handlers[id].user in s.users
    ensures Run(caps, t) == Some(s')
    ensures var u := s.handlers[id].user;
      s' == State(s.global - 1, s.users[u := s.users[u] - 1], s.handlers[id := Gone])
  {
    t, s' := Then(caps, steps, s, CheckTable(id, false));
    t, s' := Then(caps, t, s', GiveGlobal(id));
    t, s' := Then(caps, t, s', GiveUser(id));
  }

  // One handler admitted, a second one counted above the cap.
  lemma OneBacksOut(user: string) returns (steps: seq<Step>, s: State)
    ensures Run(Caps(3, 1), steps) == Some(s)
    ensures s.global == 2 && UserCount(s.users, user) == 2 && s.handlers.Keys == {0, 1}
    ensures s.handlers[0] == Admitted(user) && s.handlers[1] == BackingOut(user)
  {
    var caps := Caps(3, 1);
    assert Run(caps, []) == Some(Init);
    steps, s := Enter(caps, [], Init, 0, user);
    steps, s := Then(caps, steps, s, AddUser(0));
    steps, s := Enter(caps, steps, s, 1, user);
    steps, s := Then(caps, steps, s, AddUser(1));
  }

  /** With a cap of one a user can be refused while holding no slot at all: a second
      handler has counted itself and not yet taken the count back. */
  lemma SpuriousRefusal(user: string) returns (steps: seq<Step>, s: State)
    ensures Run(Caps(3, 1), steps) == Some(s) && Enabled(s, AddUser(2)) && s.handlers[2].user == user
    ensures SlotHolders(s.handlers, user) == {}
    ensures Apply(Caps(3, 1), s, AddUser(2)).handlers[2].BackingOut?
  {
    steps, s := OneBacksOut(user);
    steps, s := Leave(Caps(3, 1), steps, s, 0);
    steps, s := Enter(Caps(3, 1), steps, s, 2, user);
  }
}
