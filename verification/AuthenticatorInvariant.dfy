/** What every step of the token protocol keeps. */
module AuthenticatorInvariant {
  import opened Strings
  import opened Authenticator

  // ---------- the invariant ----------

  /** The frame f waits for a call of kind k. */
  predicate Calls(f: Frame, k: Kind) {
    match f
    case Flight => k == Accesses
    case AccessRefreshing => k == Refreshes
    case AccessLeaving => k == Logouts || k == Resets
    case RefreshStoring => k == Sets
    case RefreshFailing => k == Resets
    case LogoutResetting(_) => k == Resets
    case LoginStoring => k == Sets
    case LoginFailing => k == Resets
    case Handling => k == Logouts
    case _ => false
  }

  predicate IsRoot(k: Kind) {
    k != Accesses && k != Refreshes
  }

  predicate Verified(o: Outcome) {
    o.Granted? ==> VerifyToken(o.token, o.at)
  }

  /** A call of kind k can end with o: only token operations yield tokens, which were verified, and
      they, logouts and resets never end plainly. */
  predicate Fits(k: Kind, o: Outcome) {
    Verified(o) && (o.Granted? ==> k == Accesses || k == Flights) &&
    (o.Done? ==> k == Refreshes || k == Sets || k == Logins || k == Handlers)
  }

  // The frame f can be given o by the call it waits for.
  predicate Accepts(f: Frame, o: Outcome) {
    exists k :: Calls(f, k) && Fits(k, o)
  }

  ghost predicate ValidTask(t: Task) {
    && t.stack != [] && IsRoot(KindOf(t.stack[0]))
    && (forall i :: 0 <= i < |t.stack| - 1 ==> Calls(t.stack[i], KindOf(t.stack[i + 1])))
    && (IsCaller(t.stack[|t.stack| - 1]) <==> t.result.Some?)
    && (t.result.Some? ==> Accepts(t.stack[|t.stack| - 1], t.result.value))
  }

  predicate RootedAt(t: Task, root: Frame) {
    t.stack != [] && t.stack[0] == root
  }

  // The one task with the given root is the one that the field names.
  ghost predicate Owned(tasks: map<nat, Task>, root: Frame, owner: Option<nat>) {
    forall id: nat :: (id in tasks && RootedAt(tasks[id], root)) <==> owner == Some(id)
  }

  ghost predicate TasksValid(tasks: map<nat, Task>, next: nat) {
    forall id :: id in tasks ==> id < next && ValidTask(tasks[id])
  }

  ghost predicate OutcomesValid(outcomes: map<nat, Outcome>, tasks: map<nat, Task>, next: nat) {
    forall op :: op in outcomes ==> op < next && op !in tasks && Fits(Flights, outcomes[op])
  }

  ghost predicate ValidCaller(c: Caller, outcomes: map<nat, Outcome>, inFlight: Option<nat>) {
    match c
    case Joined(op) => op in outcomes || inFlight == Some(op)
    case Got(op, o) => op in outcomes && outcomes[op] == o
  }

  ghost predicate CallersValid(callers: map<nat, Caller>, outcomes: map<nat, Outcome>, inFlight: Option<nat>) {
    forall c :: c in callers ==> ValidCaller(callers[c], outcomes, inFlight)
  }

  predicate StoreValid(t: Tokens) {
    Truthy(t.access) <==> Truthy(t.refresh)
  }

  ghost predicate Inv(s: State) {
    && TasksValid(s.tasks, s.next) && Owned(s.tasks, Flight, s.inFlight) && Owned(s.tasks, Handling, s.logoutInFlight)
    && OutcomesValid(s.outcomes, s.tasks, s.next) && CallersValid(s.callers, s.outcomes, s.inFlight) &&
      StoreValid(s.store)
  }

  lemma InitInv(now: int)
    ensures Inv(Init(now))
  {}

  // ---------- what a stretch can do ----------

  // The frame g may stand where f stood.
  predicate SameCall(f: Frame, g: Frame) {
    KindOf(f) == KindOf(g) && f != Flight && f != Handling
  }

  // All but the session fields is left alone.
  predicate SameTasks(s: State, t: State) {
    t.tasks == s.tasks && t.next == s.next && t.outcomes == s.outcomes && t.callers == s.callers
  }

  predicate SameSession(s: State, t: State) {
    SameTasks(s, t) && t.inFlight == s.inFlight && t.logoutInFlight == s.logoutInFlight && StoreValid(t.store)
  }

  // isLoaded is never taken back, and onLogout is called when and only when the session is lost.
  predicate SessionMoves(s: State, t: State) {
    && (s.loaded ==> t.loaded)
    && t.onLogoutCalls == s.onLogoutCalls + if s.authenticated && !t.authenticated then 1 else 0
  }

  predicate GoodMove(s: State, f: Frame, m: Move) {
    (!m.Ignore? ==> SessionMoves(s, m.s)) &&
    match m
    case Await(t, g) => SameCall(f, g) && !IsCaller(g) && SameSession(s, t)
    case Call(t, g, callee) =>
      SameCall(f, g) && IsCaller(g) && Calls(g, KindOf(callee)) && !IsCaller(callee) && SameSession(s, t)
    case Return(t, o) =>
      && Fits(KindOf(f), o) && SameTasks(s, t) && StoreValid(t.store)
      && t.inFlight == (if f == Flight then None else s.inFlight)
      && t.logoutInFlight == (if f == Handling then None else s.logoutInFlight)
    case Ignore => true
  }

  lemma AccessMoves(s: State, f: Frame, mayRefresh: bool)
    requires StoreValid(s.store) && KindOf(f) == Accesses
    ensures GoodMove(s, f, AfterRead(s, mayRefresh))
  {
    hide StoreValid, Truthy;
  }

  lemma InputMoves(s: State, h: Hooks, f: Frame, i: Input)
    requires StoreValid(s.store) && !IsCaller(f)
    ensures GoodMove(s, f, OnInput(s, h, f, i))
  {
    match f {
      case RefreshPost(_) => PostMoves(s, h, f, i);
      case LoginPost => PostMoves(s, h, f, i);
      case SetClearing(_) => WriteMoves(s, h, f, i);
      case SetStoring(_, _) => WriteMoves(s, h, f, i);
      case ResetClearing(_) => WriteMoves(s, h, f, i);
      case AccessRead => ReadMoves(s, h, f, i);
      case AccessReread => ReadMoves(s, h, f, i);
      case RefreshRead => ReadMoves(s, h, f, i);
      case LogoutRead => ReadMoves(s, h, f, i);
      case RefreshNotifying => CallbackMoves(s, h, f, i);
      case SetNotifying => CallbackMoves(s, h, f, i);
      case LogoutPost => CallbackMoves(s, h, f, i);
      case ResetNotifying => CallbackMoves(s, h, f, i);
      case _ =>
    }
    hide OnInput, GoodMove;
  }

  lemma ReadMoves(s: State, h: Hooks, f: Frame, i: Input)
    requires StoreValid(s.store) && (f.AccessRead? || f.AccessReread? || f.RefreshRead? || f.LogoutRead?)
    ensures GoodMove(s, f, OnInput(s, h, f, i))
  {
    hide VerifyToken, Truthy, Stored, StoreValid, AfterRead;
    if f.AccessRead? { AccessMoves(s, f, true); }
    if f.AccessReread? { AccessMoves(s, f, false); }
  }

  lemma CallbackMoves(s: State, h: Hooks, f: Frame, i: Input)
    requires StoreValid(s.store) && (f.RefreshNotifying? || f.SetNotifying? || f.LogoutPost? || f.ResetNotifying?)
    ensures GoodMove(s, f, OnInput(s, h, f, i))
  {
    hide VerifyToken, Truthy, Stored, StoreValid, AfterRead;
  }

  lemma StoresAreValid()
    ensures StoreValid(NO_TOKENS) && forall t :: StoreValid(Stored(t))
  {}

  lemma PostMoves(s: State, h: Hooks, f: Frame, i: Input)
    requires StoreValid(s.store) && (f.RefreshPost? || f.LoginPost?)
    ensures GoodMove(s, f, OnInput(s, h, f, i))
  {
    hide VerifyToken, EnterSet, Truthy, Stored, StoreValid, AfterRead;
  }

  lemma WriteMoves(s: State, h: Hooks, f: Frame, i: Input)
    requires StoreValid(s.store) && (f.SetClearing? || f.SetStoring? || f.ResetClearing?)
    ensures GoodMove(s, f, OnInput(s, h, f, i))
  {
    StoresAreValid();
    hide VerifyToken, EnterSet, Truthy, Stored, StoreValid, AfterRead, NO_TOKENS;
  }

  // What an accepted outcome may be passed on as.
  lemma PassedOn(f: Frame, o: Outcome)
    requires Accepts(f, o)
    ensures f == Flight ==> Fits(Flights, o)
    ensures f == AccessLeaving ==> Fits(Accesses, o)
    ensures f.LogoutResetting? ==> Fits(Logouts, o)
    ensures forall k :: Fits(k, Rejected)
    ensures Fits(Refreshes, Done) && Fits(Logins, Done) && Fits(Handlers, Done)
  {}

  lemma ReturnMoves(s: State, h: Hooks, f: Frame, o: Outcome)
    requires StoreValid(s.store) && IsCaller(f) && Accepts(f, o)
    ensures GoodMove(s, f, OnReturn(s, h, f, o))
  {
    PassedOn(f, o);
    hide StoreValid, Fits, Accepts, GoodMove, OnReturn;
    if f == Flight || f == AccessLeaving || f == AccessRefreshing || f == Handling {
      OuterReturns(s, h, f, o);
    } else {
      InnerReturns(s, h, f, o);
    }
  }

  lemma OuterReturns(s: State, h: Hooks, f: Frame, o: Outcome)
    requires StoreValid(s.store) && (f == Flight || f == AccessLeaving || f == AccessRefreshing || f == Handling)
    requires (f == Flight ==> Fits(Flights, o)) && (f == AccessLeaving ==> Fits(Accesses, o))
    requires Fits(Accesses, Rejected) && Fits(Handlers, Done)
    ensures GoodMove(s, f, OnReturn(s, h, f, o))
  {
    hide StoreValid, Fits;
  }

  lemma InnerReturns(s: State, h: Hooks, f: Frame, o: Outcome)
    requires StoreValid(s.store) && IsCaller(f) && f != Flight && f != AccessLeaving && f != AccessRefreshing
    requires f != Handling
    requires f.LogoutResetting? ==> Fits(Logouts, o)
    requires (forall k :: Fits(k, Rejected)) && Fits(Refreshes, Done) && Fits(Logins, Done)
    ensures GoodMove(s, f, OnReturn(s, h, f, o))
  {
    hide StoreValid, Fits;
  }

  // ---------- every step keeps the invariant ----------

  lemma SpawnKeeps(s: State, stack: seq<Frame>)
    requires Inv(s) && ValidTask(Task(stack, None))
    ensures TasksValid(Spawn(s, stack).tasks, s.next + 1)
    ensures OutcomesValid(s.outcomes, Spawn(s, stack).tasks, s.next + 1)
  {
    hide ValidTask, Fits, Accepts, Owned, CallersValid;
  }

  lemma SpawnOwned(s: State, stack: seq<Frame>, root: Frame, owner: Option<nat>)
    requires TasksValid(s.tasks, s.next) && Owned(s.tasks, root, owner) && stack != []
    ensures stack[0] != root ==> Owned(Spawn(s, stack).tasks, root, owner)
    ensures stack[0] == root && owner.None? ==> Owned(Spawn(s, stack).tasks, root, Some(s.next))
  {
    hide ValidTask;
    var t := Spawn(s, stack).tasks;
    forall id: nat
      ensures (id in t && RootedAt(t[id], root)) <==> (if id == s.next then stack[0] == root else owner == Some(id))
    {}
    assert owner != Some(s.next);
  }

  lemma SpawnInv(s: State, f: Frame)
    requires Inv(s) && IsRoot(KindOf(f)) && f != Flight && f != Handling && !IsCaller(f)
    ensures Inv(Spawn(s, [f]))
  {
    assert ValidTask(Task([f], None));
    hide ValidTask, OutcomesValid, TasksValid, Owned, CallersValid;
    SpawnKeeps(s, [f]);
    SpawnOwned(s, [f], Flight, s.inFlight);
    SpawnOwned(s, [f], Handling, s.logoutInFlight);
  }

  lemma NewTasksValid()
    ensures ValidTask(Task([Flight, AccessRead], None)) && ValidTask(Task([Handling, LogoutRead], None))
  {}

  lemma FlightInv(s: State, c: nat)
    requires Inv(s) && s.inFlight.None? && c !in s.callers
    ensures Inv(Spawn(s, [Flight, AccessRead]).(inFlight := Some(s.next), callers := s.callers[c := Joined(s.next)]))
  {
    NewTasksValid();
    hide ValidTask, OutcomesValid, TasksValid, Owned;
    SpawnKeeps(s, [Flight, AccessRead]);
    SpawnOwned(s, [Flight, AccessRead], Flight, s.inFlight);
    SpawnOwned(s, [Flight, AccessRead], Handling, s.logoutInFlight);
  }

  lemma HandlingInv(s: State)
    requires Inv(s) && s.logoutInFlight.None?
    ensures Inv(Spawn(s, [Handling, LogoutRead]).(logoutInFlight := Some(s.next)))
  {
    NewTasksValid();
    hide ValidTask, OutcomesValid, TasksValid, Owned, CallersValid, StoreValid;
    SpawnKeeps(s, [Handling, LogoutRead]);
    SpawnOwned(s, [Handling, LogoutRead], Flight, s.inFlight);
    SpawnOwned(s, [Handling, LogoutRead], Handling, s.logoutInFlight);
  }

  lemma OwnedStays(tasks: map<nat, Task>, id: nat, task: Task, root: Frame, owner: Option<nat>)
    requires Owned(tasks, root, owner) && id in tasks && RootedAt(tasks[id], root) == RootedAt(task, root)
    ensures Owned(tasks[id := task], root, owner)
  {
    hide RootedAt;
  }

  // A task goes on under the same root.
  lemma ContinueInv(s: State, t: State, id: nat, task: Task)
    requires Inv(s) && id in s.tasks && SameTasks(s, t) && StoreValid(t.store)
    requires t.inFlight == s.inFlight && t.logoutInFlight == s.logoutInFlight
    requires ValidTask(task) && RootedAt(task, Flight) == RootedAt(s.tasks[id], Flight)
    requires RootedAt(task, Handling) == RootedAt(s.tasks[id], Handling)
    ensures Inv(t.(tasks := t.tasks[id := task]))
  {
    hide ValidTask, Fits, Accepts, Owned, CallersValid, RootedAt, StoreValid;
    OwnedStays(s.tasks, id, task, Flight, s.inFlight);
    OwnedStays(s.tasks, id, task, Handling, s.logoutInFlight);
  }

  // A task ends: a shared token operation leaves its outcome to those who joined it.
  lemma FinishInv(s: State, t: State, id: nat, o: Outcome)
    requires Inv(s) && id in s.tasks && s.tasks[id].stack != [] && SameTasks(s, t) && StoreValid(t.store)
    requires Fits(KindOf(s.tasks[id].stack[0]), o)
    requires t.inFlight == (if RootedAt(s.tasks[id], Flight) then None else s.inFlight)
    requires t.logoutInFlight == (if RootedAt(s.tasks[id], Handling) then None else s.logoutInFlight)
    ensures RootedAt(s.tasks[id], Flight) ==> Inv(t.(tasks := t.tasks - {id}, outcomes := t.outcomes[id := o]))
    ensures !RootedAt(s.tasks[id], Flight) ==> Inv(t.(tasks := t.tasks - {id}))
  {
    hide ValidTask, Fits, RootedAt, StoreValid, Owned, KindOf, OutcomesValid, CallersValid, TasksValid;
    FlightFits(s.tasks[id], o);
    OwnedEnds(s.tasks, id, Flight, s.inFlight);
    OwnedEnds(s.tasks, id, Handling, s.logoutInFlight);
    OwnedIs(s.tasks, id, Flight, s.inFlight);
    FewerTasks(s, id);
    if RootedAt(s.tasks[id], Flight) { Settles(s, id, o); }
  }

  lemma FewerTasks(s: State, id: nat)
    requires TasksValid(s.tasks, s.next) && OutcomesValid(s.outcomes, s.tasks, s.next)
    ensures TasksValid(s.tasks - {id}, s.next) && OutcomesValid(s.outcomes, s.tasks - {id}, s.next)
  {
    hide ValidTask, Fits;
  }

  // The operation in flight leaves its outcome to the callers that joined it.
  lemma Settles(s: State, id: nat, o: Outcome)
    requires Inv(s) && id in s.tasks && s.inFlight == Some(id) && Fits(Flights, o)
    ensures OutcomesValid(s.outcomes[id := o], s.tasks - {id}, s.next)
    ensures CallersValid(s.callers, s.outcomes[id := o], None)
  {
    hide ValidTask, Fits, Owned, StoreValid;
    forall c | c in s.callers ensures ValidCaller(s.callers[c], s.outcomes[id := o], None) {
      assert ValidCaller(s.callers[c], s.outcomes, s.inFlight);
    }
  }

  lemma FlightFits(t: Task, o: Outcome)
    requires t.stack != [] && Fits(KindOf(t.stack[0]), o)
    ensures RootedAt(t, Flight) ==> Fits(Flights, o)
  {}

  lemma OwnedIs(tasks: map<nat, Task>, id: nat, root: Frame, owner: Option<nat>)
    requires Owned(tasks, root, owner) && id in tasks
    ensures RootedAt(tasks[id], root) <==> owner == Some(id)
  {}

  lemma OwnedEnds(tasks: map<nat, Task>, id: nat, root: Frame, owner: Option<nat>)
    requires Owned(tasks, root, owner) && id in tasks
    ensures Owned(tasks - {id}, root, if RootedAt(tasks[id], root) then None else owner)
  {
    hide RootedAt;
  }

  lemma TopMoves(s: State, h: Hooks, id: nat, i: Input)
    requires Inv(s) && id in s.tasks
    ensures s.tasks[id].stack != []
    ensures GoodMove(s, s.tasks[id].stack[|s.tasks[id].stack| - 1], MoveOf(s, h, s.tasks[id], i))
  {
    hide OnInput, OnReturn, Fits, Accepts, CallersValid, Owned, StoreValid, OutcomesValid, GoodMove, Calls, IsCaller,
      IsRoot;
    var task := s.tasks[id];
    assert ValidTask(task);
    var top := task.stack[|task.stack| - 1];
    if task.result.Some? { ReturnMoves(s, h, top, task.result.value); } else { InputMoves(s, h, top, i); }
  }

  lemma MovedInv(s: State, id: nat, m: Move)
    requires Inv(s) && id in s.tasks && s.tasks[id].stack != []
    requires GoodMove(s, s.tasks[id].stack[|s.tasks[id].stack| - 1], m)
    ensures Inv(Moved(s, id, m))
  {
    var task := s.tasks[id];
    assert ValidTask(task);
    var n := |task.stack|;
    var below, top := task.stack[..n - 1], task.stack[n - 1];
    hide Owned, OutcomesValid, CallersValid, TasksValid, StoreValid, Fits, Accepts, SessionMoves, Calls, IsCaller,
      KindOf, IsRoot;
    match m
    case Await(t, f) =>
      ValidAwait(task, f);
      ContinueInv(s, t, id, Task(below + [f], None));
    case Call(t, f, callee) =>
      ValidCall(task, f, callee);
      ContinueInv(s, t, id, Task(below + [f, callee], None));
    case Return(t, o) => ReturnedInv(s, id, t, o);
    case Ignore =>
  }

  lemma ReturnedInv(s: State, id: nat, t: State, o: Outcome)
    requires Inv(s) && id in s.tasks && s.tasks[id].stack != []
    requires GoodMove(s, s.tasks[id].stack[|s.tasks[id].stack| - 1], Return(t, o))
    ensures Inv(Moved(s, id, Return(t, o)))
  {
    hide Owned, OutcomesValid, CallersValid, StoreValid, Fits, Accepts, SessionMoves, Calls, IsCaller, KindOf, IsRoot;
    var task := s.tasks[id];
    assert ValidTask(task);
    var n := |task.stack|;
    var below := task.stack[..n - 1];
    if below != [] {
      ValidReturn(task, o);
      NotRootAbove(task);
      ContinueInv(s, t, id, Task(below, Some(o)));
    } else {
      FinishInv(s, t, id, o);
    }
  }

  // Roots are called by nobody, so they stand at the bottom only.
  lemma NotRootAbove(task: Task)
    requires ValidTask(task) && |task.stack| >= 2
    ensures task.stack[|task.stack| - 1] != Flight && task.stack[|task.stack| - 1] != Handling
  {
    var n := |task.stack|;
    assert Calls(task.stack[n - 2], KindOf(task.stack[n - 2 + 1]));
  }

  lemma ValidAwait(task: Task, f: Frame)
    requires ValidTask(task) && SameCall(task.stack[|task.stack| - 1], f) && !IsCaller(f)
    ensures var stack := task.stack[..|task.stack| - 1] + [f];
      ValidTask(Task(stack, None)) && RootedAt(Task(stack, None), Flight) == RootedAt(task, Flight) &&
      RootedAt(Task(stack, None), Handling) == RootedAt(task, Handling)
  {
    hide Calls, IsCaller, IsRoot, Fits, Accepts;
    var n := |task.stack|;
    var stack := task.stack[..n - 1] + [f];
    forall i | 0 <= i < n - 1 ensures Calls(stack[i], KindOf(stack[i + 1])) {
      assert Calls(task.stack[i], KindOf(task.stack[i + 1]));
    }
  }

  lemma ValidCall(task: Task, f: Frame, callee: Frame)
    requires ValidTask(task) && SameCall(task.stack[|task.stack| - 1], f) && Calls(f, KindOf(callee))
    requires !IsCaller(callee)
    ensures var stack := task.stack[..|task.stack| - 1] + [f, callee];
      ValidTask(Task(stack, None)) && RootedAt(Task(stack, None), Flight) == RootedAt(task, Flight) &&
      RootedAt(Task(stack, None), Handling) == RootedAt(task, Handling)
  {
    hide Calls, IsCaller, IsRoot, Fits, Accepts;
    var n := |task.stack|;
    var stack := task.stack[..n - 1] + [f, callee];
    forall i | 0 <= i < n ensures Calls(stack[i], KindOf(stack[i + 1])) {
      if i < n - 1 { assert Calls(task.stack[i], KindOf(task.stack[i + 1])); }
    }
  }

  lemma ValidReturn(task: Task, o: Outcome)
    requires ValidTask(task) && |task.stack| >= 2 && Fits(KindOf(task.stack[|task.stack| - 1]), o)
    ensures var stack := task.stack[..|task.stack| - 1];
      ValidTask(Task(stack, Some(o))) && RootedAt(Task(stack, Some(o)), Flight) == RootedAt(task, Flight) &&
      RootedAt(Task(stack, Some(o)), Handling) == RootedAt(task, Handling)
  {
    hide IsRoot, Fits;
    var n := |task.stack|;
    assert Calls(task.stack[n - 2], KindOf(task.stack[n - 2 + 1]));
  }

  lemma CallerInv(s: State, c: nat, caller: Caller)
    requires Inv(s) && ValidCaller(caller, s.outcomes, s.inFlight)
    ensures Inv(s.(callers := s.callers[c := caller]))
  {
    hide Owned, OutcomesValid, TasksValid, StoreValid;
  }

  lemma NextInv(s: State, h: Hooks, step: Step)
    requires Inv(s)
    ensures Inv(Next(s, h, step))
  {
    hide Inv, Moved, MoveOf, GoodMove;
    match step
    case Tick(to) => TickInv(s, to);
    case GetAccessToken(c) =>
      if c !in s.callers {
        if s.inFlight.Some? { CallerInv(s, c, Joined(s.inFlight.value)); } else { FlightInv(s, c); }
      }
    case Receive(c) =>
      if c in s.callers && s.callers[c].Joined? && s.callers[c].op in s.outcomes {
        CallerInv(s, c, Got(s.callers[c].op, s.outcomes[s.callers[c].op]));
      }
    case SetTokens(tokens) => SpawnInv(s, EnterSet(tokens, s.now));
    case Login => SpawnInv(s, LoginPost);
    case Logout => SpawnInv(s, LogoutRead);
    case Reset => SpawnInv(s, ResetClearing(false));
    case Unauthorized => if s.logoutInFlight.None? { HandlingInv(s); }
    case Run(id, i) =>
      if id in s.tasks {
        TopMoves(s, h, id, i);
        MovedInv(s, id, MoveOf(s, h, s.tasks[id], i));
      }
  }

  lemma TickInv(s: State, to: int)
    requires Inv(s)
    ensures Inv(s.(now := to))
  {
    hide Owned, OutcomesValid, TasksValid, StoreValid, CallersValid;
  }

  lemma {:induction false} RunInv(h: Hooks, states: seq<State>, steps: seq<Step>, i: nat)
    requires IsRun(h, states, steps) && i < |states|
    ensures Inv(states[i])
    decreases i
  {
    hide Inv, Next;
    if i == 0 {
      InitInv(states[0].now);
    } else {
      RunInv(h, states, steps, i - 1);
      NextInv(states[i - 1], h, steps[i - 1]);
      assert states[i - 1 + 1] == Next(states[i - 1], h, steps[i - 1]);
    }
  }
}
