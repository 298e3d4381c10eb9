/** What holds in every run of the token protocol. */
module AuthenticatorRuns {
  import opened Strings
  import opened Authenticator
  import opened AuthenticatorInvariant

  // ---------- one token operation at a time ----------

  predicate HasKind(t: Task, k: Kind) {
    exists i :: 0 <= i < |t.stack| && KindOf(t.stack[i]) == k
  }

  // Token operations and refreshes run below getAccessToken only.
  lemma UnderFlight(t: Task)
    requires ValidTask(t) && (HasKind(t, Accesses) || HasKind(t, Refreshes))
    ensures RootedAt(t, Flight)
  {
    hide Fits, Accepts;
    var i :| 0 <= i < |t.stack| && (KindOf(t.stack[i]) == Accesses || KindOf(t.stack[i]) == Refreshes);
    assert i >= 1 && Calls(t.stack[i - 1], KindOf(t.stack[i - 1 + 1]));
    if KindOf(t.stack[i]) == Refreshes {
      assert i >= 2 && Calls(t.stack[i - 2], KindOf(t.stack[i - 2 + 1]));
      FlightIsBottom(t, i - 2);
    } else {
      FlightIsBottom(t, i - 1);
    }
  }

  lemma FlightIsBottom(t: Task, j: nat)
    requires ValidTask(t) && j < |t.stack| && t.stack[j] == Flight
    ensures j == 0
  {
    assert j == 0 || Calls(t.stack[j - 1], KindOf(t.stack[j - 1 + 1]));
  }

  // In every state of every run at most one doGetAccessToken runs, so at most one refresh does.
  lemma OneTokenOperation(h: Hooks, states: seq<State>, steps: seq<Step>, i: nat, a: nat, b: nat)
    requires IsRun(h, states, steps) && i < |states|
    requires a in states[i].tasks && (HasKind(states[i].tasks[a], Accesses) || HasKind(states[i].tasks[a], Refreshes))
    requires b in states[i].tasks && (HasKind(states[i].tasks[b], Accesses) || HasKind(states[i].tasks[b], Refreshes))
    ensures a == b && states[i].inFlight == Some(a)
  {
    hide IsRun, HasKind, RootedAt, ValidTask, Fits, Accepts, OutcomesValid, CallersValid, StoreValid;
    RunInv(h, states, steps, i);
    UnderFlight(states[i].tasks[a]);
    UnderFlight(states[i].tasks[b]);
  }

  predicate Posting(t: Task) {
    exists i :: 0 <= i < |t.stack| && t.stack[i].RefreshPost?
  }

  lemma OneRefreshRequest(h: Hooks, states: seq<State>, steps: seq<Step>, i: nat, a: nat, b: nat)
    requires IsRun(h, states, steps) && i < |states|
    requires a in states[i].tasks && Posting(states[i].tasks[a]) && b in states[i].tasks && Posting(states[i].tasks[b])
    ensures a == b
  {
    hide IsRun;
    forall t: Task | Posting(t) ensures HasKind(t, Refreshes) {
      var k :| 0 <= k < |t.stack| && t.stack[k].RefreshPost?;
      assert KindOf(t.stack[k]) == Refreshes;
    }
    OneTokenOperation(h, states, steps, i, a, b);
  }

  // At most one logout started by a 401 response is in flight.
  lemma OneUnauthorizedLogout(h: Hooks, states: seq<State>, steps: seq<Step>, i: nat, a: nat, b: nat)
    requires IsRun(h, states, steps) && i < |states|
    requires a in states[i].tasks && RootedAt(states[i].tasks[a], Handling)
    requires b in states[i].tasks && RootedAt(states[i].tasks[b], Handling)
    ensures a == b && states[i].logoutInFlight == Some(a)
  {
    hide IsRun, RootedAt, TasksValid, OutcomesValid, CallersValid, StoreValid;
    RunInv(h, states, steps, i);
  }

  // ---------- callers share the outcome ----------

  lemma StepFields(s: State, h: Hooks, step: Step)
    requires Inv(s)
    ensures forall op :: op in s.outcomes ==>
      op in Next(s, h, step).outcomes && Next(s, h, step).outcomes[op] == s.outcomes[op]
    ensures forall c :: c in s.callers ==>
      c in Next(s, h, step).callers && Next(s, h, step).callers[c].op == s.callers[c].op
    ensures SessionMoves(s, Next(s, h, step))
  {
    hide Inv, Moved, MoveOf, EnterSet, SessionMoves;
    SameMoves(s, Next(s, h, step));
    if step.Run? && step.task in s.tasks { RanFields(s, h, step.task, step.input); }
  }

  lemma SameMoves(s: State, t: State)
    ensures t.authenticated == s.authenticated && t.loaded == s.loaded && t.onLogoutCalls == s.onLogoutCalls ==>
      SessionMoves(s, t)
  {}

  lemma RanFields(s: State, h: Hooks, id: nat, i: Input)
    requires Inv(s) && id in s.tasks
    ensures s.tasks[id].stack != []
    ensures var t := Moved(s, id, MoveOf(s, h, s.tasks[id], i));
      t.callers == s.callers && SessionMoves(s, t) &&
      forall op :: op in s.outcomes ==> op in t.outcomes && t.outcomes[op] == s.outcomes[op]
  {
    hide GoodMove, MoveOf, Moved, TasksValid, OutcomesValid, Owned, CallersValid, SessionMoves;
    TopMoves(s, h, id, i);
    MovedFields(s, id, MoveOf(s, h, s.tasks[id], i));
  }

  lemma MovedFields(s: State, id: nat, m: Move)
    requires id in s.tasks && s.tasks[id].stack != [] && OutcomesValid(s.outcomes, s.tasks, s.next)
    requires GoodMove(s, s.tasks[id].stack[|s.tasks[id].stack| - 1], m)
    ensures var t := Moved(s, id, m);
      t.callers == s.callers && SessionMoves(s, t) &&
      forall op :: op in s.outcomes ==> op in t.outcomes && t.outcomes[op] == s.outcomes[op]
  {
    hide Fits, Accepts, StoreValid, SameCall, Calls, IsCaller;
  }

  lemma {:induction false} RunFields(h: Hooks, states: seq<State>, steps: seq<Step>, i: nat, j: nat)
    requires IsRun(h, states, steps) && i <= j < |states|
    ensures forall op :: op in states[i].outcomes ==>
      op in states[j].outcomes && states[j].outcomes[op] == states[i].outcomes[op]
    ensures forall c :: c in states[i].callers ==>
      c in states[j].callers && states[j].callers[c].op == states[i].callers[c].op
    ensures states[i].loaded ==> states[j].loaded
    decreases j
  {
    hide Inv, Next;
    if i < j {
      RunFields(h, states, steps, i, j - 1);
      RunInv(h, states, steps, j - 1);
      assert states[j - 1 + 1] == Next(states[j - 1], h, steps[j - 1]);
      StepFields(states[j - 1], h, steps[j - 1]);
    }
  }

  /** The step is the store's answer that completes a setTokens or a reset. */
  predicate Completes(s: State, step: Step) {
    && step.Run? && step.input.Resume? && step.task in s.tasks && s.tasks[step.task].result.None?
    && s.tasks[step.task].stack != []
    && var f := s.tasks[step.task].stack[|s.tasks[step.task].stack| - 1];
    (f.SetStoring? && f.stored) || f == ResetClearing(true)
  }

  lemma StepLoads(s: State, h: Hooks, step: Step)
    requires Inv(s)
    ensures Next(s, h, step).loaded <==> s.loaded || Completes(s, step)
  {
    hide Inv, EnterSet;
    if step.Run? && step.task in s.tasks {
      TopMoves(s, h, step.task, step.input);
      MoveLoads(s, h, s.tasks[step.task], step.input);
    }
  }

  lemma MoveLoads(s: State, h: Hooks, task: Task, i: Input)
    requires task.stack != []
    ensures var m, f := MoveOf(s, h, task, i), task.stack[|task.stack| - 1];
      var done := task.result.None? && i.Resume? && ((f.SetStoring? && f.stored) || f == ResetClearing(true));
      if m.Ignore? then !done else m.s.loaded <==> s.loaded || done
  {
    hide EnterSet, Stored, VerifyToken, Truthy;
  }

  // isLoaded is true exactly when a setTokens or a reset has been completed.
  lemma {:induction false} LoadedIffCompleted(h: Hooks, states: seq<State>, steps: seq<Step>, i: nat)
    requires IsRun(h, states, steps) && i < |states|
    ensures states[i].loaded <==> exists k :: 0 <= k < i && Completes(states[k], steps[k])
    decreases i
  {
    hide Inv, Next, Completes;
    if i == 0 {
      StartsUnloaded(states[0].now);
    } else {
      LoadedIffCompleted(h, states, steps, i - 1);
      RunInv(h, states, steps, i - 1);
      StepLoads(states[i - 1], h, steps[i - 1]);
      assert states[i - 1 + 1] == Next(states[i - 1], h, steps[i - 1]);
    }
  }

  lemma StartsUnloaded(now: int)
    ensures !Init(now).loaded
  {}

  // isLoaded never goes back to false.
  lemma LoadedStays(h: Hooks, states: seq<State>, steps: seq<Step>, i: nat, j: nat)
    requires IsRun(h, states, steps) && i <= j < |states| && states[i].loaded
    ensures states[j].loaded
  {
    RunFields(h, states, steps, i, j);
  }

  // A caller that calls while an operation is in flight starts none, and gets that operation's
  // outcome if it gets any.
  lemma JoinersShareOutcome(h: Hooks, states: seq<State>, steps: seq<Step>, i: nat, j: nat, c: nat, op: nat)
    requires IsRun(h, states, steps) && i < j < |states| && steps[i] == GetAccessToken(c) && c !in states[i].callers
    requires states[i].inFlight == Some(op)
    ensures states[i + 1].tasks == states[i].tasks
    ensures c in states[j].callers && states[j].callers[c].op == op
    ensures states[j].callers[c].Got? ==>
      op in states[j].outcomes && states[j].callers[c].outcome == states[j].outcomes[op]
  {
    assert states[i + 1] == Next(states[i], h, steps[i]);
    RunFields(h, states, steps, i + 1, j);
    RunInv(h, states, steps, j);
    hide IsRun, Owned, OutcomesValid, TasksValid, StoreValid;
    assert ValidCaller(states[j].callers[c], states[j].outcomes, states[j].inFlight);
  }

  // Whoever joined one operation got one and the same outcome, whenever they got it.
  lemma OneOutcomePerOperation(h: Hooks, states: seq<State>, steps: seq<Step>, i: nat, j: nat, c: nat, d: nat)
    requires IsRun(h, states, steps) && i <= j < |states| && c in states[i].callers && d in states[j].callers
    requires states[i].callers[c].Got? && states[j].callers[d].Got?
    requires states[i].callers[c].op == states[j].callers[d].op
    ensures states[i].callers[c].outcome == states[j].callers[d].outcome
  {
    RunFields(h, states, steps, i, j);
    RunInv(h, states, steps, i);
    RunInv(h, states, steps, j);
    hide IsRun, Owned, OutcomesValid, TasksValid, StoreValid;
    assert ValidCaller(states[i].callers[c], states[i].outcomes, states[i].inFlight);
    assert ValidCaller(states[j].callers[d], states[j].outcomes, states[j].inFlight);
  }

  // No caller is stranded: the operation it joined has ended or is still running, and whatever runs
  // can always go on.
  lemma NoCallerStranded(h: Hooks, states: seq<State>, steps: seq<Step>, i: nat, c: nat)
    requires IsRun(h, states, steps) && i < |states| && c in states[i].callers
    ensures var op := states[i].callers[c].op;
      op in states[i].outcomes || (op in states[i].tasks && RootedAt(states[i].tasks[op], Flight))
  {
    RunInv(h, states, steps, i);
    hide IsRun, OutcomesValid, TasksValid, StoreValid, RootedAt;
    assert ValidCaller(states[i].callers[c], states[i].outcomes, states[i].inFlight);
  }

  lemma NeverStuck(s: State, h: Hooks, id: nat) returns (i: Input)
    requires Inv(s) && id in s.tasks
    ensures s.tasks[id].stack != [] && !MoveOf(s, h, s.tasks[id], i).Ignore?
  {
    hide Fits, Accepts, CallersValid, Owned, StoreValid, OutcomesValid, Calls, IsRoot, EnterSet, VerifyToken, Truthy,
      Stored, NO_TOKENS;
    var task := s.tasks[id];
    assert ValidTask(task);
    i := Answer(task.stack[|task.stack| - 1]);
  }

  /** An answer that a frame understands. */
  function Answer(f: Frame): Input {
    match f
    case RefreshPost(_) => NetworkFailed
    case LoginPost => NetworkFailed
    case LogoutPost => NetworkFailed
    case RefreshNotifying => Called(true)
    case SetNotifying => Called(true)
    case ResetNotifying => Called(true)
    case SetClearing(done) => if done then Resume else Write
    case SetStoring(_, done) => if done then Resume else Write
    case ResetClearing(done) => if done then Resume else Write
    case _ => Read
  }
}
