/** What an outcome of the token protocol says about the steps that led to it. */
module AuthenticatorOutcomes {
  import opened Strings
  import opened Authenticator
  import opened AuthenticatorInvariant
  import opened AuthenticatorRuns

  // ---------- granted tokens were fresh ----------

  // The state holds a token that was verified at time `at`.
  ghost predicate GrantedAt(s: State, token: Token, at: int) {
    || (exists op :: op in s.outcomes && s.outcomes[op] == Granted(token, at))
    || (exists id :: id in s.tasks && s.tasks[id].result == Some(Granted(token, at)))
  }

  lemma MoveGrants(s: State, h: Hooks, f: Frame, i: Input, o: Outcome)
    ensures OnInput(s, h, f, i).Return? && OnInput(s, h, f, i).outcome.Granted? ==>
      OnInput(s, h, f, i).outcome.at == s.now
    ensures OnReturn(s, h, f, o).Return? && OnReturn(s, h, f, o).outcome.Granted? ==> OnReturn(s, h, f, o).outcome == o
  {
    hide EnterSet, VerifyToken, Truthy, Stored, NO_TOKENS;
  }

  lemma StepGrants(s: State, h: Hooks, step: Step, token: Token, at: int)
    requires Inv(s) && GrantedAt(Next(s, h, step), token, at)
    ensures GrantedAt(s, token, at) || at == s.now
  {
    hide Inv, Moved, MoveOf;
    if step.Run? && step.task in s.tasks { RanGrants(s, h, step.task, step.input, token, at); }
  }

  lemma RanGrants(s: State, h: Hooks, id: nat, i: Input, token: Token, at: int)
    requires Inv(s) && id in s.tasks
    ensures s.tasks[id].stack != []
    ensures GrantedAt(Moved(s, id, MoveOf(s, h, s.tasks[id], i)), token, at) ==> GrantedAt(s, token, at) || at == s.now
  {
    hide GoodMove, Moved, TasksValid, OutcomesValid, Owned, CallersValid, GrantedAt, OnInput, OnReturn;
    TopMoves(s, h, id, i);
    var task := s.tasks[id];
    var top, o := task.stack[|task.stack| - 1], if task.result.Some? then task.result.value else Done;
    MoveGrants(s, h, top, i, o);
    if GrantedAt(Moved(s, id, MoveOf(s, h, task, i)), token, at) {
      MovedGrants(s, id, MoveOf(s, h, task, i), token, at);
    }
  }

  lemma MovedGrants(s: State, id: nat, m: Move, token: Token, at: int)
    requires id in s.tasks && s.tasks[id].stack != [] && GrantedAt(Moved(s, id, m), token, at)
    requires GoodMove(s, s.tasks[id].stack[|s.tasks[id].stack| - 1], m)
    requires m.Return? && m.outcome.Granted? ==> m.outcome.at == s.now || s.tasks[id].result == Some(m.outcome)
    ensures GrantedAt(s, token, at) || at == s.now
  {
    hide Fits, Accepts, StoreValid, SameCall, SessionMoves, Calls, IsCaller;
    var t := Moved(s, id, m);
    if op :| op in t.outcomes && t.outcomes[op] == Granted(token, at) {
      assert op != id ==> op in s.outcomes;
    } else {
      var j :| j in t.tasks && t.tasks[j].result == Some(Granted(token, at));
      assert j != id ==> j in s.tasks;
    }
  }

  // Every token handed out was verified at some moment of the run, and had at least 60 s left then.
  lemma {:induction false} GrantedInRun(h: Hooks, states: seq<State>, steps: seq<Step>, i: nat, token: Token, at: int)
    requires IsRun(h, states, steps) && i < |states| && GrantedAt(states[i], token, at)
    ensures exists k :: 0 <= k < i && states[k].now == at
    decreases i
  {
    hide Next, GrantedAt, Inv;
    if i == 0 {
      assert false by { NoGrantsAtStart(states[0].now, token, at); }
    } else {
      assert states[i - 1 + 1] == Next(states[i - 1], h, steps[i - 1]);
      RunInv(h, states, steps, i - 1);
      StepGrants(states[i - 1], h, steps[i - 1], token, at);
      if states[i - 1].now != at { GrantedInRun(h, states, steps, i - 1, token, at); }
    }
  }

  lemma NoGrantsAtStart(now: int, token: Token, at: int)
    ensures !GrantedAt(Init(now), token, at)
  {}

  lemma ReturnedTokensWereFresh(h: Hooks, states: seq<State>, steps: seq<Step>, i: nat, c: nat)
    requires IsRun(h, states, steps) && i < |states| && c in states[i].callers
    requires states[i].callers[c].Got? && states[i].callers[c].outcome.Granted?
    ensures var g := states[i].callers[c].outcome;
      g.token.exp.Some? && g.token.exp.value * 1000 >= g.at + EXP_WINDOW_MS &&
        exists k :: 0 <= k < i && states[k].now == g.at
  {
    RunInv(h, states, steps, i);
    hide IsRun, Owned, TasksValid, StoreValid;
    var s := states[i];
    assert ValidCaller(s.callers[c], s.outcomes, s.inFlight);
    var g := s.callers[c].outcome;
    assert s.outcomes[s.callers[c].op] == g && Fits(Flights, g);
    GrantedInRun(h, states, steps, i, g.token, g.at);
  }

  // ---------- an operation without a token has dropped the session ----------

  // The call of task id has dropped the session: it says so, or is telling the application.
  ghost predicate HasDropped(s: State, id: nat) {
    || (id in s.outcomes && s.outcomes[id] == Dropped)
    || (id in s.tasks && s.tasks[id].result == Some(Dropped))
    || (id in s.tasks && s.tasks[id].stack != [] && s.tasks[id].stack[|s.tasks[id].stack| - 1].ResetNotifying?)
  }

  lemma MoveDrops(s: State, h: Hooks, f: Frame, i: Input, o: Outcome)
    ensures var m := OnInput(s, h, f, i);
      (m.Await? && m.frame.ResetNotifying? ==> !m.s.authenticated) &&
      (m.Call? ==> !m.callee.ResetNotifying?) &&
      (m.Return? && m.outcome == Dropped ==> !m.s.authenticated || f.ResetNotifying?)
    ensures var m := OnReturn(s, h, f, o);
      (m.Await? ==> !m.frame.ResetNotifying?) && (m.Call? ==> !m.callee.ResetNotifying?) &&
      (m.Return? && m.outcome == Dropped ==> o == Dropped)
  {
    hide EnterSet, VerifyToken, Truthy, Stored, NO_TOKENS;
  }

  lemma MovedDrops(s: State, h: Hooks, id: nat, i: Input)
    requires Inv(s) && id in s.tasks
    ensures s.tasks[id].stack != []
    ensures var t := Moved(s, id, MoveOf(s, h, s.tasks[id], i));
      (HasDropped(t, id) ==> HasDropped(s, id) || !t.authenticated) &&
      forall j :: j != id && HasDropped(t, j) ==> HasDropped(s, j)
  {
    hide TasksValid, OutcomesValid, Owned, CallersValid, OnInput, OnReturn, KindOf, IsCaller, SessionMoves, Calls,
      Fits, StoreValid;
    TopMoves(s, h, id, i);
    var task := s.tasks[id];
    var top, o := task.stack[|task.stack| - 1], if task.result.Some? then task.result.value else Done;
    MoveDrops(s, h, top, i, o);
    BelowIsNoNotice(s, id);
  }

  // A frame that waits for another call is not telling the application anything.
  lemma BelowIsNoNotice(s: State, id: nat)
    requires Inv(s) && id in s.tasks
    ensures s.tasks[id].stack != []
    ensures |s.tasks[id].stack| >= 2 ==> !s.tasks[id].stack[|s.tasks[id].stack| - 2].ResetNotifying?
    ensures id !in s.outcomes
  {
    hide Owned, CallersValid, Fits, Accepts, IsRoot, IsCaller, KindOf;
    var stack := s.tasks[id].stack;
    assert ValidTask(s.tasks[id]);
    var n := |stack|;
    assert n >= 2 ==> Calls(stack[n - 2], KindOf(stack[n - 2 + 1]));
  }

  lemma StepDrops(s: State, h: Hooks, step: Step, id: nat)
    requires Inv(s) && HasDropped(Next(s, h, step), id)
    ensures HasDropped(s, id) || (step.Run? && step.task == id && !Next(s, h, step).authenticated)
  {
    hide Inv, Moved, MoveOf;
    if step.Run? && step.task in s.tasks { MovedDrops(s, h, step.task, step.input); }
  }

  /** In the k-th step the activation id ran and left the session unauthenticated. */
  ghost predicate DroppedIn(states: seq<State>, steps: seq<Step>, k: nat, id: nat)
    requires k < |steps| && |states| == |steps| + 1
  {
    steps[k].Run? && steps[k].task == id && !states[k + 1].authenticated
  }

  lemma {:induction false} DroppedInRun(h: Hooks, states: seq<State>, steps: seq<Step>, i: nat, id: nat)
    requires IsRun(h, states, steps) && i < |states| && HasDropped(states[i], id)
    ensures exists k :: 0 <= k < i && DroppedIn(states, steps, k, id)
    decreases i
  {
    hide Next, HasDropped, Inv;
    if i == 0 {
      assert false by { NothingDroppedAtStart(states[0].now, id); }
    } else {
      assert states[i - 1 + 1] == Next(states[i - 1], h, steps[i - 1]);
      RunInv(h, states, steps, i - 1);
      StepDrops(states[i - 1], h, steps[i - 1], id);
      if HasDropped(states[i - 1], id) {
        DroppedInRun(h, states, steps, i - 1, id);
      } else {
        assert DroppedIn(states, steps, i - 1, id);
      }
    }
  }

  lemma NothingDroppedAtStart(now: int, id: nat)
    ensures !HasDropped(Init(now), id)
  {}

  // A caller gets a token, or an exception, or the operation it joined has dropped the session.
  lemma NoTokenMeansDropped(h: Hooks, states: seq<State>, steps: seq<Step>, i: nat, c: nat)
    requires IsRun(h, states, steps) && i < |states| && c in states[i].callers && states[i].callers[c].Got?
    ensures var o := states[i].callers[c].outcome;
      o.Granted? || o.Rejected? || exists k :: 0 <= k < i && DroppedIn(states, steps, k, states[i].callers[c].op)
  {
    RunInv(h, states, steps, i);
    var s := states[i];
    hide IsRun, Owned, TasksValid, StoreValid, DroppedIn;
    assert ValidCaller(s.callers[c], s.outcomes, s.inFlight);
    var op := s.callers[c].op;
    assert Fits(Flights, s.outcomes[op]);
    if s.outcomes[op] == Dropped { DroppedInRun(h, states, steps, i, op); }
  }

  // ---------- logout callbacks ----------

  /** How often the state went from authenticated to unauthenticated in the first i steps. */
  function Drops(states: seq<State>, i: nat): nat
    requires i < |states|
  {
    if i == 0 then 0
    else Drops(states, i - 1) + if states[i - 1].authenticated && !states[i].authenticated then 1 else 0
  }

  // onLogout is begun exactly once for every time the session is lost.
  lemma {:induction false} OneLogoutCallPerDrop(h: Hooks, states: seq<State>, steps: seq<Step>, i: nat)
    requires IsRun(h, states, steps) && i < |states|
    ensures states[i].onLogoutCalls == Drops(states, i)
    decreases i
  {
    hide Next, Inv;
    if i > 0 {
      OneLogoutCallPerDrop(h, states, steps, i - 1);
      RunInv(h, states, steps, i - 1);
      assert states[i - 1 + 1] == Next(states[i - 1], h, steps[i - 1]);
      StepFields(states[i - 1], h, steps[i - 1]);
    }
  }
}
