/** The stages of a call that runs alone: it can always be brought to its end, and there are stages that it may
    not skip. */
module AuthenticatorStages {
  import opened Strings
  import opened Authenticator
  import opened AuthenticatorInvariant
  import opened AuthenticatorSerial

  // ---------- every call can end ----------

  /** What the environment can answer to the frame. */
  function AnswerTo(fate: Fate, f: Frame): Input {
    match KindOf(f)
    case Sets => if f == SetNotifying then Called(true) else if f.SetStoring? && !f.stored then Write
      else if f == SetClearing(false) then Write else Resume
    case Resets => if f == ResetNotifying then Called(true) else if f == ResetClearing(false) then Write else Resume
    case _ =>
      if f == RefreshNotifying then Called(true)
      else if f.RefreshPost? || f == LoginPost || f == LogoutPost then
        Replied(if GetsSession(fate) then Some(fate.session) else None)
      else Read
  }

  /** How far the frame is from the end of the call. */
  function Distance(f: Frame): nat {
    match f
    case AccessRead => 30
    case RefreshRead => 29
    case RefreshPost(_) => 28
    case LoginPost => 28
    case SetStoring(_, stored) => if stored then 26 else 27
    case SetClearing(cleared) => if cleared then 26 else 27
    case SetNotifying => 25
    case RefreshStoring => 24
    case LoginStoring => 24
    case RefreshNotifying => 23
    case LogoutRead => 22
    case LogoutPost => 21
    case ResetClearing(done) => if done then 19 else 20
    case ResetNotifying => 18
    case LogoutResetting(_) => 17
    case RefreshFailing => 16
    case LoginFailing => 16
    case AccessRefreshing => 15
    case AccessReread => 14
    case AccessLeaving => 13
    case Flight => 12
    case Handling => 0
  }

  ghost predicate Nearer(c: Case, f: Frame, m: Move) {
    match m
    case Await(_, g) => Distance(g) < Distance(f)
    case Call(_, _, callee) => Distance(callee) < Distance(f)
    case Return(_, _) => forall g :: Calls(g, KindOf(f)) && Waits(c.fate, g) ==> Distance(g) < Distance(f)
    case Ignore => false
  }

  lemma WriteBringsNearer(c: Case, s: State, h: Hooks, f: Frame)
    requires Knows(c, s, f, None) && (KindOf(f) == Sets || KindOf(f) == Resets)
    ensures Answers(c.fate, s.now, AnswerTo(c.fate, f)) && Nearer(c, f, OnInput(s, h, f, AnswerTo(c.fate, f)))
  {
    hide Final, Returned, Lasts, VerifyToken;
  }

  lemma AnswerBringsNearer(c: Case, s: State, h: Hooks, f: Frame)
    requires IsWhole(c.fate) && Knows(c, s, f, None) && !IsCaller(f) && Timely(c, f, s.now)
    ensures Answers(c.fate, s.now, AnswerTo(c.fate, f)) && Nearer(c, f, OnInput(s, h, f, AnswerTo(c.fate, f)))
  {
    if KindOf(f) == Sets || KindOf(f) == Resets {
      hide *;
      WriteBringsNearer(c, s, h, f);
    } else {
      hide Final, Returned, EnterSet, Stored;
      EntersFar(c, s);
    }
  }

  // Tokens are taken or turned down below what called for it.
  lemma EntersFar(c: Case, s: State)
    ensures forall t :: Distance(EnterSet(t, s.now)) == 27
  {}

  lemma ReturnBringsNearer(c: Case, s: State, h: Hooks, f: Frame, o: Outcome)
    requires Knows(c, s, f, Some(o)) && IsCaller(f)
    ensures Nearer(c, f, OnReturn(s, h, f, o))
  {
    hide Final;
  }

  lemma MoveKeepsClock(s: State, h: Hooks, task: Task, i: Input)
    requires task.stack != []
    ensures var m := MoveOf(s, h, task, i); !m.Ignore? ==> m.s.now == s.now
  {
    hide EnterSet, Stored, VerifyToken, Truthy;
  }

  /** The state after the call id has been given these answers. */
  ghost function After(s: State, h: Hooks, id: nat, inputs: seq<Input>): State
    decreases |inputs|
  {
    if inputs == [] then s else After(Next(s, h, Run(id, inputs[0])), h, id, inputs[1..])
  }

  /** How far the call is from its end. */
  ghost function DistanceLeft(s: State, id: nat): nat {
    if id in s.tasks && s.tasks[id].stack != [] then 1 + Distance(s.tasks[id].stack[|s.tasks[id].stack| - 1]) else 0
  }

  lemma RunsNearer(c: Case, s: State, h: Hooks, id: nat) returns (i: Input)
    requires Inv(s) && id in s.tasks && OnStack(c, s, s.tasks[id]) && id < s.next && IsWhole(c.fate)
    requires forall f :: Timely(c, f, s.now)
    ensures Answers(c.fate, s.now, i) && DistanceLeft(Next(s, h, Run(id, i)), id) < DistanceLeft(s, id)
    ensures Next(s, h, Run(id, i)).now == s.now && Next(s, h, Run(id, i)).tasks.Keys <= s.tasks.Keys
  {
    var task := s.tasks[id];
    var top := task.stack[|task.stack| - 1];
    TopOf(c, s, task);
    i := AnswerTo(c.fate, top);
    hide *;
    CallerIs(s, id);
    AnswerFits(c, s, top);
    if task.result.Some? {
      ReturnBringsNearer(c, s, h, top, task.result.value);
    } else {
      AnswerBringsNearer(c, s, h, top);
    }
    TopMoves(s, h, id, i);
    NextIsMoved(s, h, id, i);
    MoveIs(s, h, task, i);
    MoveKeepsClock(s, h, task, i);
    MovedNearer(c, s, id, MoveOf(s, h, task, i));
  }

  lemma AnswerFits(c: Case, s: State, f: Frame)
    requires IsWhole(c.fate)
    ensures Answers(c.fate, s.now, AnswerTo(c.fate, f))
  {}

  lemma MoveIs(s: State, h: Hooks, task: Task, i: Input)
    requires task.stack != []
    ensures var top := task.stack[|task.stack| - 1];
      MoveOf(s, h, task, i) ==
        if task.result.Some? then OnReturn(s, h, top, task.result.value) else OnInput(s, h, top, i)
  {
    hide OnReturn, OnInput;
  }

  /** The innermost frame of the call id is m. */
  predicate WaitsIn(s: State, id: nat, m: Frame) {
    id in s.tasks && s.tasks[id].stack != [] && s.tasks[id].stack[|s.tasks[id].stack| - 1] == m
  }

  // The innermost frame after a move.
  lemma TopAfter(s: State, id: nat, move: Move)
    requires id in s.tasks && s.tasks[id].stack != [] && (!move.Ignore? ==> move.s.tasks == s.tasks)
    ensures var stack, u := s.tasks[id].stack, Moved(s, id, move);
      match move
      case Await(_, f) => WaitsIn(u, id, f)
      case Call(_, _, callee) => WaitsIn(u, id, callee)
      case Return(_, _) => if |stack| > 1 then WaitsIn(u, id, stack[|stack| - 2]) else id !in u.tasks
      case Ignore => u == s
  {
    var stack := s.tasks[id].stack;
    var n := |stack|;
    var below := stack[..n - 1];
    match move
    case Await(t, f) => assert (below + [f])[n - 1] == f;
    case Call(t, f, callee) => assert (below + [f, callee])[n] == callee;
    case Return(t, o) => if n > 1 { assert below[n - 2] == stack[n - 2]; }
    case Ignore =>
  }

  lemma MovedNearer(c: Case, s: State, id: nat, m: Move)
    requires Inv(s) && id in s.tasks && OnStack(c, s, s.tasks[id])
    requires GoodMove(s, s.tasks[id].stack[|s.tasks[id].stack| - 1], m) && (!m.Ignore? ==> m.s.now == s.now)
    requires Nearer(c, s.tasks[id].stack[|s.tasks[id].stack| - 1], m)
    ensures DistanceLeft(Moved(s, id, m), id) < DistanceLeft(s, id)
    ensures Moved(s, id, m).now == s.now && Moved(s, id, m).tasks.Keys <= s.tasks.Keys
  {
    CallerIs(s, id);
    var stack := s.tasks[id].stack;
    var n := |stack|;
    GoodSame(s, stack[n - 1], m);
    MovedFewer(s, id, m);
    hide Inv, Knows, Waits, GoodMove, Calls, KindOf, Distance, IsCaller, Moved;
    TopAfter(s, id, m);
  }

  lemma MovedFewer(s: State, id: nat, m: Move)
    requires id in s.tasks && s.tasks[id].stack != []
    requires !m.Ignore? ==> m.s.tasks == s.tasks && m.s.now == s.now
    ensures Moved(s, id, m).now == s.now && Moved(s, id, m).tasks.Keys <= s.tasks.Keys
  {}

  // Whatever stage a call that runs alone has reached, the environment can bring it to its end.
  lemma {:induction false} CallCanEnd(c: Case, s: State, h: Hooks, id: nat) returns (inputs: seq<Input>)
    requires Inv(s) && IsUnderWay(c, s, id) && IsWhole(c.fate) && s.tasks.Keys <= {id}
    requires forall f :: Timely(c, f, s.now)
    ensures IsOver(c, After(s, h, id, inputs), id)
    decreases DistanceLeft(s, id)
  {
    hide Inv, OnStack, Next, IsOver, DistanceLeft, Timely, Answers, IsWhole;
    inputs := [];
    if id in s.tasks {
      var i := RunsNearer(c, s, h, id);
      var t := Next(s, h, Run(id, i));
      NextInv(s, h, Run(id, i));
      TimelyTop(c, s, id);
      RanUnderWay(c, s, h, id, i);
      var more := CallCanEnd(c, t, h, id);
      inputs := [i] + more;
      assert inputs[1..] == more;
    }
  }

  lemma TimelyTop(c: Case, s: State, id: nat)
    requires id in s.tasks && OnStack(c, s, s.tasks[id]) && forall f :: Timely(c, f, s.now)
    ensures s.tasks[id].stack != [] && Timely(c, s.tasks[id].stack[|s.tasks[id].stack| - 1], s.now)
  {
    hide Timely, Knows;
  }

  // ---------- stages that no call skips ----------

  /** The call has to wait in the frame m: for a callback that is given, or for the logout of a session that is
      dropped. */
  predicate MustPass(c: Case, h: Hooks, m: Frame) {
    || (m == SetNotifying && h.created && GetsSession(c.fate))
    || (m == RefreshNotifying && h.refreshed && c.fate.Renews?)
    || (m == LogoutRead && c.fate.Leaves? && c.authenticated)
  }

  /** The call may wait there. */
  predicate MayPass(c: Case, h: Hooks, m: Frame) {
    && (m == SetNotifying ==> h.created) && (m == RefreshNotifying ==> h.refreshed)
    && (m == LogoutRead && c.fate.Leaves? ==> c.authenticated)
  }

  predicate IsStage(m: Frame) {
    m == SetNotifying || m == RefreshNotifying || m == LogoutRead
  }

  // A call that is not there yet comes no further than m.
  ghost predicate StopsAt(c: Case, f: Frame, m: Frame, move: Move) {
    match move
    case Await(_, g) => Distance(g) >= Distance(m)
    case Call(_, _, callee) => Distance(callee) >= Distance(m)
    case Return(_, _) =>
      KindOf(f) != RootOf(c.fate) && forall g :: Calls(g, KindOf(f)) && Waits(c.fate, g) ==> Distance(g) >= Distance(m)
    case Ignore => true
  }

  lemma InputStopsAt(c: Case, s: State, h: Hooks, f: Frame, i: Input, m: Frame)
    requires IsWhole(c.fate) && Knows(c, s, f, None) && !IsCaller(f) && Answers(c.fate, s.now, i)
    requires Timely(c, f, s.now) && MustPass(c, h, m) && Distance(f) > Distance(m)
    ensures StopsAt(c, f, m, OnInput(s, h, f, i))
  {
    hide Stored, Final, Returned;
  }

  lemma ReturnStopsAt(c: Case, s: State, h: Hooks, f: Frame, o: Outcome, m: Frame)
    requires Knows(c, s, f, Some(o)) && IsCaller(f) && MustPass(c, h, m) && Distance(f) > Distance(m)
    ensures StopsAt(c, f, m, OnReturn(s, h, f, o))
  {
    hide Final, Lasts, Given;
  }

  // Nor does it come to a stage that it may not pass.
  predicate Avoids(c: Case, h: Hooks, move: Move) {
    match move
    case Await(_, g) => MayPass(c, h, g)
    case Call(_, _, callee) => MayPass(c, h, callee)
    case _ => true
  }

  lemma InputAvoids(c: Case, s: State, h: Hooks, f: Frame, i: Input)
    requires Knows(c, s, f, None) && !IsCaller(f) && Timely(c, f, s.now)
    ensures Avoids(c, h, OnInput(s, h, f, i))
  {
    hide Stored, Final, Returned;
  }

  lemma ReturnAvoids(c: Case, s: State, h: Hooks, f: Frame, o: Outcome)
    requires Knows(c, s, f, Some(o)) && IsCaller(f)
    ensures Avoids(c, h, OnReturn(s, h, f, o))
  {
    hide Final, Lasts, Given;
  }

  lemma MoveStops(c: Case, s: State, h: Hooks, task: Task, i: Input, m: Frame)
    requires task.stack != [] && (IsCaller(task.stack[|task.stack| - 1]) <==> task.result.Some?) && IsWhole(c.fate)
    requires Knows(c, s, task.stack[|task.stack| - 1], task.result)
    requires Answers(c.fate, s.now, i) && Timely(c, task.stack[|task.stack| - 1], s.now)
    ensures MustPass(c, h, m) && Distance(task.stack[|task.stack| - 1]) > Distance(m) ==>
      StopsAt(c, task.stack[|task.stack| - 1], m, MoveOf(s, h, task, i))
    ensures Avoids(c, h, MoveOf(s, h, task, i))
  {
    hide Knows, OnInput, OnReturn, IsCaller, Timely, Answers, StopsAt, Avoids, IsWhole, Distance, MustPass;
    var top := task.stack[|task.stack| - 1];
    if task.result.Some? {
      ReturnAvoids(c, s, h, top, task.result.value);
      if MustPass(c, h, m) && Distance(top) > Distance(m) { ReturnStopsAt(c, s, h, top, task.result.value, m); }
    } else {
      InputAvoids(c, s, h, top, i);
      if MustPass(c, h, m) && Distance(top) > Distance(m) { InputStopsAt(c, s, h, top, i, m); }
    }
  }

  /** It has not come as far as m. */
  predicate IsBefore(s: State, id: nat, m: Frame) {
    id in s.tasks && s.tasks[id].stack != [] && Distance(s.tasks[id].stack[|s.tasks[id].stack| - 1]) > Distance(m)
  }

  lemma OnlyStage(f: Frame, m: Frame)
    requires IsStage(m) && Distance(f) == Distance(m)
    ensures f == m
  {}

  lemma StageOrBefore(s: State, id: nat, f: Frame, m: Frame)
    requires WaitsIn(s, id, f) && IsStage(m) && Distance(f) >= Distance(m)
    ensures WaitsIn(s, id, m) || IsBefore(s, id, m)
  {
    if Distance(f) == Distance(m) { OnlyStage(f, m); }
    hide Distance, IsStage;
  }

  lemma MovedStops(c: Case, s: State, id: nat, m: Frame, move: Move)
    requires Inv(s) && id in s.tasks && OnStack(c, s, s.tasks[id]) && IsStage(m) && IsBefore(s, id, m)
    requires GoodMove(s, s.tasks[id].stack[|s.tasks[id].stack| - 1], move)
    requires StopsAt(c, s.tasks[id].stack[|s.tasks[id].stack| - 1], m, move)
    ensures WaitsIn(Moved(s, id, move), id, m) || IsBefore(Moved(s, id, move), id, m)
  {
    CallerIs(s, id);
    var stack, u := s.tasks[id].stack, Moved(s, id, move);
    var n := |stack|;
    if !move.Ignore? { GoodSame(s, stack[n - 1], move); }
    hide Inv, Knows, Waits, GoodMove, Calls, KindOf, Distance, IsCaller, IsStage, Moved, WaitsIn;
    TopAfter(s, id, move);
    match move
    case Await(_, f) => StageOrBefore(u, id, f, m);
    case Call(_, _, callee) => StageOrBefore(u, id, callee, m);
    case Return(_, _) => StageOrBefore(u, id, stack[n - 2], m);
    case Ignore =>
  }

  lemma MovedAvoids(c: Case, s: State, h: Hooks, id: nat, m: Frame, move: Move)
    requires id in s.tasks && s.tasks[id].stack != [] && Avoids(c, h, move) && IsStage(m) && !MayPass(c, h, m)
    requires CallerIsNoStage(s.tasks[id].stack) && !WaitsIn(s, id, m)
    requires GoodMove(s, s.tasks[id].stack[|s.tasks[id].stack| - 1], move)
    ensures !WaitsIn(Moved(s, id, move), id, m)
  {
    if !move.Ignore? { GoodSame(s, s.tasks[id].stack[|s.tasks[id].stack| - 1], move); }
    hide GoodMove, MayPass, IsStage, Moved;
    TopAfter(s, id, move);
  }

  // Nobody waits for another call at a stage.
  predicate CallerIsNoStage(stack: seq<Frame>) {
    |stack| > 1 ==> !IsStage(stack[|stack| - 2])
  }

  lemma CallersAreNoStages(s: State, id: nat)
    requires Inv(s) && id in s.tasks
    ensures s.tasks[id].stack != [] && CallerIsNoStage(s.tasks[id].stack)
  {
    CallerIs(s, id);
    hide Inv;
  }

  lemma StepStops(c: Case, s: State, h: Hooks, id: nat, step: Step, m: Frame)
    requires Inv(s) && IsUnderWay(c, s, id) && IsWhole(c.fate) && Favours(c, s, Next(s, h, step), id, step)
    requires IsStage(m)
    ensures MustPass(c, h, m) && IsBefore(s, id, m) ==>
      WaitsIn(Next(s, h, step), id, m) || IsBefore(Next(s, h, step), id, m)
    ensures !MayPass(c, h, m) && !WaitsIn(s, id, m) ==> !WaitsIn(Next(s, h, step), id, m)
  {
    hide Knows, Final, Waits, Inv, Next, Answers, Timely, IsWhole, Distance, MustPass, MayPass, IsStage;
    if step.Run? && step.task == id && id in s.tasks {
      RanStops(c, s, h, id, step.input, m);
    } else {
      OtherSteps(s, h, id, step);
    }
  }

  lemma RanStops(c: Case, s: State, h: Hooks, id: nat, i: Input, m: Frame)
    requires Inv(s) && id in s.tasks && OnStack(c, s, s.tasks[id]) && id < s.next && IsWhole(c.fate) && IsStage(m)
    requires Answers(c.fate, s.now, i) && Timely(c, s.tasks[id].stack[|s.tasks[id].stack| - 1], s.now)
    ensures MustPass(c, h, m) && IsBefore(s, id, m) ==>
      WaitsIn(Next(s, h, Run(id, i)), id, m) || IsBefore(Next(s, h, Run(id, i)), id, m)
    ensures !MayPass(c, h, m) && !WaitsIn(s, id, m) ==> !WaitsIn(Next(s, h, Run(id, i)), id, m)
  {
    TopOf(c, s, s.tasks[id]);
    hide *;
    TopMoves(s, h, id, i);
    CallerIs(s, id);
    CallersAreNoStages(s, id);
    MoveStops(c, s, h, s.tasks[id], i, m);
    var move := MoveOf(s, h, s.tasks[id], i);
    NextIsMoved(s, h, id, i);
    BeforeIs(s, id, m);
    if MustPass(c, h, m) && IsBefore(s, id, m) { MovedStops(c, s, id, m, move); }
    if !MayPass(c, h, m) && !WaitsIn(s, id, m) { MovedAvoids(c, s, h, id, m, move); }
  }

  lemma BeforeIs(s: State, id: nat, m: Frame)
    requires id in s.tasks && s.tasks[id].stack != []
    ensures IsBefore(s, id, m) <==> Distance(s.tasks[id].stack[|s.tasks[id].stack| - 1]) > Distance(m)
  {}

  // A call that runs alone waits for each callback that is given before it ends well, and for none that is not; it
  // tells the server that it drops a session exactly when there is one.
  lemma {:induction false} CallPassesStages(h: Hooks, states: seq<State>, steps: seq<Step>, a: nat, b: nat, fate: Fate,
                                            m: Frame)
    requires RunsAlone(h, states, steps, a, b, fate) && IsStage(m)
    ensures var c, id := Case(fate, states[a].store, states[a].authenticated), states[a].next;
      && (MustPass(c, h, m) && !IsBefore(states[b], id, m) ==> exists k :: a < k <= b && WaitsIn(states[k], id, m))
      && (!MayPass(c, h, m) ==> !WaitsIn(states[b], id, m))
    decreases b
  {
    hide Inv, IsUnderWay, Favours, Begins, IsWhole, Next, MustPass, MayPass, IsBefore, WaitsIn;
    var c, id := Case(fate, states[a].store, states[a].authenticated), states[a].next;
    RunInv(h, states, steps, b - 1);
    assert states[b - 1 + 1] == Next(states[b - 1], h, steps[b - 1]);
    if b == a + 1 {
      StartsBefore(states[a], h, fate, steps[a], m);
    } else {
      CallPassesStages(h, states, steps, a, b - 1, fate, m);
      RunsToItsFate(h, states, steps, a, b - 1, fate);
      StepStops(c, states[b - 1], h, id, steps[b - 1], m);
    }
  }

  lemma FirstIsBefore(s: State, c: Case, h: Hooks, step: Step, m: Frame)
    requires Begins(c.fate, s, step) && c.store == s.store && c.authenticated == s.authenticated && IsStage(m)
    ensures Starts(step, s.now).Some?
    ensures MustPass(c, h, m) ==> Distance(Starts(step, s.now).value) > Distance(m)
    ensures !MayPass(c, h, m) ==> Starts(step, s.now).value != m
  {
    StartKnows(s, c, step);
    hide Lasts, VerifyToken, Final, Returned;
  }

  lemma StartsBefore(s: State, h: Hooks, fate: Fate, step: Step, m: Frame)
    requires Inv(s) && s.tasks == map[] && Begins(fate, s, step) && IsStage(m)
    ensures MustPass(Case(fate, s.store, s.authenticated), h, m) ==> IsBefore(Next(s, h, step), s.next, m)
    ensures !MayPass(Case(fate, s.store, s.authenticated), h, m) ==> !WaitsIn(Next(s, h, step), s.next, m)
  {
    NothingInFlight(s);
    FirstIsBefore(s, Case(fate, s.store, s.authenticated), h, step, m);
    BeginsNew(fate, s, step);
    hide Inv, Next, Starts, Begins, MustPass, MayPass, Distance, IsStage;
    NewTask(s, h, step);
  }
}
