/** When "authenticated" means that tokens are stored. */
module AuthenticatorSession {
  import opened Strings
  import opened Authenticator
  import opened AuthenticatorInvariant

  /** The session says authenticated just when an access token is stored. */
  predicate Agrees(s: State) {
    s.authenticated <==> Truthy(s.store.access)
  }

  // ---------- orderly runs ----------

  /** Tokens that are stored as given once their access token is verified. */
  predicate Whole(t: Tokens) {
    Truthy(t.access) && Truthy(t.refresh)
  }

  predicate Passes(t: Tokens, now: int) {
    t.access.Some? && VerifyToken(t.access.value, now)
  }

  // The frame waits for a write of the token store.
  predicate IsWrite(f: Frame) {
    f.SetClearing? || f.SetStoring? || f.ResetClearing?
  }

  /** Direct setTokens calls carry verified tokens, a verified session comes with both tokens, and no
      write of the token store fails. */
  predicate OrderlyStep(s: State, step: Step) {
    match step
    case SetTokens(tokens) => Passes(tokens, s.now) && Whole(tokens)
    case Run(id, i) =>
      && (i.Replied? && i.session.Some? && Passes(i.session.value, s.now) ==> Whole(i.session.value))
      && (i.Failed? && id in s.tasks && s.tasks[id].stack != [] ==>
        !IsWrite(s.tasks[id].stack[|s.tasks[id].stack| - 1]))
    case _ => true
  }

  /** At most one activation is alive. */
  ghost predicate Serial(s: State) {
    forall a, b :: a in s.tasks && b in s.tasks ==> a == b
  }

  ghost predicate Orderly(states: seq<State>, steps: seq<Step>)
    requires |states| == |steps| + 1
  {
    (forall i :: 0 <= i < |states| ==> Serial(states[i])) &&
      forall i :: 0 <= i < |steps| ==> OrderlyStep(states[i], steps[i])
  }

  // What the innermost frame of the one activation knows of session and store; `alone` when nobody
  // called it.
  predicate Knows(s: State, f: Frame, result: Option<Outcome>, alone: bool) {
    match f
    case SetClearing(cleared) => !alone && if cleared then !Truthy(s.store.access) else Agrees(s)
    case SetStoring(tokens, stored) => if stored then Truthy(s.store.access) else Agrees(s) && Whole(tokens)
    case ResetClearing(done) => done ==> !Truthy(s.store.access)
    case RefreshStoring => result == Some(Rejected) || Agrees(s)
    case LoginStoring => result == Some(Rejected) || Agrees(s)
    case _ => Agrees(s)
  }

  // What it leaves behind.
  predicate Leaves(f: Frame, alone: bool, m: Move) {
    match m
    case Await(t, g) => Knows(t, g, None, alone)
    case Call(t, g, callee) => Knows(t, callee, None, false)
    case Return(t, o) => Agrees(t) || (o.Rejected? && f.SetClearing? && !alone)
    case Ignore => true
  }

  lemma StoresAgree(t: Tokens)
    ensures !Truthy(NO_TOKENS.access) && (Whole(t) ==> Truthy(Stored(t).access))
  {}

  lemma EnteredKnows(s: State, t: Tokens, alone: bool)
    requires Agrees(s) && (Passes(t, s.now) ==> Whole(t)) && (alone ==> Passes(t, s.now))
    ensures Knows(s, EnterSet(t, s.now), None, alone)
  {
    hide Whole, Truthy, VerifyToken;
  }

  lemma InputLeaves(s: State, h: Hooks, f: Frame, i: Input, alone: bool)
    requires Knows(s, f, None, alone) && !IsCaller(f)
    requires i.Replied? && i.session.Some? && Passes(i.session.value, s.now) ==> Whole(i.session.value)
    requires i.Failed? ==> !IsWrite(f)
    ensures Leaves(f, alone, OnInput(s, h, f, i))
  {
    if IsWrite(f) {
      WriteLeaves(s, h, f, i, alone);
    } else {
      hide Truthy, VerifyToken, Whole, Passes, EnterSet, Stored, NO_TOKENS;
      if i.Replied? && i.session.Some? { EnteredKnows(s, i.session.value, false); }
    }
  }

  lemma WriteLeaves(s: State, h: Hooks, f: Frame, i: Input, alone: bool)
    requires Knows(s, f, None, alone) && IsWrite(f) && !i.Failed?
    ensures Leaves(f, alone, OnInput(s, h, f, i))
  {
    StoresAgree(NO_TOKENS);
    if f.SetStoring? { StoresAgree(f.tokens); }
    hide Truthy, Whole, Stored, NO_TOKENS;
  }

  lemma ReturnLeaves(s: State, h: Hooks, f: Frame, o: Outcome, alone: bool)
    requires Knows(s, f, Some(o), alone) && IsCaller(f)
    ensures Leaves(f, alone, OnReturn(s, h, f, o))
  {
    hide Truthy, Whole;
  }

  /** The innermost frame was called by one that waits for it, and setTokens by one that deals with its
      rejection. */
  predicate CalledRightly(stack: seq<Frame>)
    requires stack != []
  {
    var n := |stack|;
    n > 1 ==>
      IsCaller(stack[n - 2]) &&
      (stack[n - 1].SetClearing? ==> stack[n - 2] == RefreshStoring || stack[n - 2] == LoginStoring)
  }

  lemma CallersWait(f: Frame, g: Frame)
    requires Calls(f, KindOf(g))
    ensures IsCaller(f) && (g.SetClearing? ==> f == RefreshStoring || f == LoginStoring)
  {}

  lemma ValidStack(s: State, id: nat)
    requires Inv(s) && id in s.tasks
    ensures s.tasks[id].stack != [] && CalledRightly(s.tasks[id].stack)
    ensures IsCaller(s.tasks[id].stack[|s.tasks[id].stack| - 1]) <==> s.tasks[id].result.Some?
  {
    hide Fits, Accepts, Owned, OutcomesValid, CallersValid, StoreValid, IsRoot, IsCaller, Calls;
    var stack := s.tasks[id].stack;
    assert ValidTask(s.tasks[id]);
    var n := |stack|;
    if n > 1 {
      assert Calls(stack[n - 2], KindOf(stack[n - 2 + 1]));
      CallersWait(stack[n - 2], stack[n - 1]);
    }
  }

  lemma CallerKnows(s: State, f: Frame, o: Outcome, alone: bool)
    requires IsCaller(f) && (Agrees(s) || (o.Rejected? && (f == RefreshStoring || f == LoginStoring)))
    ensures Knows(s, f, Some(o), alone)
  {
    hide Agrees;
  }

  // ---------- every step keeps it ----------

  ghost predicate TaskKnows(s: State, t: Task) {
    t.stack != [] && Knows(s, t.stack[|t.stack| - 1], t.result, |t.stack| == 1)
  }

  ghost predicate Coherent(s: State) {
    (s.tasks == map[] ==> Agrees(s)) && forall id :: id in s.tasks ==> TaskKnows(s, s.tasks[id])
  }

  lemma KnowsSession(s: State, t: State, f: Frame, alone: bool)
    requires t.authenticated == s.authenticated && t.store == s.store
    ensures Knows(s, f, None, alone) ==> Knows(t, f, None, alone)
  {
    hide Truthy, Whole;
  }

  lemma SpawnCoherent(s: State, t: State, stack: seq<Frame>)
    requires Coherent(s) && stack != [] && Serial(t) && s.next !in s.tasks
    requires t.tasks == s.tasks[s.next := Task(stack, None)] && t.authenticated == s.authenticated && t.store == s.store
    requires Agrees(s) ==> Knows(s, stack[|stack| - 1], None, |stack| == 1)
    ensures Coherent(t)
  {
    hide Knows, Agrees;
    assert s.next in t.tasks;
    assert forall id :: id in t.tasks ==> id == s.next;
    assert s.tasks.Keys <= t.tasks.Keys;
    assert s.tasks == map[];
    KnowsSession(s, t, stack[|stack| - 1], |stack| == 1);
  }

  // The one activation runs.
  lemma RanCoherent(s: State, h: Hooks, id: nat, i: Input)
    requires Inv(s) && Coherent(s) && Serial(s) && id in s.tasks && OrderlyStep(s, Run(id, i))
    ensures s.tasks[id].stack != [] && Coherent(Moved(s, id, MoveOf(s, h, s.tasks[id], i)))
  {
    ValidStack(s, id);
    TopMoves(s, h, id, i);
    var task := s.tasks[id];
    assert TaskKnows(s, task);
    var n := |task.stack|;
    var top, m := task.stack[n - 1], MoveOf(s, h, task, i);
    GoodTasks(s, top, m);
    hide Inv, Coherent, OnInput, OnReturn, Knows, Agrees, IsCaller, IsWrite, Whole, Passes, GoodMove, CalledRightly,
      Moved;
    if task.result.Some? {
      ReturnLeaves(s, h, top, task.result.value, n == 1);
    } else {
      InputLeaves(s, h, top, i, n == 1);
    }
    MovedCoherent(s, id, m);
  }

  lemma GoodTasks(s: State, f: Frame, m: Move)
    requires GoodMove(s, f, m)
    ensures !m.Ignore? ==> m.s.tasks == s.tasks
  {
    hide Fits, Calls, KindOf, IsCaller, StoreValid;
  }

  lemma MovedCoherent(s: State, id: nat, m: Move)
    requires Coherent(s) && Serial(s) && id in s.tasks && s.tasks[id].stack != [] && CalledRightly(s.tasks[id].stack)
    requires !m.Ignore? ==> m.s.tasks == s.tasks
    requires Leaves(s.tasks[id].stack[|s.tasks[id].stack| - 1], |s.tasks[id].stack| == 1, m)
    ensures Coherent(Moved(s, id, m))
  {
    hide Knows, Agrees, CalledRightly;
    var stack := s.tasks[id].stack;
    var n := |stack|;
    var below, u := stack[..n - 1], Moved(s, id, m);
    assert forall j :: j in s.tasks ==> j == id;
    match m
    case Await(t, f) =>
      var stack' := below + [f];
      assert stack'[n - 1] == f && |stack'| == n && u.tasks[id] == Task(stack', None);
      KnowsSession(t, u, f, n == 1);
    case Call(t, f, callee) =>
      var stack' := below + [f, callee];
      assert stack'[n] == callee && |stack'| == n + 1 && u.tasks[id] == Task(stack', None);
      KnowsSession(t, u, callee, false);
    case Return(t, o) => ReturnedCoherent(s, id, t, o);
    case Ignore =>
  }

  lemma ReturnedCoherent(s: State, id: nat, t: State, o: Outcome)
    requires Serial(s) && id in s.tasks && s.tasks[id].stack != [] && CalledRightly(s.tasks[id].stack)
    requires t.tasks == s.tasks
    requires Leaves(s.tasks[id].stack[|s.tasks[id].stack| - 1], |s.tasks[id].stack| == 1, Return(t, o))
    ensures Coherent(Moved(s, id, Return(t, o)))
  {
    var stack := s.tasks[id].stack;
    var n := |stack|;
    var below, u := stack[..n - 1], Moved(s, id, Return(t, o));
    assert forall j :: j in s.tasks ==> j == id;
    if n > 1 {
      assert below[n - 2] == stack[n - 2];
      CallerKnows(u, stack[n - 2], o, n - 1 == 1);
    }
    SameAgrees(t, u);
    hide Knows, Agrees;
    if n > 1 {
      assert u.tasks[id] == Task(below, Some(o));
      assert TaskKnows(u, u.tasks[id]);
    } else {
      assert u.tasks == map[];
      assert Agrees(u);
    }
  }

  lemma SameAgrees(s: State, t: State)
    requires t.authenticated == s.authenticated && t.store == s.store
    ensures Agrees(s) == Agrees(t)
  {}

  lemma NextIsFree(s: State)
    requires Inv(s)
    ensures s.next !in s.tasks
  {
    hide ValidTask, Owned, OutcomesValid, CallersValid, StoreValid;
  }

  predicate IsStart(f: Frame) {
    f == AccessRead || f == LogoutRead || f == LoginPost || f == ResetClearing(false)
  }

  // A new activation starts.
  lemma StartCoherent(s: State, t: State, stack: seq<Frame>)
    requires Inv(s) && Coherent(s) && Serial(t) && stack != [] && IsStart(stack[|stack| - 1])
    requires t.authenticated == s.authenticated && t.store == s.store && t.tasks == s.tasks[s.next := Task(stack, None)]
    ensures Coherent(t)
  {
    NextIsFree(s);
    if Agrees(s) { PlainStarts(s, stack[|stack| - 1], |stack| == 1); }
    hide *;
    SpawnCoherent(s, t, stack);
  }

  lemma CallCoherent(s: State, h: Hooks, step: Step)
    requires Inv(s) && Coherent(s) && Serial(Next(s, h, step))
    requires (step.Login? || step.Logout? || step.Reset? || step.Unauthorized?)
    ensures Coherent(Next(s, h, step))
  {
    hide Inv, Coherent, Serial;
    var t := Next(s, h, step);
    match step
    case Login => StartCoherent(s, t, [LoginPost]);
    case Logout => StartCoherent(s, t, [LogoutRead]);
    case Reset => StartCoherent(s, t, [ResetClearing(false)]);
    case _ => if s.logoutInFlight.None? { StartCoherent(s, t, [Handling, LogoutRead]); }
  }

  lemma TokenCallCoherent(s: State, h: Hooks, c: nat)
    requires Inv(s) && Coherent(s) && Serial(Next(s, h, GetAccessToken(c)))
    ensures Coherent(Next(s, h, GetAccessToken(c)))
  {
    hide Inv, Coherent, Serial;
    var t := Next(s, h, GetAccessToken(c));
    if c in s.callers || s.inFlight.Some? { SameCoherent(s, t); } else { StartCoherent(s, t, [Flight, AccessRead]); }
  }

  lemma SetTokensCoherent(s: State, h: Hooks, tokens: Tokens)
    requires Inv(s) && Coherent(s) && Serial(Next(s, h, SetTokens(tokens))) && OrderlyStep(s, SetTokens(tokens))
    ensures Coherent(Next(s, h, SetTokens(tokens)))
  {
    NextIsFree(s);
    if Agrees(s) { EnteredKnows(s, tokens, true); }
    hide Inv, Coherent, Serial, Knows, Agrees, Passes, Whole, EnterSet;
    SpawnCoherent(s, Next(s, h, SetTokens(tokens)), [EnterSet(tokens, s.now)]);
  }

  lemma NextCoherent(s: State, h: Hooks, step: Step)
    requires Inv(s) && Coherent(s) && Serial(s) && Serial(Next(s, h, step)) && OrderlyStep(s, step)
    ensures Coherent(Next(s, h, step))
  {
    hide Inv, Coherent, Serial, Moved, MoveOf, OrderlyStep, Spawn, EnterSet;
    match step
    case Tick(_) => SameCoherent(s, Next(s, h, step));
    case Receive(_) => SameCoherent(s, Next(s, h, step));
    case GetAccessToken(c) => TokenCallCoherent(s, h, c);
    case SetTokens(tokens) => SetTokensCoherent(s, h, tokens);
    case Run(id, i) => if id in s.tasks { RanCoherent(s, h, id, i); }
    case _ => CallCoherent(s, h, step);
  }

  lemma PlainStarts(s: State, f: Frame, alone: bool)
    requires Agrees(s) && IsStart(f)
    ensures Knows(s, f, None, alone)
  {
    hide Agrees;
  }

  lemma SameCoherent(s: State, t: State)
    requires Coherent(s) && t.tasks == s.tasks && t.authenticated == s.authenticated && t.store == s.store
    ensures Coherent(t)
  {
    forall id | id in t.tasks ensures TaskKnows(t, t.tasks[id]) {
      assert TaskKnows(s, s.tasks[id]);
    }
    hide Truthy, Whole;
  }

  lemma {:induction false} OrderlyCoherent(h: Hooks, states: seq<State>, steps: seq<Step>, i: nat)
    requires IsRun(h, states, steps) && Orderly(states, steps) && i < |states|
    ensures Inv(states[i]) && Coherent(states[i])
    decreases i
  {
    hide Inv, Next, Serial, OrderlyStep;
    RunInv(h, states, steps, i);
    if i == 0 {
      InitCoherent(states[0].now);
    } else {
      hide Coherent;
      OrderlyCoherent(h, states, steps, i - 1);
      assert states[i - 1 + 1] == Next(states[i - 1], h, steps[i - 1]);
      NextCoherent(states[i - 1], h, steps[i - 1]);
    }
  }

  lemma InitCoherent(now: int)
    ensures Coherent(Init(now))
  {}

  // In an orderly run, whenever nothing is under way, "authenticated" means that tokens are stored.
  lemma OrderlyRunsAgree(h: Hooks, states: seq<State>, steps: seq<Step>, i: nat)
    requires IsRun(h, states, steps) && Orderly(states, steps) && i < |states| && states[i].tasks == map[]
    ensures states[i].authenticated <==> Truthy(states[i].store.access)
    ensures states[i].authenticated <==> Truthy(states[i].store.refresh)
  {
    hide IsRun, Orderly;
    OrderlyCoherent(h, states, steps, i);
  }

  // ---------- each of the conditions is needed ----------

  /** Some run that starts at time `now` takes the given steps and ends in s. */
  ghost predicate Reaches(h: Hooks, now: int, steps: seq<Step>, s: State) {
    exists states: seq<State> :: IsRun(h, states, steps) && states[0].now == now && states[|steps|] == s
  }

  lemma StartReaches(h: Hooks, now: int)
    ensures Reaches(h, now, [], Init(now))
  {
    assert IsRun(h, [Init(now)], []);
  }

  lemma OneMoreStep(h: Hooks, now: int, steps: seq<Step>, s: State, step: Step)
    requires Reaches(h, now, steps, s)
    ensures Reaches(h, now, steps + [step], Next(s, h, step))
  {
    hide Next;
    var states: seq<State> :| IsRun(h, states, steps) && states[0].now == now && states[|steps|] == s;
    assert IsRun(h, states + [Next(s, h, step)], steps + [step]);
  }

  /** A run takes the given steps, and then nothing is under way but the session is wrong about the store. */
  ghost predicate EndsWrong(h: Hooks, now: int, steps: seq<Step>, authenticated: bool) {
    exists s: State :: Reaches(h, now, steps, s) && s.tasks == map[] && !Agrees(s) && s.authenticated == authenticated
  }

  // A step of an activation that called nobody.
  lemma RunsAlone(s: State, h: Hooks, id: nat, f: Frame, i: Input)
    requires id in s.tasks && s.tasks[id] == Task([f], None) && f != Flight
    ensures var t := Next(s, h, Run(id, i));
      match OnInput(s, h, f, i)
      case Await(u, g) => t == u.(tasks := u.tasks[id := Task([g], None)])
      case Return(u, o) => t == u.(tasks := u.tasks - {id})
      case _ => true
  {
    hide OnInput, OnReturn;
    assert [f][..0] == [];
    assert forall g: Frame :: [] + [g] == [g];
  }

  lemma WriteAnswers(s: State, h: Hooks, tokens: Tokens)
    ensures OnInput(s, h, SetClearing(false), Write) == Await(s.(store := NO_TOKENS), SetClearing(true))
    ensures OnInput(s, h, SetClearing(true), Resume) == Return(s, Rejected)
    ensures OnInput(s, h, SetStoring(tokens, false), Write) ==
      Await(s.(store := Stored(tokens)), SetStoring(tokens, true))
    ensures OnInput(s, h, SetStoring(tokens, true), Failed) == Return(s, Rejected)
    ensures OnInput(s, h, ResetClearing(false), Write) == Await(s.(store := NO_TOKENS), ResetClearing(true))
    ensures OnInput(s, h, ResetClearing(true), Resume) ==
      if s.authenticated then
        Await(s.(authenticated := false, loaded := true, onLogoutCalls := s.onLogoutCalls + 1), ResetNotifying)
      else Return(s.(authenticated := false, loaded := true), Dropped)
    ensures OnInput(s, h, SetStoring(tokens, true), Resume) ==
      if h.created then Await(s.(authenticated := true, loaded := true), SetNotifying)
      else Return(s.(authenticated := true, loaded := true), Done)
    ensures OnInput(s, h, SetNotifying, Called(true)) == Return(s, Done)
  {}

  lemma EntersBy(tokens: Tokens, now: int)
    ensures EnterSet(tokens, now) == if Passes(tokens, now) then SetStoring(tokens, false) else SetClearing(false)
  {}

  // The store call of setTokens is made and answered.
  lemma StoringWrites(h: Hooks, now: int, steps: seq<Step>, s: State, tokens: Tokens) returns (t: State)
    requires Reaches(h, now, steps, s) && s.next !in s.tasks && Passes(tokens, s.now)
    ensures t == s.(store := Stored(tokens), tasks := s.tasks[s.next := Task([SetStoring(tokens, true)], None)],
      next := s.next + 1)
    ensures Reaches(h, now, steps + [SetTokens(tokens), Run(s.next, Write)], t)
  {
    EntersBy(tokens, s.now);
    var u := Next(s, h, SetTokens(tokens));
    assert u == Spawn(s, [SetStoring(tokens, false)]);
    OneMoreStep(h, now, steps, s, SetTokens(tokens));
    WriteAnswers(u, h, tokens);
    RunsAlone(u, h, s.next, SetStoring(tokens, false), Write);
    hide OnInput, Next, Stored, Reaches;
    OneMoreStep(h, now, steps + [SetTokens(tokens)], u, Run(s.next, Write));
    t := Next(u, h, Run(s.next, Write));
    assert steps + [SetTokens(tokens)] + [Run(s.next, Write)] == steps + [SetTokens(tokens), Run(s.next, Write)];
    assert u.tasks[s.next := Task([SetStoring(tokens, true)], None)] ==
      s.tasks[s.next := Task([SetStoring(tokens, true)], None)];
  }

  // The rest of setTokens; a step of an activation that has ended does nothing.
  lemma StoringEnds(h: Hooks, now: int, steps: seq<Step>, s: State, id: nat, tokens: Tokens) returns (t: State)
    requires Reaches(h, now, steps, s) && id in s.tasks && s.tasks[id] == Task([SetStoring(tokens, true)], None)
    ensures t == s.(authenticated := true, loaded := true, tasks := s.tasks - {id})
    ensures Reaches(h, now, steps + [Run(id, Resume), Run(id, Called(true))], t)
  {
    WriteAnswers(s, h, tokens);
    RunsAlone(s, h, id, SetStoring(tokens, true), Resume);
    OneMoreStep(h, now, steps, s, Run(id, Resume));
    hide OnInput, Reaches;
    var u := Next(s, h, Run(id, Resume));
    OneMoreStep(h, now, steps + [Run(id, Resume)], u, Run(id, Called(true)));
    t := Next(u, h, Run(id, Called(true)));
    assert steps + [Run(id, Resume)] + [Run(id, Called(true))] == steps + [Run(id, Resume), Run(id, Called(true))];
    if h.created {
      WriteAnswers(u, h, tokens);
      RunsAlone(u, h, id, SetNotifying, Called(true));
      assert u.tasks - {id} == s.tasks - {id};
    } else {
      assert id !in u.tasks;
    }
  }

  // In any state, a rejected direct setTokens empties the store and leaves the session as it was.
  lemma RejectedSetTokensKeepsSession(s: State, h: Hooks, tokens: Tokens)
    requires Inv(s) && s.authenticated && !(tokens.access.Some? && VerifyToken(tokens.access.value, s.now))
    ensures var s1 := Next(s, h, SetTokens(tokens));
      var s2 := Next(s1, h, Run(s.next, Write));
      var s3 := Next(s2, h, Run(s.next, Resume));
      s3.store == NO_TOKENS && s3.authenticated && s.next !in s3.tasks
  {
    hide Inv, VerifyToken, OnInput, Moved, MoveOf;
    var s1 := Next(s, h, SetTokens(tokens));
    assert s1.tasks[s.next] == Task([SetClearing(false)], None);
    RunsAlone(s1, h, s.next, SetClearing(false), Write);
    WriteAnswers(s1, h, tokens);
    var s2 := Next(s1, h, Run(s.next, Write));
    assert s2.tasks[s.next] == Task([SetClearing(true)], None);
    RunsAlone(s2, h, s.next, SetClearing(true), Resume);
    WriteAnswers(s2, h, tokens);
  }

  // A run that gets there: a direct setTokens whose access token does not verify empties the store and
  // leaves the session authenticated.
  lemma RejectedSetTokens(h: Hooks, now: int, good: Tokens, bad: Tokens)
    requires Passes(good, now) && !Passes(bad, now)
    ensures EndsWrong(h, now, [SetTokens(good), Run(0, Write), Run(0, Resume), Run(0, Called(true)),
                               SetTokens(bad), Run(1, Write), Run(1, Resume)], true)
  {
    hide Reaches, OnInput, Stored, Passes;
    StartReaches(h, now);
    var s2 := StoringWrites(h, now, [], Init(now), good);
    var a := [] + [SetTokens(good), Run(0, Write)];
    var s4 := StoringEnds(h, now, a, s2, 0, good);
    var b := a + [Run(0, Resume), Run(0, Called(true))];
    var s5 := Next(s4, h, SetTokens(bad));
    EntersBy(bad, now);
    assert s5 == Spawn(s4, [SetClearing(false)]);
    OneMoreStep(h, now, b, s4, SetTokens(bad));
    WriteAnswers(s5, h, bad);
    RunsAlone(s5, h, 1, SetClearing(false), Write);
    var s6 := Next(s5, h, Run(1, Write));
    OneMoreStep(h, now, b + [SetTokens(bad)], s5, Run(1, Write));
    WriteAnswers(s6, h, bad);
    RunsAlone(s6, h, 1, SetClearing(true), Resume);
    OneMoreStep(h, now, b + [SetTokens(bad)] + [Run(1, Write)], s6, Run(1, Resume));
    var s7 := Next(s6, h, Run(1, Resume));
    assert s7.tasks == map[];
    assert b + [SetTokens(bad)] + [Run(1, Write)] + [Run(1, Resume)] ==
      [SetTokens(good), Run(0, Write), Run(0, Resume), Run(0, Called(true)), SetTokens(bad), Run(1, Write),
        Run(1, Resume)];
  }

  // A verified access token that comes without a refresh token is not stored, but the session counts as
  // authenticated.
  lemma HalfSession(h: Hooks, now: int, half: Tokens)
    requires Passes(half, now) && !Whole(half)
    ensures EndsWrong(h, now, [SetTokens(half), Run(0, Write), Run(0, Resume), Run(0, Called(true))], true)
  {
    hide Reaches, OnInput;
    StartReaches(h, now);
    var s2 := StoringWrites(h, now, [], Init(now), half);
    var a := [] + [SetTokens(half), Run(0, Write)];
    var s4 := StoringEnds(h, now, a, s2, 0, half);
    assert a + [Run(0, Resume), Run(0, Called(true))] ==
      [SetTokens(half), Run(0, Write), Run(0, Resume), Run(0, Called(true))];
    assert s4.tasks == map[];
  }

  // A write of the token store that fails after it took effect leaves tokens without a session.
  lemma FailedWrite(h: Hooks, now: int, tokens: Tokens)
    requires Passes(tokens, now) && Whole(tokens)
    ensures EndsWrong(h, now, [SetTokens(tokens), Run(0, Write), Run(0, Failed)], false)
  {
    hide Reaches, OnInput;
    StartReaches(h, now);
    var s2 := StoringWrites(h, now, [], Init(now), tokens);
    var a := [] + [SetTokens(tokens), Run(0, Write)];
    WriteAnswers(s2, h, tokens);
    RunsAlone(s2, h, 0, SetStoring(tokens, true), Failed);
    OneMoreStep(h, now, a, s2, Run(0, Failed));
    var s3 := Next(s2, h, Run(0, Failed));
    assert a + [Run(0, Failed)] == [SetTokens(tokens), Run(0, Write), Run(0, Failed)];
    assert s3.tasks == map[];
  }

  // A reset that runs between the write of setTokens and its end leaves a session without tokens.
  lemma OverlappingCalls(h: Hooks, now: int, tokens: Tokens)
    requires Passes(tokens, now)
    ensures EndsWrong(h, now,
      [SetTokens(tokens), Run(0, Write), Reset, Run(1, Write), Run(1, Resume), Run(0, Resume),
      Run(0, Called(true))], true)
  {
    hide Reaches, OnInput, Stored, Passes;
    StartReaches(h, now);
    var s2 := StoringWrites(h, now, [], Init(now), tokens);
    var a := [] + [SetTokens(tokens), Run(0, Write)];
    var s3 := Next(s2, h, Reset);
    OneMoreStep(h, now, a, s2, Reset);
    WriteAnswers(s3, h, tokens);
    RunsAlone(s3, h, 1, ResetClearing(false), Write);
    var s4 := Next(s3, h, Run(1, Write));
    OneMoreStep(h, now, a + [Reset], s3, Run(1, Write));
    WriteAnswers(s4, h, tokens);
    RunsAlone(s4, h, 1, ResetClearing(true), Resume);
    var s5 := Next(s4, h, Run(1, Resume));
    OneMoreStep(h, now, a + [Reset] + [Run(1, Write)], s4, Run(1, Resume));
    var b := a + [Reset] + [Run(1, Write)] + [Run(1, Resume)];
    var s7 := StoringEnds(h, now, b, s5, 0, tokens);
    assert s7.tasks == map[];
    assert b + [Run(0, Resume), Run(0, Called(true))] ==
      [SetTokens(tokens), Run(0, Write), Reset, Run(1, Write), Run(1, Resume), Run(0, Resume), Run(0, Called(true))];
  }
}
