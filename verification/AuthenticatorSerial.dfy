/** What each call of the token protocol does when it runs alone: which tokens its caller gets, what is
    stored afterwards, and whether the session is authenticated. */
module AuthenticatorSerial {
  import opened Strings
  import opened Authenticator
  import opened AuthenticatorInvariant
  import opened AuthenticatorRuns

  // ---------- tokens ----------

  predicate Given(t: Option<Token>) {
    t.Some? && t.value.text != ""
  }

  /** The token decodes and does not expire within a minute. */
  predicate Lasts(t: Option<Token>, now: int) {
    t.Some? && t.value.exp.Some? && t.value.exp.value * 1000 - now >= 60_000
  }

  predicate Usable(t: Option<Token>, now: int) {
    Given(t) && Lasts(t, now)
  }

  lemma LastsIsVerified(t: Token, now: int)
    ensures VerifyToken(t, now) <==> Lasts(Some(t), now)
  {}

  /** Store and session hold these tokens. */
  predicate HasSession(s: State, t: Tokens) {
    s.store == t && s.authenticated && s.loaded
  }

  predicate HasNoSession(s: State) {
    s.store == Tokens(None, None) && !s.authenticated && s.loaded
  }

  // ---------- how a call ends ----------

  /** What becomes of a call: getAccessToken keeps the stored token, renews it, is refused a new one, or has
      nothing to renew it with; login is accepted or declined; logout, reset and setTokens do their work, and so
      does the logout that a 401 response causes. In a smooth logout or reset no request and no callback fails. */
  datatype Fate =
    | Keeps | Renews(session: Tokens) | IsRefused | Leaves(smooth: bool)
    | IsAccepted(session: Tokens) | IsDeclined
    | LogsOut(smooth: bool) | Clears(smooth: bool) | Takes(session: Tokens) | Ejects

  /** A call with its fate, and what was stored when it began. */
  datatype Case = Case(fate: Fate, store: Tokens, authenticated: bool)

  predicate GetsSession(fate: Fate) {
    fate.Renews? || fate.IsAccepted? || fate.Takes?
  }

  predicate LosesSession(fate: Fate) {
    fate.IsRefused? || fate.Leaves? || fate.IsDeclined? || fate.LogsOut? || fate.Clears? || fate.Ejects?
  }

  predicate IsSmoothCall(fate: Fate) {
    (fate.Leaves? || fate.LogsOut? || fate.Clears?) && fate.smooth
  }

  predicate DropsByLogout(fate: Fate) {
    fate.Leaves? || fate.LogsOut? || fate.Ejects?
  }

  function RootOf(fate: Fate): Kind {
    match fate
    case IsAccepted(_) => Logins
    case IsDeclined => Logins
    case LogsOut(_) => Logouts
    case Clears(_) => Resets
    case Takes(_) => Sets
    case Ejects => Handlers
    case _ => Flights
  }

  predicate Untouched(c: Case, s: State) {
    s.store == c.store && s.authenticated == c.authenticated
  }

  predicate Drops(fate: Fate, s: State, o: Outcome) {
    HasNoSession(s) && (o == Dropped || (!IsSmoothCall(fate) && o == Rejected))
  }

  /** How the call leaves store and session, and what it ends with. */
  predicate Final(c: Case, s: State, o: Outcome) {
    match c.fate
    case Keeps => Untouched(c, s) && o.Granted? && Some(o.token) == c.store.access
    case Renews(session) => HasSession(s, session) && o.Granted? && Some(o.token) == session.access
    case IsRefused => HasNoSession(s) && o == Rejected
    case Leaves(_) => Drops(c.fate, s, o)
    case IsAccepted(session) => HasSession(s, session) && o == Done
    case IsDeclined => HasNoSession(s) && o == Rejected
    case LogsOut(_) => Drops(c.fate, s, o)
    case Clears(_) => Drops(c.fate, s, o)
    case Takes(session) => HasSession(s, session) && o == Done
    case Ejects => HasNoSession(s) && o == Done
  }

  // ---------- on the way there ----------

  // A call of this kind may wait in the frame f for another one.
  predicate Waits(fate: Fate, f: Frame) {
    || (f == Flight && RootOf(fate) == Flights)
    || ((f == AccessRefreshing || f == RefreshStoring) && (fate.Renews? || fate.IsRefused?))
    || (f == RefreshFailing && fate.IsRefused?)
    || (f == AccessLeaving && fate.Leaves?)
    || (f.LogoutResetting? && DropsByLogout(fate) && (IsSmoothCall(fate) ==> !f.failed))
    || (f == LoginStoring && (fate.IsAccepted? || fate.IsDeclined?))
    || (f == LoginFailing && fate.IsDeclined?)
    || (f == Handling && fate.Ejects?)
  }

  // The call gets a session, and store and state hold it.
  predicate GotSession(c: Case, s: State) {
    GetsSession(c.fate) && HasSession(s, c.fate.session)
  }

  // What the innermost frame of the call knows.
  predicate Knows(c: Case, s: State, f: Frame, result: Option<Outcome>) {
    if IsCaller(f) then Waits(c.fate, f) && result.Some? && Returned(c, s, f, result.value)
    else if KindOf(f) == Sets then KnowsTokens(c, s, f)
    else if KindOf(f) == Resets then LosesSession(c.fate) && KnowsEmpty(s, f)
    else if KindOf(f) == Logouts then DropsByLogout(c.fate)
    else if KindOf(f) == Logins then c.fate.IsAccepted? || c.fate.IsDeclined?
    else if f == AccessRead then RootOf(c.fate) == Flights && Untouched(c, s)
    else if f == AccessReread || f == RefreshNotifying then c.fate.Renews? && GotSession(c, s)
    else (c.fate.Renews? || c.fate.IsRefused?) && KnowsRefresh(c, s, f)
  }

  predicate KnowsTokens(c: Case, s: State, f: Frame) {
    if f.SetClearing? then c.fate.IsRefused? || c.fate.IsDeclined?
    else if f.SetStoring? then
      GetsSession(c.fate) && f.tokens == c.fate.session && (f.stored ==> s.store == f.tokens)
    else GotSession(c, s)
  }

  predicate KnowsEmpty(s: State, f: Frame) {
    if f.ResetClearing? then f.done ==> s.store == Tokens(None, None) else HasNoSession(s)
  }

  predicate KnowsRefresh(c: Case, s: State, f: Frame) {
    if f.RefreshPost? then c.store.refresh == Some(f.with) else Untouched(c, s) && Given(c.store.refresh)
  }

  // What a frame that waited knows when its call has ended with o.
  predicate Returned(c: Case, s: State, f: Frame, o: Outcome) {
    if f == Flight then Final(c, s, o)
    else if f == AccessRefreshing then
      (if c.fate.Renews? then o == Done && GotSession(c, s) else o == Rejected && HasNoSession(s))
    else if f == RefreshStoring || f == LoginStoring then
      (if GetsSession(c.fate) then o == Done && GotSession(c, s) else o == Rejected)
    else if f == AccessLeaving || f.LogoutResetting? then Drops(c.fate, s, o)
    else HasNoSession(s)
  }

  // ---------- what the environment does meanwhile ----------

  /** A token session comes with both tokens. */
  predicate IsWhole(fate: Fate) {
    GetsSession(fate) ==> Given(fate.session.access) && Given(fate.session.refresh)
  }

  /** The answer that the environment gives. */
  predicate Answers(fate: Fate, now: int, i: Input) {
    !i.Failed? &&
    match fate
    case Keeps => true
    case Ejects => true
    case IsRefused => i.Replied? && i.session.Some? ==> !Lasts(i.session.value.access, now)
    case IsDeclined => i.Replied? && i.session.Some? ==> !Lasts(i.session.value.access, now)
    case Leaves(smooth) => smooth ==> IsSmooth(i)
    case LogsOut(smooth) => smooth ==> IsSmooth(i)
    case Clears(smooth) => smooth ==> IsSmooth(i)
    case _ => IsSmooth(i) && (i.Replied? ==> i.session == Some(fate.session))
  }

  /** No request and no callback fails. */
  predicate IsSmooth(i: Input) {
    !i.NetworkFailed? && (i.Called? ==> i.ok)
  }

  /** What the clock makes of the tokens: of the stored one when it is first read, of a new one after that. */
  predicate Timely(c: Case, f: Frame, now: int) {
    if f.AccessRead? then
      match c.fate
      case Keeps => Usable(c.store.access, now)
      case Leaves(_) => !Usable(c.store.access, now) && !Given(c.store.refresh)
      case _ => !Usable(c.store.access, now) && Given(c.store.refresh)
    else c.fate.Renews? || c.fate.IsAccepted? ==> Lasts(c.fate.session.access, now)
  }

  // ---------- one stretch ----------

  ghost predicate GoesOn(c: Case, f: Frame, m: Move) {
    match m
    case Await(t, g) => Knows(c, t, g, None)
    case Call(t, g, callee) => Waits(c.fate, g) && Knows(c, t, callee, None)
    case Return(t, o) =>
      (KindOf(f) == RootOf(c.fate) ==> Final(c, t, o)) &&
        forall g :: Calls(g, KindOf(f)) && Waits(c.fate, g) ==> Knows(c, t, g, Some(o))
    case Ignore => true
  }

  lemma TakesOn(c: Case, s: State, h: Hooks, f: Frame, i: Input)
    requires IsWhole(c.fate) && Knows(c, s, f, None) && (f.SetStoring? || f == SetNotifying)
    requires Answers(c.fate, s.now, i)
    ensures GoesOn(c, f, OnInput(s, h, f, i))
  {
    WholeIsStored(c.fate);
    hide Lasts, VerifyToken, Truthy, Given, Stored, EnterSet, AfterRead, IsWhole;
  }

  lemma WholeIsStored(fate: Fate)
    requires IsWhole(fate)
    ensures GetsSession(fate) ==> Stored(fate.session) == fate.session
  {}

  lemma TurnsDown(c: Case, s: State, h: Hooks, f: Frame, i: Input)
    requires Knows(c, s, f, None) && f.SetClearing? && Answers(c.fate, s.now, i)
    ensures GoesOn(c, f, OnInput(s, h, f, i))
  {
    hide Lasts, VerifyToken, Truthy, Given, Stored, EnterSet, AfterRead, IsWhole, Final;
  }

  lemma SetsGoOn(c: Case, s: State, h: Hooks, f: Frame, i: Input)
    requires IsWhole(c.fate) && Knows(c, s, f, None) && KindOf(f) == Sets && Answers(c.fate, s.now, i)
    ensures GoesOn(c, f, OnInput(s, h, f, i))
  {
    SetsFrames(f);
    hide *;
    if f.SetClearing? { TurnsDown(c, s, h, f, i); } else { TakesOn(c, s, h, f, i); }
  }

  lemma SetsFrames(f: Frame)
    requires KindOf(f) == Sets
    ensures f.SetClearing? || f.SetStoring? || f == SetNotifying
  {}

  lemma ResetsGoOn(c: Case, s: State, h: Hooks, f: Frame, i: Input)
    requires Knows(c, s, f, None) && KindOf(f) == Resets && Answers(c.fate, s.now, i)
    ensures GoesOn(c, f, OnInput(s, h, f, i))
  {
  }

  lemma LogoutsGoOn(c: Case, s: State, h: Hooks, f: Frame, i: Input)
    requires Knows(c, s, f, None) && (f == LogoutRead || f == LogoutPost) && Answers(c.fate, s.now, i)
    ensures GoesOn(c, f, OnInput(s, h, f, i))
  {
  }

  lemma PostsGoOn(c: Case, s: State, h: Hooks, f: Frame, i: Input)
    requires Knows(c, s, f, None) && (f.RefreshPost? || f == LoginPost) && Answers(c.fate, s.now, i)
    requires Timely(c, f, s.now)
    ensures GoesOn(c, f, OnInput(s, h, f, i))
  {
  }

  lemma RefreshesGoOn(c: Case, s: State, h: Hooks, f: Frame, i: Input)
    requires Knows(c, s, f, None) && (f == RefreshRead || f == RefreshNotifying) && Answers(c.fate, s.now, i)
    ensures GoesOn(c, f, OnInput(s, h, f, i))
  {
  }

  lemma ReadGoesOn(c: Case, s: State, h: Hooks, i: Input)
    requires Knows(c, s, AccessRead, None) && Timely(c, AccessRead, s.now) && Answers(c.fate, s.now, i)
    ensures GoesOn(c, AccessRead, OnInput(s, h, AccessRead, i))
  {
    hide IsWhole, IsSmooth;
  }

  lemma RereadGoesOn(c: Case, s: State, h: Hooks, i: Input)
    requires IsWhole(c.fate) && Knows(c, s, AccessReread, None) && Timely(c, AccessReread, s.now)
    requires Answers(c.fate, s.now, i)
    ensures GoesOn(c, AccessReread, OnInput(s, h, AccessReread, i))
  {
  }

  lemma AccessesGoOn(c: Case, s: State, h: Hooks, f: Frame, i: Input)
    requires IsWhole(c.fate) && Knows(c, s, f, None) && (f == AccessRead || f == AccessReread)
    requires Timely(c, f, s.now) && Answers(c.fate, s.now, i)
    ensures GoesOn(c, f, OnInput(s, h, f, i))
  {
    hide *;
    if f == AccessRead { ReadGoesOn(c, s, h, i); } else { RereadGoesOn(c, s, h, i); }
  }

  lemma FrameKinds(f: Frame)
    requires !IsCaller(f)
    ensures KindOf(f) == Sets || KindOf(f) == Resets || f == LogoutRead || f == LogoutPost || f == AccessRead ||
      f == AccessReread || f == RefreshRead || f == RefreshNotifying || f.RefreshPost? || f == LoginPost
  {}

  lemma InputGoesOn(c: Case, s: State, h: Hooks, f: Frame, i: Input)
    requires IsWhole(c.fate) && Knows(c, s, f, None) && !IsCaller(f) && Answers(c.fate, s.now, i)
    requires Timely(c, f, s.now)
    ensures GoesOn(c, f, OnInput(s, h, f, i))
  {
    FrameKinds(f);
    hide *;
    if KindOf(f) == Sets {
      SetsGoOn(c, s, h, f, i);
    } else if KindOf(f) == Resets {
      ResetsGoOn(c, s, h, f, i);
    } else if f == LogoutRead || f == LogoutPost {
      LogoutsGoOn(c, s, h, f, i);
    } else if f == AccessRead || f == AccessReread {
      AccessesGoOn(c, s, h, f, i);
    } else if f == RefreshRead || f == RefreshNotifying {
      RefreshesGoOn(c, s, h, f, i);
    } else {
      PostsGoOn(c, s, h, f, i);
    }
  }

  lemma OuterReturnGoesOn(c: Case, s: State, h: Hooks, f: Frame, o: Outcome)
    requires Knows(c, s, f, Some(o)) && IsCaller(f) && !f.LogoutResetting? && !f.RefreshStoring? && !f.LoginStoring?
    ensures GoesOn(c, f, OnReturn(s, h, f, o))
  {
    hide Lasts, Given;
  }

  lemma InnerReturnGoesOn(c: Case, s: State, h: Hooks, f: Frame, o: Outcome)
    requires Knows(c, s, f, Some(o)) && (f.LogoutResetting? || f.RefreshStoring? || f.LoginStoring?)
    ensures GoesOn(c, f, OnReturn(s, h, f, o))
  {
    hide Lasts, Given;
  }

  lemma ReturnGoesOn(c: Case, s: State, h: Hooks, f: Frame, o: Outcome)
    requires Knows(c, s, f, Some(o)) && IsCaller(f)
    ensures GoesOn(c, f, OnReturn(s, h, f, o))
  {
    hide *;
    if f.LogoutResetting? || f.RefreshStoring? || f.LoginStoring? {
      InnerReturnGoesOn(c, s, h, f, o);
    } else {
      OuterReturnGoesOn(c, s, h, f, o);
    }
  }

  // ---------- one step ----------

  ghost predicate OnStack(c: Case, s: State, task: Task) {
    var n := |task.stack|;
    && n > 0 && KindOf(task.stack[0]) == RootOf(c.fate)
    && (forall j :: 0 <= j < n - 1 ==> Waits(c.fate, task.stack[j]))
    && Knows(c, s, task.stack[n - 1], task.result)
  }

  /** The call id is over and ended as its fate says. */
  ghost predicate IsOver(c: Case, s: State, id: nat) {
    && id !in s.tasks
    && (if RootOf(c.fate) == Flights then id in s.outcomes && Final(c, s, s.outcomes[id])
        else exists o :: Final(c, s, o))
  }

  /** The call id is under way to its fate, or over. */
  ghost predicate IsUnderWay(c: Case, s: State, id: nat) {
    id < s.next && if id in s.tasks then OnStack(c, s, s.tasks[id]) else IsOver(c, s, id)
  }

  lemma KnowsSession(c: Case, s: State, t: State, f: Frame, result: Option<Outcome>)
    requires t.store == s.store && t.authenticated == s.authenticated && t.loaded == s.loaded
    ensures Knows(c, s, f, result) ==> Knows(c, t, f, result)
  {
    if result.Some? { FinalSession(c, s, t, result.value); }
    hide Waits, KindOf, IsCaller, RootOf, DropsByLogout, IsSmoothCall, LosesSession, Given, Final;
  }

  lemma FinalSession(c: Case, s: State, t: State, o: Outcome)
    requires t.store == s.store && t.authenticated == s.authenticated && t.loaded == s.loaded
    ensures Final(c, s, o) ==> Final(c, t, o)
  {
    hide IsSmoothCall;
  }

  lemma CallerIs(s: State, id: nat)
    requires Inv(s) && id in s.tasks
    ensures var stack := s.tasks[id].stack;
      stack != [] && (|stack| > 1 ==> Calls(stack[|stack| - 2], KindOf(stack[|stack| - 1]))) &&
      (IsCaller(stack[|stack| - 1]) <==> s.tasks[id].result.Some?)
  {
    hide Fits, Accepts, Owned, OutcomesValid, CallersValid, StoreValid, IsRoot, Calls, IsCaller, KindOf;
    assert ValidTask(s.tasks[id]);
    var stack := s.tasks[id].stack;
    if |stack| > 1 { assert Calls(stack[|stack| - 2], KindOf(stack[|stack| - 2 + 1])); }
  }

  lemma FlightIsItsKind(f: Frame)
    ensures KindOf(f) == Flights <==> f == Flight
  {}

  lemma GoodSame(s: State, f: Frame, m: Move)
    requires GoodMove(s, f, m) && !m.Ignore?
    ensures m.s.tasks == s.tasks && m.s.next == s.next && m.s.outcomes == s.outcomes && m.s.callers == s.callers
  {
    hide Fits, Calls, KindOf, IsCaller, StoreValid;
  }

  // The task's frames below the innermost one stay as they are.
  lemma StaysOnStack(c: Case, s: State, t: State, was: seq<Frame>, more: seq<Frame>, result: Option<Outcome>)
    requires was != [] && KindOf(was[0]) == RootOf(c.fate) && 0 < |more|
    requires |was| == 1 ==> KindOf(more[0]) == RootOf(c.fate)
    requires forall j :: 0 <= j < |was| - 1 ==> Waits(c.fate, was[j])
    requires forall j :: 0 <= j < |more| - 1 ==> Waits(c.fate, more[j])
    requires Knows(c, s, more[|more| - 1], result)
    requires t.store == s.store && t.authenticated == s.authenticated && t.loaded == s.loaded
    ensures OnStack(c, t, Task(was[..|was| - 1] + more, result))
  {
    hide Knows, Waits, KindOf, Final;
    var stack := was[..|was| - 1] + more;
    assert stack[|stack| - 1] == more[|more| - 1];
    KnowsSession(c, s, t, more[|more| - 1], result);
  }

  lemma ReturnedToCaller(c: Case, s: State, id: nat, t: State, o: Outcome)
    requires id in s.tasks && id < s.next && |s.tasks[id].stack| > 1
    requires t.tasks == s.tasks && t.next == s.next
    requires var stack := s.tasks[id].stack;
      KindOf(stack[0]) == RootOf(c.fate) && (forall j :: 0 <= j < |stack| - 1 ==> Waits(c.fate, stack[j])) &&
      Knows(c, t, stack[|stack| - 2], Some(o))
    ensures IsUnderWay(c, Moved(s, id, Return(t, o)), id)
  {
    hide Knows, Waits, KindOf, RootOf, IsOver;
    var stack := s.tasks[id].stack;
    var n, u := |stack|, Moved(s, id, Return(t, o));
    KnowsSession(c, t, u, stack[n - 2], Some(o));
    assert u.tasks[id] == Task(stack[..n - 1], Some(o));
  }

  lemma ReturnedFromRoot(c: Case, s: State, id: nat, t: State, o: Outcome)
    requires id in s.tasks && id < s.next && |s.tasks[id].stack| == 1
    requires t.tasks == s.tasks && t.next == s.next && t.outcomes == s.outcomes
    requires RootOf(c.fate) == Flights <==> s.tasks[id].stack[0] == Flight
    requires Final(c, t, o)
    ensures IsUnderWay(c, Moved(s, id, Return(t, o)), id)
  {
    FinalSession(c, t, Moved(s, id, Return(t, o)), o);
    hide Final, Knows;
  }

  lemma ReturnedUnderWay(c: Case, s: State, id: nat, t: State, o: Outcome)
    requires Inv(s) && id in s.tasks && OnStack(c, s, s.tasks[id]) && id < s.next
    requires t.tasks == s.tasks && t.next == s.next && t.outcomes == s.outcomes
    requires GoesOn(c, s.tasks[id].stack[|s.tasks[id].stack| - 1], Return(t, o))
    ensures IsUnderWay(c, Moved(s, id, Return(t, o)), id)
  {
    CallerIs(s, id);
    var stack := s.tasks[id].stack;
    var n := |stack|;
    FlightIsItsKind(stack[n - 1]);
    hide Knows, Waits, Final, Inv, KindOf, Calls, IsCaller, Moved, IsUnderWay;
    if n > 1 {
      ReturnedToCaller(c, s, id, t, o);
    } else {
      ReturnedFromRoot(c, s, id, t, o);
    }
  }

  lemma MovedUnderWay(c: Case, s: State, id: nat, m: Move)
    requires Inv(s) && id in s.tasks && OnStack(c, s, s.tasks[id]) && id < s.next
    requires GoodMove(s, s.tasks[id].stack[|s.tasks[id].stack| - 1], m)
    requires GoesOn(c, s.tasks[id].stack[|s.tasks[id].stack| - 1], m)
    ensures IsUnderWay(c, Moved(s, id, m), id)
  {
    var stack := s.tasks[id].stack;
    var n := |stack|;
    if !m.Ignore? { GoodSame(s, stack[n - 1], m); }
    SameRoot(s, stack[n - 1], m);
    hide Knows, Waits, Final, Inv, KindOf, GoodMove, Calls, Returned;
    match m
    case Await(t, f) => AwaitUnderWay(c, s, id, t, f);
    case Call(t, f, callee) => CallUnderWay(c, s, id, t, f, callee);
    case Return(t, o) => ReturnedUnderWay(c, s, id, t, o);
    case Ignore =>
  }

  lemma AwaitUnderWay(c: Case, s: State, id: nat, t: State, f: Frame)
    requires id in s.tasks && OnStack(c, s, s.tasks[id]) && id < s.next && t.tasks == s.tasks && t.next == s.next
    requires KindOf(f) == KindOf(s.tasks[id].stack[|s.tasks[id].stack| - 1]) && Knows(c, t, f, None)
    ensures IsUnderWay(c, Moved(s, id, Await(t, f)), id)
  {
    hide Knows, Waits, Final, KindOf;
    StaysOnStack(c, t, Moved(s, id, Await(t, f)), s.tasks[id].stack, [f], None);
  }

  lemma CallUnderWay(c: Case, s: State, id: nat, t: State, f: Frame, callee: Frame)
    requires id in s.tasks && OnStack(c, s, s.tasks[id]) && id < s.next && t.tasks == s.tasks && t.next == s.next
    requires KindOf(f) == KindOf(s.tasks[id].stack[|s.tasks[id].stack| - 1])
    requires Waits(c.fate, f) && Knows(c, t, callee, None)
    ensures IsUnderWay(c, Moved(s, id, Call(t, f, callee)), id)
  {
    hide Knows, Waits, Final, KindOf;
    StaysOnStack(c, t, Moved(s, id, Call(t, f, callee)), s.tasks[id].stack, [f, callee], None);
  }

  lemma SameRoot(s: State, f: Frame, m: Move)
    requires GoodMove(s, f, m)
    ensures m.Await? || m.Call? ==> KindOf(m.frame) == KindOf(f)
  {
    hide Fits, Calls, KindOf, IsCaller, StoreValid, SessionMoves;
  }

  lemma MoveGoesOn(c: Case, s: State, h: Hooks, task: Task, i: Input)
    requires task.stack != [] && (IsCaller(task.stack[|task.stack| - 1]) <==> task.result.Some?) && IsWhole(c.fate)
    requires Knows(c, s, task.stack[|task.stack| - 1], task.result)
    requires Answers(c.fate, s.now, i) && Timely(c, task.stack[|task.stack| - 1], s.now)
    ensures GoesOn(c, task.stack[|task.stack| - 1], MoveOf(s, h, task, i))
  {
    hide Knows, Waits, OnInput, OnReturn, IsCaller, Timely, Answers, GoesOn, IsWhole;
    var top := task.stack[|task.stack| - 1];
    if task.result.Some? {
      ReturnGoesOn(c, s, h, top, task.result.value);
    } else {
      InputGoesOn(c, s, h, top, i);
    }
  }

  lemma RanUnderWay(c: Case, s: State, h: Hooks, id: nat, i: Input)
    requires Inv(s) && id in s.tasks && OnStack(c, s, s.tasks[id]) && id < s.next && IsWhole(c.fate)
    requires Answers(c.fate, s.now, i) && Timely(c, s.tasks[id].stack[|s.tasks[id].stack| - 1], s.now)
    ensures IsUnderWay(c, Next(s, h, Run(id, i)), id)
  {
    TopOf(c, s, s.tasks[id]);
    hide *;
    TopMoves(s, h, id, i);
    CallerIs(s, id);
    MoveGoesOn(c, s, h, s.tasks[id], i);
    MovedUnderWay(c, s, id, MoveOf(s, h, s.tasks[id], i));
    NextIsMoved(s, h, id, i);
  }

  lemma TopOf(c: Case, s: State, task: Task)
    requires OnStack(c, s, task)
    ensures task.stack != [] && Knows(c, s, task.stack[|task.stack| - 1], task.result)
  {}

  lemma NextIsMoved(s: State, h: Hooks, id: nat, i: Input)
    requires id in s.tasks && s.tasks[id].stack != []
    ensures Next(s, h, Run(id, i)) == Moved(s, id, MoveOf(s, h, s.tasks[id], i))
  {
    hide Moved, MoveOf;
  }

  /** Nobody else runs, the environment answers as the fate asks, and the clock allows it. */
  ghost predicate Favours(c: Case, s: State, t: State, id: nat, step: Step) {
    && s.tasks.Keys <= {id} && t.tasks.Keys <= {id}
    && (step.Run? && id in s.tasks && s.tasks[id].stack != [] ==>
      Answers(c.fate, s.now, step.input) && Timely(c, s.tasks[id].stack[|s.tasks[id].stack| - 1], s.now))
  }

  // A step that neither runs the one activation nor starts another leaves store and session alone.
  lemma OtherSteps(s: State, h: Hooks, id: nat, step: Step)
    requires Inv(s) && id < s.next && s.tasks.Keys <= {id} && Next(s, h, step).tasks.Keys <= {id}
    requires step.Run? && step.task == id ==> id !in s.tasks
    ensures var t := Next(s, h, step);
      t.tasks == s.tasks && t.next == s.next && t.outcomes == s.outcomes && t.store == s.store &&
      t.authenticated == s.authenticated && t.loaded == s.loaded
  {
    hide Inv, MoveOf, Moved, EnterSet;
    assert s.next in Next(s, h, step).tasks ==> s.next in s.tasks;
  }

  lemma StepUnderWay(c: Case, s: State, h: Hooks, id: nat, step: Step)
    requires Inv(s) && IsUnderWay(c, s, id) && IsWhole(c.fate) && Favours(c, s, Next(s, h, step), id, step)
    ensures IsUnderWay(c, Next(s, h, step), id)
  {
    hide Knows, Final, Waits, Inv, Next, Answers, Timely, IsWhole;
    if step.Run? && step.task == id && id in s.tasks {
      RanUnderWay(c, s, h, id, step.input);
    } else {
      OtherSteps(s, h, id, step);
      SameUnderWay(c, s, Next(s, h, step), id);
    }
  }

  lemma SameUnderWay(c: Case, s: State, t: State, id: nat)
    requires IsUnderWay(c, s, id) && t.tasks == s.tasks && t.next == s.next && t.outcomes == s.outcomes
    requires t.store == s.store && t.authenticated == s.authenticated && t.loaded == s.loaded
    ensures IsUnderWay(c, t, id)
  {
    hide Knows, Final, Waits, KindOf, RootOf;
    if id in s.tasks {
      KnowsSession(c, s, t, s.tasks[id].stack[|s.tasks[id].stack| - 1], s.tasks[id].result);
    } else {
      forall o { FinalSession(c, s, t, o); }
    }
  }

  // ---------- whole runs ----------

  /** The step begins a call of this fate. */
  predicate Begins(fate: Fate, s: State, step: Step) {
    match RootOf(fate)
    case Logins => step.Login?
    case Logouts => step.Logout?
    case Resets => step.Reset?
    case Handlers => step.Unauthorized?
    case Sets => fate.Takes? && step == SetTokens(fate.session) && Lasts(fate.session.access, s.now)
    case _ => step.GetAccessToken? && step.caller !in s.callers
  }

  lemma NewTask(s: State, h: Hooks, step: Step)
    requires s.inFlight.None? && s.logoutInFlight.None? && Starts(step, s.now).Some?
    requires step.GetAccessToken? ==> step.caller !in s.callers
    ensures var t, top := Next(s, h, step), Starts(step, s.now).value;
      && s.next in t.tasks && t.tasks[s.next] == Task(StackOf(step, top), None) && s.next < t.next
      && t.store == s.store && t.authenticated == s.authenticated && t.loaded == s.loaded
      && (step.GetAccessToken? ==> step.caller in t.callers && t.callers[step.caller] == Joined(s.next))
  {
    hide EnterSet;
  }

  function StackOf(step: Step, top: Frame): seq<Frame> {
    if step.GetAccessToken? then [Flight, top] else if step.Unauthorized? then [Handling, top] else [top]
  }

  lemma BeginsNew(fate: Fate, s: State, step: Step)
    requires Begins(fate, s, step)
    ensures step.GetAccessToken? ==> step.caller !in s.callers
  {
    hide Lasts;
  }

  lemma StartUnderWay(s: State, h: Hooks, fate: Fate, step: Step)
    requires Inv(s) && s.tasks == map[] && Begins(fate, s, step)
    ensures IsUnderWay(Case(fate, s.store, s.authenticated), Next(s, h, step), s.next)
    ensures step.GetAccessToken? ==>
      step.caller in Next(s, h, step).callers && Next(s, h, step).callers[step.caller] == Joined(s.next)
  {
    NothingInFlight(s);
    BeginsNew(fate, s, step);
    var c, top := Case(fate, s.store, s.authenticated), Starts(step, s.now);
    StartKnows(s, c, step);
    hide Inv, Knows, Waits, KindOf, RootOf, Next, Starts, Begins;
    NewTask(s, h, step);
    KnowsSession(c, s, Next(s, h, step), top.value, None);
  }

  // The innermost frame of a new call.
  function Starts(step: Step, now: int): Option<Frame> {
    match step
    case GetAccessToken(_) => Some(AccessRead)
    case Login => Some(LoginPost)
    case Logout => Some(LogoutRead)
    case Reset => Some(ResetClearing(false))
    case SetTokens(tokens) => Some(EnterSet(tokens, now))
    case Unauthorized => Some(LogoutRead)
    case _ => None
  }

  lemma StartKnows(s: State, c: Case, step: Step)
    requires Begins(c.fate, s, step) && c.store == s.store && c.authenticated == s.authenticated
    ensures step.GetAccessToken? ==> RootOf(c.fate) == Flights && KindOf(Flight) == Flights && Waits(c.fate, Flight)
    ensures Starts(step, s.now).Some? && Knows(c, s, Starts(step, s.now).value, None)
    ensures step.Unauthorized? ==> RootOf(c.fate) == Handlers && KindOf(Handling) == Handlers && Waits(c.fate, Handling)
    ensures step.GetAccessToken? || step.Unauthorized? || KindOf(Starts(step, s.now).value) == RootOf(c.fate)
  {
    if step.SetTokens? { LastsIsVerified(c.fate.session.access.value, s.now); }
    hide Lasts, VerifyToken, Final, Returned;
  }

  lemma NothingInFlight(s: State)
    requires Inv(s) && s.tasks == map[]
    ensures s.inFlight.None? && s.logoutInFlight.None?
  {
    hide TasksValid, OutcomesValid, CallersValid, StoreValid;
    assert forall id: nat :: s.inFlight != Some(id) && s.logoutInFlight != Some(id);
  }

  /** From state a to state b of the run, the call that step a begins is the only activation, no read and no write
      of the store fails, and what the network answers and when is what the fate asks for. */
  ghost predicate RunsAlone(h: Hooks, states: seq<State>, steps: seq<Step>, a: nat, b: nat, fate: Fate) {
    && IsRun(h, states, steps) && a < b < |states| && states[a].tasks == map[] && IsWhole(fate)
    && Begins(fate, states[a], steps[a])
    && forall k :: a < k < b ==>
      Favours(Case(fate, states[a].store, states[a].authenticated), states[k], states[k + 1], states[a].next, steps[k])
  }

  // A call that runs alone is still under way, or it left store and session as its fate says and its outcome
  // is the one that the fate says. While it posts, it posts the refresh token that was stored.
  lemma {:induction false} RunsToItsFate(h: Hooks, states: seq<State>, steps: seq<Step>, a: nat, b: nat, fate: Fate)
    requires RunsAlone(h, states, steps, a, b, fate)
    ensures IsUnderWay(Case(fate, states[a].store, states[a].authenticated), states[b], states[a].next)
    decreases b
  {
    hide Inv, IsUnderWay, Favours, Begins, IsWhole, Next;
    var c, id := Case(fate, states[a].store, states[a].authenticated), states[a].next;
    RunInv(h, states, steps, b - 1);
    assert states[b - 1 + 1] == Next(states[b - 1], h, steps[b - 1]);
    if b == a + 1 {
      StartUnderWay(states[a], h, fate, steps[a]);
    } else {
      RunsToItsFate(h, states, steps, a, b - 1, fate);
      StepUnderWay(c, states[b - 1], h, id, steps[b - 1]);
    }
  }

  // getAccessToken, while its caller waits and after that.
  lemma CallerServed(h: Hooks, states: seq<State>, steps: seq<Step>, a: nat, b: nat, fate: Fate)
    requires RunsAlone(h, states, steps, a, b, fate) && steps[a].GetAccessToken? && RootOf(fate) == Flights
    ensures steps[a].caller in states[b].callers
    ensures states[b].callers[steps[a].caller].Got? ==>
      states[a].next !in states[b].tasks &&
      Final(Case(fate, states[a].store, states[a].authenticated), states[b], states[b].callers[steps[a].caller].outcome)
  {
    RunsToItsFate(h, states, steps, a, b, fate);
    RunInv(h, states, steps, a);
    RunInv(h, states, steps, b);
    StartUnderWay(states[a], h, fate, steps[a]);
    assert states[a + 1] == Next(states[a], h, steps[a]);
    RunFields(h, states, steps, a + 1, b);
    GotIsOutcome(states[b], steps[a].caller);
    hide IsRun, Final, Next, Inv, Favours;
  }

  lemma GotIsOutcome(s: State, caller: nat)
    requires Inv(s) && caller in s.callers
    ensures s.callers[caller].Got? ==>
      s.callers[caller].op in s.outcomes && s.callers[caller].op !in s.tasks &&
      s.outcomes[s.callers[caller].op] == s.callers[caller].outcome
  {
    hide TasksValid, Owned, StoreValid, Fits;
    assert ValidCaller(s.callers[caller], s.outcomes, s.inFlight);
  }

  // When the stored access token cannot be used, a refresh token is stored and the network answers with a
  // session of two tokens, the first of which lasts: whoever gets an outcome gets the new access token, and the
  // new session is stored and authenticated.
  lemma TokenIsRenewed(h: Hooks, states: seq<State>, steps: seq<Step>, a: nat, b: nat, caller: nat, session: Tokens)
    requires RunsAlone(h, states, steps, a, b, Renews(session)) && steps[a] == GetAccessToken(caller)
    ensures caller in states[b].callers
    ensures states[b].callers[caller].Got? ==>
      var o := states[b].callers[caller].outcome;
      o.Granted? && Some(o.token) == session.access && states[b].store == session && states[b].authenticated
  {
    CallerServed(h, states, steps, a, b, Renews(session));
    hide RunsAlone;
  }

  // When the network refuses, or answers with an access token that does not last, the caller gets an exception,
  // nothing is stored and the session is not authenticated.
  lemma RefreshIsRefused(h: Hooks, states: seq<State>, steps: seq<Step>, a: nat, b: nat, caller: nat)
    requires RunsAlone(h, states, steps, a, b, IsRefused) && steps[a] == GetAccessToken(caller)
    ensures caller in states[b].callers
    ensures states[b].callers[caller].Got? ==>
      states[b].callers[caller].outcome == Rejected && states[b].store == Tokens(None, None) && !states[b].authenticated
  {
    CallerServed(h, states, steps, a, b, IsRefused);
    hide RunsAlone;
  }
}
