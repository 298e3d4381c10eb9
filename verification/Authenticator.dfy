/** The client token protocol: concurrent callers, refreshes, logins, logouts and 401 responses as one
    state machine, one step for each stretch of code between two awaits. */
module Authenticator {
  import opened Strings

  // ---------- tokens ----------

  /** exp is the expiry claim of section 4.1.4 of RFC 7519, in seconds, when the text decodes to one. */
  datatype Token = Token(text: string, exp: Option<int>)

  const EXP_WINDOW_MS := 60_000

  /** verifyToken */
  predicate VerifyToken(t: Token, now: int) {
    t.exp.Some? && !(now + EXP_WINDOW_MS > t.exp.value * 1000)
  }

  predicate Truthy(t: Option<Token>) {
    t.Some? && t.value.text != ""
  }

  datatype Tokens = Tokens(access: Option<Token>, refresh: Option<Token>)

  const NO_TOKENS := Tokens(None, None)

  /** What the built-in store holds after setTokens. */
  function Stored(t: Tokens): Tokens {
    if Truthy(t.access) && Truthy(t.refresh) then t else NO_TOKENS
  }

  // ---------- activations ----------

  /** How an asynchronous call ends: plainly, with a token and the time at which it was verified, with
      the session dropped, or with an exception. */
  datatype Outcome = Done | Granted(token: Token, at: int) | Dropped | Rejected

  /** Where an activation waits. */
  datatype Frame =
    // getAccessToken's finally, and doGetAccessToken
    | Flight | AccessRead | AccessRefreshing | AccessReread | AccessLeaving
    // doRefresh
    | RefreshRead | RefreshPost(with: Token) | RefreshStoring | RefreshNotifying | RefreshFailing
    // setTokens
    | SetClearing(cleared: bool) | SetStoring(tokens: Tokens, stored: bool) | SetNotifying
    // logout and reset
    | LogoutRead | LogoutPost | LogoutResetting(failed: bool)
    | ResetClearing(done: bool) | ResetNotifying
    // login and the other calls that end in setTokens or reset
    | LoginPost | LoginStoring | LoginFailing
    // handleUnauthorized's finally
    | Handling

  datatype Kind = Flights | Accesses | Refreshes | Sets | Logouts | Resets | Logins | Handlers

  /** Which function a frame belongs to. */
  function KindOf(f: Frame): Kind {
    if f.Flight? then Flights
    else if f.AccessRead? || f.AccessRefreshing? || f.AccessReread? || f.AccessLeaving? then Accesses
    else if f.RefreshRead? || f.RefreshPost? || f.RefreshStoring? || f.RefreshNotifying? || f.RefreshFailing? then
      Refreshes
    else if f.SetClearing? || f.SetStoring? || f.SetNotifying? then Sets
    else if f.LogoutRead? || f.LogoutPost? || f.LogoutResetting? then Logouts
    else if f.ResetClearing? || f.ResetNotifying? then Resets
    else if f.Handling? then Handlers
    else Logins
  }

  // Frames that wait for another call.
  predicate IsCaller(f: Frame) {
    f == Flight || f == AccessRefreshing || f == AccessLeaving || f == RefreshStoring || f == RefreshFailing
    || f.LogoutResetting? || f == LoginStoring || f == LoginFailing || f == Handling
  }

  /** A stack of frames, innermost last; `result` is what the innermost call just ended with. */
  datatype Task = Task(stack: seq<Frame>, result: Option<Outcome>)

  /** What the environment answers: the store, the network, a callback. */
  datatype Input =
    | Read | Write | Resume | Failed
    | Replied(session: Option<Tokens>) | NetworkFailed
    | Called(ok: bool)

  datatype Caller = Joined(op: nat) | Got(op: nat, outcome: Outcome)

  datatype State = State(
    authenticated: bool, loaded: bool, store: Tokens, now: int,
    inFlight: Option<nat>, logoutInFlight: Option<nat>,
    tasks: map<nat, Task>, next: nat,
    outcomes: map<nat, Outcome>, callers: map<nat, Caller>,
    onLogoutCalls: nat)

  /** Which of the optional callbacks are given. */
  datatype Hooks = Hooks(created: bool, refreshed: bool)

  // ---------- one stretch ----------

  datatype Move =
    | Await(s: State, frame: Frame)               // the same call waits again
    | Call(s: State, frame: Frame, callee: Frame) // the call waits for another one
    | Return(s: State, outcome: Outcome)          // the call ends
    | Ignore                                      // no such event here

  function EnterSet(tokens: Tokens, now: int): (f: Frame)
    ensures KindOf(f) == Sets && !IsCaller(f)
  {
    if tokens.access.Some? && VerifyToken(tokens.access.value, now) then SetStoring(tokens, false)
      else SetClearing(false)
  }

  // The end of doGetAccessToken when there is no usable token.
  function Leave(s: State): Move {
    Call(s, AccessLeaving, if s.authenticated then LogoutRead else ResetClearing(false))
  }

  function AfterRead(s: State, mayRefresh: bool): Move {
    if Truthy(s.store.access) && VerifyToken(s.store.access.value, s.now) then
      Return(s, Granted(s.store.access.value, s.now))
    else if mayRefresh && Truthy(s.store.refresh) then Call(s, AccessRefreshing, RefreshRead)
    else Leave(s)
  }

  /** What a waiting frame does when the environment answers. */
  function OnInput(s: State, h: Hooks, f: Frame, i: Input): Move {
    match f
    case AccessRead => if i.Read? then AfterRead(s, true) else if i.Failed? then Return(s, Rejected) else Ignore
    case AccessReread => if i.Read? then AfterRead(s, false) else if i.Failed? then Return(s, Rejected) else Ignore
    case RefreshRead =>
      if i.Read? then
        (if Truthy(s.store.refresh) then Await(s, RefreshPost(s.store.refresh.value)) else Return(s, Rejected))
      else if i.Failed? then Return(s, Rejected) else Ignore
    case RefreshPost(_) =>
      if i.Replied? && i.session.Some? then Call(s, RefreshStoring, EnterSet(i.session.value, s.now))
      else if i.Replied? || i.NetworkFailed? then Call(s, RefreshFailing, ResetClearing(false))
      else Ignore
    case RefreshNotifying =>
      if i.Called? then (if i.ok then Return(s, Done) else Call(s, RefreshFailing, ResetClearing(false))) else Ignore
    case SetClearing(cleared) =>
      if i.Write? && !cleared then Await(s.(store := NO_TOKENS), SetClearing(true))
      else if (i.Resume? && cleared) || i.Failed? then Return(s, Rejected)
      else Ignore
    case SetStoring(tokens, stored) =>
      if i.Write? && !stored then Await(s.(store := Stored(tokens)), SetStoring(tokens, true))
      else if i.Resume? && stored then
        var t := s.(authenticated := true, loaded := true);
        if h.created then Await(t, SetNotifying) else Return(t, Done)
      else if i.Failed? then Return(s, Rejected)
      else Ignore
    case SetNotifying => if i.Called? then Return(s, if i.ok then Done else Rejected) else Ignore
    case LogoutRead =>
      if i.Read? then
        (if s.store.access.Some? then Await(s, LogoutPost) else Call(s, LogoutResetting(false), ResetClearing(false)))
      else if i.Failed? then Return(s, Rejected) else Ignore
    case LogoutPost =>
      if i.Replied? || i.NetworkFailed? then Call(s, LogoutResetting(i.NetworkFailed?), ResetClearing(false))
        else Ignore
    case ResetClearing(done) =>
      if i.Write? && !done then Await(s.(store := NO_TOKENS), ResetClearing(true))
      else if i.Resume? && done then
        var t := s.(authenticated := false, loaded := true);
        if s.authenticated then Await(t.(onLogoutCalls := s.onLogoutCalls + 1), ResetNotifying) else Return(t, Dropped)
      else if i.Failed? then Return(s, Rejected)
      else Ignore
    case ResetNotifying => if i.Called? then Return(s, if i.ok then Dropped else Rejected) else Ignore
    case LoginPost =>
      if i.Replied? && i.session.Some? then Call(s, LoginStoring, EnterSet(i.session.value, s.now))
      else if i.Replied? || i.NetworkFailed? then Call(s, LoginFailing, ResetClearing(false))
      else Ignore
    case _ => Ignore
  }

  /** What a calling frame does when its callee has ended with o. */
  function OnReturn(s: State, h: Hooks, f: Frame, o: Outcome): Move {
    match f
    case Flight => Return(s.(inFlight := None), o)
    case AccessRefreshing => if o.Rejected? then Return(s, Rejected) else Await(s, AccessReread)
    case AccessLeaving => Return(s, o)
    case RefreshStoring =>
      if o.Rejected? then Call(s, RefreshFailing, ResetClearing(false))
      else if h.refreshed then Await(s, RefreshNotifying) else Return(s, Done)
    case RefreshFailing => Return(s, Rejected)
    case LogoutResetting(failed) => Return(s, if failed then Rejected else o)
    case LoginStoring => if o.Rejected? then Call(s, LoginFailing, ResetClearing(false)) else Return(s, Done)
    case LoginFailing => Return(s, Rejected)
    case Handling => Return(s.(logoutInFlight := None), Done)
    case _ => Ignore
  }

  // ---------- one step ----------

  datatype Step =
    | Tick(to: int)
    | GetAccessToken(caller: nat)
    | Receive(caller: nat)
    | SetTokens(tokens: Tokens)
    | Login
    | Logout
    | Reset
    | Unauthorized
    | Run(task: nat, input: Input)

  function Spawn(s: State, stack: seq<Frame>): State {
    s.(tasks := s.tasks[s.next := Task(stack, None)], next := s.next + 1)
  }

  /** What the innermost frame of a task does next. */
  function MoveOf(s: State, h: Hooks, task: Task, i: Input): Move
    requires task.stack != []
  {
    var top := task.stack[|task.stack| - 1];
    if task.result.Some? then OnReturn(s, h, top, task.result.value) else OnInput(s, h, top, i)
  }

  function Moved(s: State, id: nat, m: Move): State
    requires id in s.tasks && s.tasks[id].stack != []
  {
    var stack := s.tasks[id].stack;
    var below, top := stack[..|stack| - 1], stack[|stack| - 1];
    match m
    case Await(t, f) => t.(tasks := t.tasks[id := Task(below + [f], None)])
    case Call(t, f, callee) => t.(tasks := t.tasks[id := Task(below + [f, callee], None)])
    case Return(t, o) =>
      if below != [] then t.(tasks := t.tasks[id := Task(below, Some(o))])
      else t.(tasks := t.tasks - {id}, outcomes := if top == Flight then t.outcomes[id := o] else t.outcomes)
    case Ignore => s
  }

  function Next(s: State, h: Hooks, step: Step): State {
    match step
    case Tick(to) => s.(now := to)
    case GetAccessToken(c) =>
      if c in s.callers then s
      else if s.inFlight.Some? then s.(callers := s.callers[c := Joined(s.inFlight.value)])
      else Spawn(s, [Flight, AccessRead]).(inFlight := Some(s.next), callers := s.callers[c := Joined(s.next)])
    case Receive(c) =>
      if c in s.callers && s.callers[c].Joined? && s.callers[c].op in s.outcomes then
        s.(callers := s.callers[c := Got(s.callers[c].op, s.outcomes[s.callers[c].op])])
      else s
    case SetTokens(tokens) => Spawn(s, [EnterSet(tokens, s.now)])
    case Login => Spawn(s, [LoginPost])
    case Logout => Spawn(s, [LogoutRead])
    case Reset => Spawn(s, [ResetClearing(false)])
    case Unauthorized =>
      if s.logoutInFlight.Some? then s else Spawn(s, [Handling, LogoutRead]).(logoutInFlight := Some(s.next))
    case Run(id, i) =>
      if id in s.tasks && s.tasks[id].stack != [] then Moved(s, id, MoveOf(s, h, s.tasks[id], i)) else s
  }

  function Init(now: int): State {
    State(false, false, NO_TOKENS, now, None, None, map[], 0, map[], map[], 0)
  }

  /** A run: any interleaving of calls, environment answers and resumptions. */
  ghost predicate IsRun(h: Hooks, states: seq<State>, steps: seq<Step>) {
    && |states| == |steps| + 1
    && states[0] == Init(states[0].now)
    && forall i :: 0 <= i < |steps| ==> states[i + 1] == Next(states[i], h, steps[i])
  }
}
