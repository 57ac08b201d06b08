/** The auto-reconnect wrapper: one optimistic attempt without the mutex, then a locked loop
    that closes, recreates and retries.

    The first half is the protocol, as steps of any number of concurrent calls. The second
    half is the wrapper as an object, with its retry loop. */
module Reconnect {
  import opened Wrappers
  import Seqs

  /** What one operation on a backend adapter gives: success, an error that is returned to
      the caller, or a lost connection. */
  datatype Result = Succeeded | Refused | Dropped

  /** The wrapper's fields, with the adapters made so far (0, 1, 2, ...) and those closed. */
  datatype Shared = Shared(adapter: Option<nat>, closed: bool, created: nat, closes: seq<nat>)

  function Create(sh: Shared): Shared {
    sh.(adapter := Some(sh.created), created := sh.created + 1)
  }

  /** Close the adapter, if there is one, and forget it. */
  function DropAdapter(sh: Shared): Shared {
    if sh.adapter.Some? then sh.(adapter := None, closes := sh.closes + [sh.adapter.value]) else sh
  }

  // ---------- The protocol ----------

  /** Send, Receive and Request are retried; Browse and Close are not. */
  datatype Kind = Retried | Browse | Close

  datatype Outcome =
    | Returned(result: Result) | AdapterClosed | FactoryFailed | Unsupported | ContextDone | Exhausted | CloseDone

  datatype Pc =
    | WantLock
    | Entered
    | Closing
    | BrowseAttempt
    | Attempt(handle: nat)
    | WantRetryLock
    | RetryTop
    | RetryWait
    | RetryClose
    | RetryCreate
    | RetryAttempt
    | Done(outcome: Outcome)

  /** One call: where it is, the results of its attempts, and the retries its backoff policy
      still grants out of `granted`. */
  datatype Thread = Thread(kind: Kind, pc: Pc, log: seq<Result>, budget: nat, granted: nat)

  datatype State = State(sh: Shared, lock: Option<nat>, threads: seq<Thread>)

  /** What the surroundings decide at one step. */
  datatype Choice = Choice(contextDone: bool, factoryOk: bool, supported: bool, result: Result)

  predicate Holds(pc: Pc) {
    pc.Entered? || pc.Closing? || pc.BrowseAttempt? || pc.RetryTop? || pc.RetryWait? || pc.RetryClose?
    || pc.RetryCreate? || pc.RetryAttempt?
  }

  function Goto(s: State, t: nat, pc: Pc): State
    requires t < |s.threads|
  {
    s.(threads := s.threads[t := s.threads[t].(pc := pc)])
  }

  function Finish(s: State, t: nat, outcome: Outcome): State
    requires t < |s.threads|
  {
    Goto(s, t, Done(outcome)).(lock := None)
  }

  function Log(s: State, t: nat, result: Result): State
    requires t < |s.threads|
  {
    s.(threads := s.threads[t := s.threads[t].(log := s.threads[t].log + [result])])
  }

  /** Connected, with the mutex held: Browse goes on under it, the others let go of it. */
  function Connected(s: State, t: nat): State
    requires t < |s.threads| && s.sh.adapter.Some?
  {
    if s.threads[t].kind.Browse? then Goto(s, t, BrowseAttempt)
    else Goto(s, t, Attempt(s.sh.adapter.value)).(lock := None)
  }

  /** One step of call `t`; waiting for a mutex that is taken changes nothing. */
  function Step(s: State, t: nat, c: Choice): State
    requires t < |s.threads|
  {
    match s.threads[t].pc
    case WantLock => if s.lock.None? then Goto(s, t, Entered).(lock := Some(t)) else s
    case Entered =>
      if s.threads[t].kind.Close? then Goto(s, t, Closing).(sh := s.sh.(closed := true))
      else if s.sh.closed then Finish(s, t, AdapterClosed)
      else if s.sh.adapter.Some? then Connected(s, t)
      else if c.factoryOk then Connected(s.(sh := Create(s.sh)), t)
      else Finish(s, t, FactoryFailed)
    case Closing => Finish(s.(sh := DropAdapter(s.sh)), t, CloseDone)
    case BrowseAttempt =>
      if c.supported then Finish(Log(s, t, c.result), t, Returned(c.result)) else Finish(s, t, Unsupported)
    case Attempt(_) =>
      if c.result.Dropped? then Goto(Log(s, t, c.result), t, WantRetryLock)
      else Goto(Log(s, t, c.result), t, Done(Returned(c.result)))
    case WantRetryLock => if s.lock.None? then Goto(s, t, RetryTop).(lock := Some(t)) else s
    case RetryTop =>
      if c.contextDone then Finish(s, t, ContextDone)
      else if s.sh.closed then Finish(s, t, AdapterClosed)
      else if s.threads[t].budget == 0 then Finish(s, t, Exhausted)
      else s.(threads := s.threads[t := s.threads[t].(budget := s.threads[t].budget - 1, pc := RetryWait)])
    case RetryWait => if c.contextDone then Finish(s, t, ContextDone) else Goto(s, t, RetryClose)
    case RetryClose => Goto(s.(sh := DropAdapter(s.sh)), t, RetryCreate)
    case RetryCreate =>
      if c.factoryOk then Goto(s.(sh := Create(s.sh)), t, RetryAttempt) else Goto(s, t, RetryTop)
    case RetryAttempt =>
      if c.result.Dropped? then Goto(Log(s, t, c.result), t, RetryTop)
      else Finish(Log(s, t, c.result), t, Returned(c.result))
    case Done(_) => s
  }

  /** A schedule says, step by step, which call moves and what it meets. */
  function Run(s: State, schedule: seq<(nat, Choice)>): State
    decreases |schedule|
  {
    if schedule == [] then s
    else Run(if schedule[0].0 < |s.threads| then Step(s, schedule[0].0, schedule[0].1) else s, schedule[1..])
  }

  /** Any calls, none of them under way, on a wrapper that has not connected yet. */
  ghost predicate Initial(s: State) {
    && s.sh == Shared(None, false, 0, []) && s.lock.None?
    && forall t | 0 <= t < |s.threads| ::
         s.threads[t].pc.WantLock? && s.threads[t].log == [] && s.threads[t].budget == s.threads[t].granted
  }

  // ---------- Invariants ----------

  /** No adapter is closed twice, and each one made is the current one or has been closed. */
  ghost predicate Accounted(sh: Shared) {
    && (forall i, j | 0 <= i < j < |sh.closes| :: sh.closes[i] != sh.closes[j])
    && (forall a :: a in sh.closes || sh.adapter == Some(a) <==> 0 <= a < sh.created)
    && (sh.adapter.Some? ==> sh.adapter.value !in sh.closes)
    && sh.created == |sh.closes| + if sh.adapter.Some? then 1 else 0
  }

  ghost predicate AllDropped(log: seq<Result>) {
    forall i | 0 <= i < |log| :: log[i].Dropped?
  }

  /** Lost connections only, and then this result. */
  ghost predicate EndsIn(log: seq<Result>, result: Result) {
    log != [] && AllDropped(log[..|log| - 1]) && log[|log| - 1] == result
  }

  /** What a call that has ended may say about its attempts. */
  ghost predicate OutcomeOk(th: Thread, outcome: Outcome) {
    match outcome
    case Returned(r) => EndsIn(th.log, r) && (th.kind.Browse? ==> |th.log| == 1) && (r.Dropped? ==> th.kind.Browse?)
    case ContextDone => AllDropped(th.log) && th.log != []
    case Exhausted => AllDropped(th.log) && th.log != [] && th.budget == 0
    case AdapterClosed => AllDropped(th.log)
    case _ => th.log == []
  }

  ghost predicate ThreadOk(sh: Shared, th: Thread) {
    match th.pc
    case WantLock => th.log == [] && th.budget == th.granted
    case Entered => th.log == [] && th.budget == th.granted
    case Closing => th.kind.Close? && sh.closed && th.log == []
    case BrowseAttempt => th.kind.Browse? && sh.adapter.Some? && !sh.closed && th.log == []
    case Attempt(a) => th.kind.Retried? && a < sh.created && th.log == [] && th.budget == th.granted
    case Done(outcome) =>
      && OutcomeOk(th, outcome) && (outcome.CloseDone? <==> th.kind.Close?)
      && (th.kind.Close? ==> sh.closed && sh.adapter.None?)
      && |th.log| <= th.granted + 1
    case WantRetryLock => Retrying(th) && |th.log| + th.budget == th.granted + 1
    case RetryTop => Retrying(th) && |th.log| + th.budget <= th.granted + 1
    case _ =>
      && Retrying(th) && |th.log| + th.budget <= th.granted && !sh.closed
      && (th.pc.RetryCreate? ==> sh.adapter.None?) && (th.pc.RetryAttempt? ==> sh.adapter.Some?)
  }

  ghost predicate Retrying(th: Thread) {
    th.kind.Retried? && AllDropped(th.log) && th.log != []
  }

  ghost predicate Inv(s: State) {
    && Accounted(s.sh)
    && (s.lock.Some? ==> s.lock.value < |s.threads|)
    && (forall t: nat | t < |s.threads| :: Holds(s.threads[t].pc) <==> s.lock == Some(t))
    && (forall t: nat | t < |s.threads| :: ThreadOk(s.sh, s.threads[t]))
  }

  lemma AccountedKept(sh: Shared)
    requires Accounted(sh)
    ensures Accounted(DropAdapter(sh))
    ensures sh.adapter.None? ==> Accounted(Create(sh))
  {
    if sh.adapter.Some? {
      var d := DropAdapter(sh);
      assert d.closes == sh.closes + [sh.adapter.value];
      assert forall a :: a in d.closes <==> a in sh.closes || a == sh.adapter.value;
    }
  }

  /** Nothing but the holder of the mutex ever touches the wrapper's fields. */
  lemma OnlyHolderChangesShared(s: State, t: nat, c: Choice)
    requires t < |s.threads| && (Holds(s.threads[t].pc) <==> s.lock == Some(t)) && s.lock != Some(t)
    ensures Step(s, t, c).sh == s.sh
  {
  }

  lemma StepMovesOne(s: State, t: nat, c: Choice)
    requires t < |s.threads|
    ensures var s' := Step(s, t, c);
            |s'.threads| == |s.threads| && forall u | 0 <= u < |s.threads| && u != t :: s'.threads[u] == s.threads[u]
  {
  }

  ghost predicate OwnKept(s: State, t: nat, s': State)
    requires t < |s.threads| == |s'.threads|
  {
    && Accounted(s'.sh)
    && ThreadOk(s'.sh, s'.threads[t])
    && (Holds(s'.threads[t].pc) <==> s'.lock == Some(t))
    && (s'.lock == s.lock || (s.lock.None? && s'.lock == Some(t)) || (s.lock == Some(t) && s'.lock.None?))
  }

  /** The mover keeps its own part of the invariant, and the mutex changes hands with it. */
  lemma StepKeepsOwn(s: State, t: nat, c: Choice)
    requires Inv(s) && t < |s.threads|
    ensures |Step(s, t, c).threads| == |s.threads| && OwnKept(s, t, Step(s, t, c))
  {
    StepMovesOne(s, t, c);
    if s.threads[t].pc.RetryTop? || s.threads[t].pc.RetryWait? || s.threads[t].pc.RetryClose? {
      RetryStepKeepsOwn(s, t, c);
    } else if s.threads[t].pc.RetryCreate? || s.threads[t].pc.RetryAttempt? {
      RetryAttemptKeepsOwn(s, t, c);
    } else if s.threads[t].pc.Entered? {
      EnteredKeepsOwn(s, t, c);
    } else if s.threads[t].pc.Attempt? || s.threads[t].pc.BrowseAttempt? {
      AttemptKeepsOwn(s, t, c);
    } else {
      LockStepKeepsOwn(s, t, c);
    }
  }

  lemma LockStepKeepsOwn(s: State, t: nat, c: Choice)
    requires Inv(s) && t < |s.threads|
    requires var pc := s.threads[t].pc; pc.WantLock? || pc.WantRetryLock? || pc.Closing? || pc.Done?
    ensures |Step(s, t, c).threads| == |s.threads| && OwnKept(s, t, Step(s, t, c))
  {
    AccountedKept(s.sh);
    assert ThreadOk(s.sh, s.threads[t]);
  }

  lemma EnteredKeepsOwn(s: State, t: nat, c: Choice)
    requires Inv(s) && t < |s.threads| && s.threads[t].pc.Entered?
    ensures |Step(s, t, c).threads| == |s.threads| && OwnKept(s, t, Step(s, t, c))
  {
    AccountedKept(s.sh);
    assert ThreadOk(s.sh, s.threads[t]);
  }

  lemma AttemptKeepsOwn(s: State, t: nat, c: Choice)
    requires Inv(s) && t < |s.threads| && (s.threads[t].pc.Attempt? || s.threads[t].pc.BrowseAttempt?)
    ensures |Step(s, t, c).threads| == |s.threads| && OwnKept(s, t, Step(s, t, c))
  {
    assert ThreadOk(s.sh, s.threads[t]);
  }

  lemma RetryStepKeepsOwn(s: State, t: nat, c: Choice)
    requires Inv(s) && t < |s.threads|
    requires s.threads[t].pc.RetryTop? || s.threads[t].pc.RetryWait? || s.threads[t].pc.RetryClose?
    ensures |Step(s, t, c).threads| == |s.threads| && OwnKept(s, t, Step(s, t, c))
  {
    AccountedKept(s.sh);
    assert ThreadOk(s.sh, s.threads[t]);
  }

  lemma RetryAttemptKeepsOwn(s: State, t: nat, c: Choice)
    requires Inv(s) && t < |s.threads|
    requires s.threads[t].pc.RetryCreate? || s.threads[t].pc.RetryAttempt?
    ensures |Step(s, t, c).threads| == |s.threads| && OwnKept(s, t, Step(s, t, c))
  {
    AccountedKept(s.sh);
    assert ThreadOk(s.sh, s.threads[t]);
    var log := s.threads[t].log;
    assert (log + [c.result])[..|log|] == log;
  }

  /** What one step may do to the fields, seen from calls that do not hold the mutex. */
  lemma StepOnFields(s: State, t: nat, c: Choice)
    requires Inv(s) && t < |s.threads|
    ensures var s' := Step(s, t, c);
            && s.sh.created <= s'.sh.created && (s.sh.closed ==> s'.sh.closed)
            && (s.sh.closed ==> s'.sh.created == s.sh.created && (s.sh.adapter.None? ==> s'.sh == s.sh))
            && (s.lock != Some(t) ==> s'.sh == s.sh)
  {
    assert ThreadOk(s.sh, s.threads[t]);
  }

  lemma StepKeepsInv(s: State, t: nat, c: Choice)
    requires Inv(s) && t < |s.threads|
    ensures Inv(Step(s, t, c))
  {
    var s' := Step(s, t, c);
    StepKeepsOwn(s, t, c);
    StepMovesOne(s, t, c);
    StepOnFields(s, t, c);
    forall u: nat | u < |s'.threads| && u != t
      ensures ThreadOk(s'.sh, s'.threads[u]) && (Holds(s'.threads[u].pc) <==> s'.lock == Some(u))
    {
      assert ThreadOk(s.sh, s.threads[u]);
    }
  }

  lemma {:induction false} RunKeepsInv(s: State, schedule: seq<(nat, Choice)>)
    requires Inv(s)
    ensures Inv(Run(s, schedule)) && |Run(s, schedule).threads| == |s.threads|
    ensures s.sh.closed && s.sh.adapter.None? ==> Run(s, schedule).sh == s.sh
    decreases |schedule|
  {
    if schedule != [] {
      var (t, c) := schedule[0];
      if t < |s.threads| {
        StepKeepsInv(s, t, c);
        StepOnFields(s, t, c);
        StepMovesOne(s, t, c);
        RunKeepsInv(Step(s, t, c), schedule[1..]);
      } else {
        RunKeepsInv(s, schedule[1..]);
      }
    }
  }

  // ---------- What holds of every interleaving ----------

  /** In every reachable state, each adapter ever made is either the wrapper's current one
      or was closed, exactly once. */
  lemma AdaptersAccounted(s: State, schedule: seq<(nat, Choice)>)
    requires Initial(s)
    ensures Inv(s) && Accounted(Run(s, schedule).sh)
  {
    RunKeepsInv(s, schedule);
  }

  /** Once a Close has returned, every adapter has been closed and nothing changes any more:
      none is made, and none is closed again. */
  lemma NothingAfterClose(s: State, before: seq<(nat, Choice)>, after: seq<(nat, Choice)>, t: nat)
    requires Initial(s) && t < |Run(s, before).threads|
    requires Run(s, before).threads[t].pc == Done(CloseDone)
    ensures Run(Run(s, before), after).sh == Run(s, before).sh
    ensures Run(s, before).sh.adapter.None? && |Run(s, before).sh.closes| == Run(s, before).sh.created
  {
    RunKeepsInv(s, before);
    assert ThreadOk(Run(s, before).sh, Run(s, before).threads[t]);
    RunKeepsInv(Run(s, before), after);
  }

  /** Every attempt made under the mutex uses an adapter that has not been closed. */
  lemma LockedAttemptsAreOpen(s: State, schedule: seq<(nat, Choice)>, t: nat)
    requires Initial(s) && t < |Run(s, schedule).threads|
    ensures var now := Run(s, schedule);
            now.threads[t].pc.RetryAttempt? || now.threads[t].pc.BrowseAttempt? ==>
              now.sh.adapter.Some? && now.sh.adapter.value !in now.sh.closes && !now.sh.closed
  {
    RunKeepsInv(s, schedule);
    assert ThreadOk(Run(s, schedule).sh, Run(s, schedule).threads[t]);
  }

  /** A call that reports success made exactly one successful attempt, its last, and met
      only lost connections before; and no call makes more attempts than its policy grants. */
  lemma SuccessIsLastAttempt(s: State, schedule: seq<(nat, Choice)>, t: nat)
    requires Initial(s) && t < |Run(s, schedule).threads| && Run(s, schedule).threads[t].pc.Done?
    ensures var th := Run(s, schedule).threads[t];
            && OutcomeOk(th, th.pc.outcome) && |th.log| <= th.granted + 1
            && (th.pc.outcome == Returned(Succeeded) <==> Succeeded in th.log)
  {
    RunKeepsInv(s, schedule);
    DoneCallLog(Run(s, schedule).sh, Run(s, schedule).threads[t]);
  }

  lemma DoneCallLog(sh: Shared, th: Thread)
    requires ThreadOk(sh, th) && th.pc.Done?
    ensures OutcomeOk(th, th.pc.outcome) && |th.log| <= th.granted + 1
    ensures th.pc.outcome == Returned(Succeeded) <==> Succeeded in th.log
  {
    if th.pc.outcome.Returned? {
      var n := |th.log|;
      assert th.log == th.log[..n - 1] + [th.log[n - 1]];
    }
  }

  // ---------- Why a call ends ----------

  /** What has to be the case, at the step that ends call `t`, for it to end in this way. */
  predicate Cause(sh: Shared, th: Thread, c: Choice, outcome: Outcome) {
    match outcome
    case CloseDone => th.pc.Closing? && th.kind.Close? && sh.closed
    case Unsupported => th.kind.Browse? && th.pc.BrowseAttempt? && !c.supported
    case FactoryFailed => th.pc.Entered? && !th.kind.Close? && !sh.closed && sh.adapter.None? && !c.factoryOk
    case AdapterClosed => sh.closed && ((th.pc.Entered? && !th.kind.Close?) || (th.pc.RetryTop? && !c.contextDone))
    case ContextDone => c.contextDone && (th.pc.RetryTop? || th.pc.RetryWait?)
    case Exhausted => th.pc.RetryTop? && !c.contextDone && !sh.closed && th.budget == 0
    case Returned(r) =>
      && r == c.result
      && ((th.pc.BrowseAttempt? && c.supported) || ((th.pc.Attempt? || th.pc.RetryAttempt?) && !r.Dropped?))
  }

  lemma EndsInLoopForCause(s: State, t: nat, c: Choice, outcome: Outcome)
    requires t < |s.threads| && (s.threads[t].pc.RetryTop? || s.threads[t].pc.RetryWait?)
    ensures Step(s, t, c).threads[t].pc == Done(outcome) <==> Cause(s.sh, s.threads[t], c, outcome)
  {
  }

  lemma EndsOutsideForCause(s: State, t: nat, c: Choice, outcome: Outcome)
    requires Inv(s) && t < |s.threads| && !s.threads[t].pc.Done?
    requires !s.threads[t].pc.RetryTop? && !s.threads[t].pc.RetryWait?
    ensures Step(s, t, c).threads[t].pc == Done(outcome) <==> Cause(s.sh, s.threads[t], c, outcome)
  {
    assert ThreadOk(s.sh, s.threads[t]);
  }

  /** A step ends a call in some way if and only if there is the cause for it. */
  lemma EndsForCause(s: State, t: nat, c: Choice, outcome: Outcome)
    requires Inv(s) && t < |s.threads| && !s.threads[t].pc.Done?
    ensures Step(s, t, c).threads[t].pc == Done(outcome) <==> Cause(s.sh, s.threads[t], c, outcome)
  {
    if s.threads[t].pc.RetryTop? || s.threads[t].pc.RetryWait? {
      EndsInLoopForCause(s, t, c, outcome);
    } else {
      EndsOutsideForCause(s, t, c, outcome);
    }
  }

  /** A result is logged by the step that meets it; a lost connection, or an adapter that cannot
      be made in the loop, leads on to the next turn of the loop, which spends one retry. */
  lemma GoesOnAfter(s: State, t: nat, c: Choice)
    requires Inv(s) && t < |s.threads| && !s.threads[t].pc.Done?
    ensures var th, th' := s.threads[t], Step(s, t, c).threads[t];
            && (th.pc.Attempt? && c.result.Dropped? ==> th' == th.(pc := WantRetryLock, log := th.log + [Dropped]))
            && (th.pc.RetryAttempt? && c.result.Dropped? ==> th' == th.(pc := RetryTop, log := th.log + [Dropped]))
            && (th.pc.RetryCreate? && !c.factoryOk ==> th' == th.(pc := RetryTop))
            && (th.pc.RetryTop? && !th'.pc.Done? ==> th' == th.(pc := RetryWait, budget := th.budget - 1))
            && (th'.pc.Done? ==> th'.log == th.log + if th'.pc.outcome.Returned? then [c.result] else [])
  {
    assert ThreadOk(s.sh, s.threads[t]);
  }

  /** The step of the schedule that ended the call. */
  ghost predicate EndedAt(s: State, schedule: seq<(nat, Choice)>, t: nat, i: nat, outcome: Outcome) {
    && i < |schedule| && schedule[i].0 == t
    && var before := Run(s, schedule[..i]);
       t < |before.threads| && Cause(before.sh, before.threads[t], schedule[i].1, outcome)
  }

  lemma RunOneMore(s: State, schedule: seq<(nat, Choice)>, i: nat)
    requires i < |schedule|
    ensures var before := Run(s, schedule[..i]);
            var (t, c) := schedule[i];
            Run(s, schedule[..i + 1]) == if t < |before.threads| then Step(before, t, c) else before
  {
    var one: seq<(nat, Choice)> := [schedule[i]];
    RunConcat(s, schedule[..i], one);
    assert schedule[..i + 1] == schedule[..i] + one;
    assert one[1..] == [];
  }

  /** A call has ended with its last step, or before it. */
  lemma EndedByLast(s: State, schedule: seq<(nat, Choice)>, t: nat, outcome: Outcome)
    requires Initial(s) && schedule != []
    requires t < |Run(s, schedule).threads| && Run(s, schedule).threads[t].pc == Done(outcome)
    ensures var n := |schedule| - 1;
            var before := Run(s, schedule[..n]);
            t < |before.threads| && (EndedAt(s, schedule, t, n, outcome) || before.threads[t].pc == Done(outcome))
  {
    var n := |schedule| - 1;
    var before := Run(s, schedule[..n]);
    var (u, c) := schedule[n];
    RunKeepsInv(s, schedule[..n]);
    RunOneMore(s, schedule, n);
    assert schedule[..n + 1] == schedule;
    if u < |before.threads| {
      StepMovesOne(before, u, c);
      if !before.threads[u].pc.Done? {
        EndsForCause(before, u, c, outcome);
      }
    }
  }

  /** However the calls interleave, every outcome has its cause in the very step that ended the
      call: "unsupported" an adapter that cannot browse, "closed" a closed wrapper, a factory
      error a wrapper without adapter, a context error a context that is over, and any other
      result the attempt that gave it. */
  lemma {:induction false} OutcomeHasCause(s: State, schedule: seq<(nat, Choice)>, t: nat, outcome: Outcome)
    returns (i: nat)
    requires Initial(s) && t < |Run(s, schedule).threads| && Run(s, schedule).threads[t].pc == Done(outcome)
    ensures EndedAt(s, schedule, t, i, outcome)
    decreases |schedule|
  {
    i := |schedule| - 1;
    EndedByLast(s, schedule, t, outcome);
    if !EndedAt(s, schedule, t, i, outcome) {
      var shorter := schedule[..i];
      i := OutcomeHasCause(s, shorter, t, outcome);
      assert shorter[..i] == schedule[..i];
    }
  }

  /** Two calls: the first connects and is about to use adapter 0; the second uses it too,
      loses the connection, and closes it. */
  function StaleState(i: nat): State {
    var call := Thread(Retried, WantLock, [], 1, 1);
    var first, lost := call.(pc := Attempt(0)), call.(log := [Dropped]);
    var none, one := Shared(None, false, 0, []), Shared(Some(0), false, 1, []);
    if i == 0 then State(none, None, [call, call])
    else if i == 1 then State(none, Some(0), [call.(pc := Entered), call])
    else if i == 2 then State(one, None, [first, call])
    else if i == 3 then State(one, Some(1), [first, call.(pc := Entered)])
    else if i == 4 then State(one, None, [first, first])
    else if i == 5 then State(one, None, [first, lost.(pc := WantRetryLock)])
    else if i == 6 then State(one, Some(1), [first, lost.(pc := RetryTop)])
    else if i == 7 then State(one, Some(1), [first, lost.(pc := RetryWait, budget := 0)])
    else if i == 8 then State(one, Some(1), [first, lost.(pc := RetryClose, budget := 0)])
    else State(Shared(None, false, 1, [0]), Some(1), [first, lost.(pc := RetryCreate, budget := 0)])
  }

  function StaleSchedule(i: nat): seq<(nat, Choice)>
    decreases 9 - i
  {
    if i >= 9 then [] else [(if i < 2 then 0 else 1, Choice(false, true, true, Dropped))] + StaleSchedule(i + 1)
  }

  lemma StaleStep(i: nat)
    requires i < 9
    ensures Step(StaleState(i), if i < 2 then 0 else 1, Choice(false, true, true, Dropped)) == StaleState(i + 1)
  {
    var next := Step(StaleState(i), if i < 2 then 0 else 1, Choice(false, true, true, Dropped));
    assert [] + [Dropped] == [Dropped] && [] + [0] == [0];
    assert next.threads == StaleState(i + 1).threads;
    assert next.sh.closes == StaleState(i + 1).sh.closes;
  }

  lemma {:induction false} StaleRun(i: nat)
    requires i <= 9
    ensures Run(StaleState(i), StaleSchedule(i)) == StaleState(9)
    decreases 9 - i
  {
    if i < 9 {
      StaleStep(i);
      StaleRun(i + 1);
    }
  }

  /** The optimistic attempt has no such guarantee: there is an interleaving of two calls that
      leaves the first about to use an adapter the second has already closed. */
  lemma OptimisticAttemptMayBeStale()
    ensures exists s, schedule :: Initial(s) && StaleAttempt(Run(s, schedule))
  {
    assert exists s, schedule :: Initial(s) && StaleAttempt(Run(s, schedule)) by {
      StaleRun(0);
      StaleEnds();
    }
  }

  lemma StaleEnds()
    ensures Initial(StaleState(0)) && StaleAttempt(StaleState(9))
  {
  }

  ghost predicate StaleAttempt(s: State) {
    s.threads != [] && s.threads[0].pc.Attempt? && s.threads[0].pc.handle in s.sh.closes
  }

  /** An optimistic attempt is on an open adapter exactly while that is the current one. */
  lemma AttemptIsOpenIffCurrent(s: State, schedule: seq<(nat, Choice)>, t: nat)
    requires Initial(s) && t < |Run(s, schedule).threads| && Run(s, schedule).threads[t].pc.Attempt?
    ensures var now := Run(s, schedule);
            now.threads[t].pc.handle !in now.sh.closes <==> now.sh.adapter == Some(now.threads[t].pc.handle)
  {
    RunKeepsInv(s, schedule);
    assert ThreadOk(Run(s, schedule).sh, Run(s, schedule).threads[t]);
  }

  /** The call is about to close whatever adapter there is. */
  predicate Drops(s: State, t: nat) {
    t < |s.threads| && (s.threads[t].pc.RetryClose? || s.threads[t].pc.Closing?)
  }

  /** No call takes a closing step. */
  predicate Undisturbed(s: State, schedule: seq<(nat, Choice)>)
    decreases |schedule|
  {
    schedule == [] ||
    (!Drops(s, schedule[0].0) &&
     Undisturbed(if schedule[0].0 < |s.threads| then Step(s, schedule[0].0, schedule[0].1) else s, schedule[1..]))
  }

  lemma StepOnCurrent(s: State, t: nat, c: Choice, a: nat)
    requires Inv(s) && t < |s.threads| && s.sh.adapter == Some(a)
    ensures if Drops(s, t) then a in Step(s, t, c).sh.closes else Step(s, t, c).sh.adapter == Some(a)
  {
    assert ThreadOk(s.sh, s.threads[t]);
  }

  lemma {:induction false} ClosedStays(s: State, schedule: seq<(nat, Choice)>, a: nat)
    requires a in s.sh.closes
    ensures a in Run(s, schedule).sh.closes
    decreases |schedule|
  {
    if schedule != [] {
      ClosedStays(if schedule[0].0 < |s.threads| then Step(s, schedule[0].0, schedule[0].1) else s, schedule[1..], a);
    }
  }

  lemma {:induction false} CurrentUntilDropped(s: State, schedule: seq<(nat, Choice)>, a: nat)
    requires Inv(s) && s.sh.adapter == Some(a)
    ensures a !in Run(s, schedule).sh.closes <==> Undisturbed(s, schedule)
    decreases |schedule|
  {
    if schedule != [] {
      var (t, c) := schedule[0];
      if t >= |s.threads| {
        CurrentUntilDropped(s, schedule[1..], a);
      } else {
        StepOnCurrent(s, t, c, a);
        StepKeepsInv(s, t, c);
        if Drops(s, t) {
          ClosedStays(Step(s, t, c), schedule[1..], a);
        } else {
          CurrentUntilDropped(Step(s, t, c), schedule[1..], a);
        }
      }
    }
  }

  /** When the optimistic attempt of a call is on an open adapter, over all interleavings: from
      the step in which the call lets go of the mutex, its adapter is open exactly as long as
      no call takes the closing step of a retry or of Close. */
  lemma OptimisticAttemptOpenIff(s: State, before: seq<(nat, Choice)>, t: nat, c: Choice, after: seq<(nat, Choice)>)
    requires Initial(s) && t < |Run(s, before).threads|
    requires !Run(s, before).threads[t].pc.Attempt? && t < |Step(Run(s, before), t, c).threads|
    requires Step(Run(s, before), t, c).threads[t].pc.Attempt?
    ensures var free := Step(Run(s, before), t, c);
            free.threads[t].pc.handle !in Run(free, after).sh.closes <==> Undisturbed(free, after)
  {
    var held := Run(s, before);
    RunKeepsInv(s, before);
    StepKeepsInv(held, t, c);
    LeavesWithCurrent(held, t, c);
    CurrentUntilDropped(Step(held, t, c), after, Step(held, t, c).threads[t].pc.handle);
  }

  lemma LeavesWithCurrent(s: State, t: nat, c: Choice)
    requires t < |s.threads| && !s.threads[t].pc.Attempt?
    ensures var pc := Step(s, t, c).threads[t].pc; pc.Attempt? ==> Step(s, t, c).sh.adapter == Some(pc.handle)
  {
  }

  // ---------- The locked loop, run through ----------

  /** What one turn of the retry loop meets: the context's state at the top and while waiting,
      the factory's answer, and the retried operation's result. */
  datatype Round = Round(contextDone: bool, contextDoneWaiting: bool, factoryOk: bool, result: Result)

  /** Fields, attempts and outcome after these turns; no outcome means it is still looping. */
  datatype Retries = Retries(sh: Shared, log: seq<Result>, outcome: Option<Outcome>)

  /** One turn; no outcome means another turn follows, with one retry less to spend. */
  function Turn(sh: Shared, log: seq<Result>, budget: nat, r: Round): (turn: Retries)
    ensures turn.outcome.None? ==> budget > 0
  {
    if r.contextDone then Retries(sh, log, Some(ContextDone))
    else if sh.closed then Retries(sh, log, Some(AdapterClosed))
    else if budget == 0 then Retries(sh, log, Some(Exhausted))
    else if r.contextDoneWaiting then Retries(sh, log, Some(ContextDone))
    else if !r.factoryOk then Retries(DropAdapter(sh), log, None)
    else
      Retries(Create(DropAdapter(sh)), log + [r.result], if r.result.Dropped? then None else Some(Returned(r.result)))
  }

  function RetryLoop(sh: Shared, log: seq<Result>, budget: nat, rounds: seq<Round>): Retries
    decreases |rounds|
  {
    if rounds == [] then Retries(sh, log, None)
    else
      var turn := Turn(sh, log, budget, rounds[0]);
      if turn.outcome.Some? then turn else RetryLoop(turn.sh, turn.log, budget - 1, rounds[1..])
  }

  /** The steps a call takes in the protocol to go through these turns. */
  function RoundSteps(t: nat, r: Round): seq<(nat, Choice)> {
    var top := Choice(r.contextDone, r.factoryOk, true, r.result);
    var waiting := Choice(r.contextDoneWaiting, r.factoryOk, true, r.result);
    [(t, top), (t, waiting), (t, waiting), (t, waiting)] + if r.factoryOk then [(t, waiting)] else []
  }

  function RoundsSchedule(t: nat, rounds: seq<Round>): seq<(nat, Choice)>
    decreases |rounds|
  {
    if rounds == [] then [] else RoundSteps(t, rounds[0]) + RoundsSchedule(t, rounds[1..])
  }

  lemma {:induction false} RunConcat(s: State, a: seq<(nat, Choice)>, b: seq<(nat, Choice)>)
    ensures Run(s, a + b) == Run(Run(s, a), b)
    decreases |a|
  {
    if a == [] {
      assert a + b == b;
    } else {
      assert (a + b)[1..] == a[1..] + b;
      RunConcat(if a[0].0 < |s.threads| then Step(s, a[0].0, a[0].1) else s, a[1..], b);
    }
  }

  lemma {:induction false} DoneStays(s: State, t: nat, schedule: seq<(nat, Choice)>)
    requires t < |s.threads| && s.threads[t].pc.Done?
    requires forall i | 0 <= i < |schedule| :: schedule[i].0 == t
    ensures Run(s, schedule) == s
    decreases |schedule|
  {
    if schedule != [] {
      DoneStays(s, t, schedule[1..]);
    }
  }

  lemma {:induction false} OnlyMoves(t: nat, rounds: seq<Round>)
    ensures forall i | 0 <= i < |RoundsSchedule(t, rounds)| :: RoundsSchedule(t, rounds)[i].0 == t
    decreases |rounds|
  {
    if rounds != [] {
      OnlyMoves(t, rounds[1..]);
    }
  }

  /** Call `t` in the state that `r` describes, with the mutex held only while it is looping. */
  ghost predicate Shows(s: State, t: nat, r: Retries) {
    && t < |s.threads| && s.sh == r.sh && s.threads[t].log == r.log
    && match r.outcome
       case None => AtRetryTop(s, t)
       case Some(outcome) => s.threads[t].pc == Done(outcome) && s.lock == None
  }

  predicate AtRetryTop(s: State, t: nat) {
    t < |s.threads| && s.threads[t].pc == RetryTop && s.lock == Some(t)
  }

  /** The turns that leave without reconnecting. */
  lemma TurnLeaves(s: State, t: nat, r: Round)
    requires AtRetryTop(s, t)
    requires r.contextDone || s.sh.closed || s.threads[t].budget == 0 || r.contextDoneWaiting
    ensures Shows(Run(s, RoundSteps(t, r)), t, Turn(s.sh, s.threads[t].log, s.threads[t].budget, r))
  {
    var steps := RoundSteps(t, r);
    var s1 := Step(s, t, steps[0].1);
    if s1.threads[t].pc.Done? {
      DoneStays(s1, t, steps[1..]);
    } else {
      var s2 := Step(s1, t, steps[1].1);
      DoneStays(s2, t, steps[1..][1..]);
    }
  }

  lemma RunTwo(s: State, t: nat, c: Choice, d: Choice)
    requires t < |s.threads|
    ensures |Step(s, t, c).threads| == |s.threads| && Run(s, [(t, c), (t, d)]) == Step(Step(s, t, c), t, d)
  {
    StepMovesOne(s, t, c);
    assert [(t, c), (t, d)][1..] == [(t, d)] && [(t, d)][1..] == [];
    assert Run(Step(s, t, c), [(t, d)]) == Step(Step(s, t, c), t, d);
  }

  lemma TurnStarts(s: State, t: nat, top: Choice, waiting: Choice)
    requires AtRetryTop(s, t) && !s.sh.closed && s.threads[t].budget > 0 && !top.contextDone && !waiting.contextDone
    ensures var s' := Run(s, [(t, top), (t, waiting)]);
            && t < |s'.threads| && s'.sh == s.sh && s'.lock == s.lock
            && s'.threads[t] == s.threads[t].(budget := s.threads[t].budget - 1, pc := RetryClose)
  {
    RunTwo(s, t, top, waiting);
  }

  lemma TurnRenews(s: State, t: nat, c: Choice)
    requires t < |s.threads| && s.threads[t].pc == RetryClose
    ensures var s' := Run(s, [(t, c), (t, c)]);
            && t < |s'.threads| && s'.lock == s.lock
            && s'.sh == (if c.factoryOk then Create(DropAdapter(s.sh)) else DropAdapter(s.sh))
            && s'.threads[t] == s.threads[t].(pc := if c.factoryOk then RetryAttempt else RetryTop)
  {
    RunTwo(s, t, c, c);
  }

  lemma TurnAttempts(s: State, t: nat, c: Choice)
    requires t < |s.threads| && s.threads[t].pc == RetryAttempt && s.lock == Some(t)
    ensures var s', log := Run(s, [(t, c)]), s.threads[t].log + [c.result];
            && t < |s'.threads| && s'.sh == s.sh && s'.threads[t].budget == s.threads[t].budget
            && s'.threads[t].log == log
            && if c.result.Dropped? then AtRetryTop(s', t)
               else s'.threads[t].pc == Done(Returned(c.result)) && s'.lock == None
  {
    assert [(t, c)][1..] == [];
    assert Run(s, [(t, c)]) == Step(s, t, c);
  }

  lemma TurnSplits(s: State, t: nat, r: Round) returns (started: State)
    ensures var top := Choice(r.contextDone, r.factoryOk, true, r.result);
            var waiting := Choice(r.contextDoneWaiting, r.factoryOk, true, r.result);
            && started == Run(s, [(t, top), (t, waiting)])
            && Run(s, RoundSteps(t, r)) ==
               Run(Run(started, [(t, waiting), (t, waiting)]), if r.factoryOk then [(t, waiting)] else [])
  {
    var top := Choice(r.contextDone, r.factoryOk, true, r.result);
    var waiting := Choice(r.contextDoneWaiting, r.factoryOk, true, r.result);
    var a, b, c := [(t, top), (t, waiting)], [(t, waiting), (t, waiting)], if r.factoryOk then [(t, waiting)] else [];
    started := Run(s, a);
    assert RoundSteps(t, r) == a + (b + c);
    RunConcat(s, a, b + c);
    RunConcat(started, b, c);
  }

  /** The turns that reconnect, successfully or not. */
  lemma TurnReconnects(s: State, t: nat, r: Round)
    requires AtRetryTop(s, t)
    requires !(r.contextDone || s.sh.closed || s.threads[t].budget == 0 || r.contextDoneWaiting)
    ensures var s' := Run(s, RoundSteps(t, r));
            && Shows(s', t, Turn(s.sh, s.threads[t].log, s.threads[t].budget, r))
            && s'.threads[t].budget == s.threads[t].budget - 1
  {
    var top := Choice(r.contextDone, r.factoryOk, true, r.result);
    var waiting := Choice(r.contextDoneWaiting, r.factoryOk, true, r.result);
    var started := TurnSplits(s, t, r);
    TurnStarts(s, t, top, waiting);
    TurnRenews(started, t, waiting);
    if r.factoryOk {
      TurnAttempts(Run(started, [(t, waiting), (t, waiting)]), t, waiting);
    }
  }

  /** Left alone with the mutex, a call in the protocol does exactly what the loop does. */
  lemma {:induction false} ProtocolRunsLoop(s: State, t: nat, rounds: seq<Round>)
    requires AtRetryTop(s, t)
    ensures Shows(Run(s, RoundsSchedule(t, rounds)), t, RetryLoop(s.sh, s.threads[t].log, s.threads[t].budget, rounds))
    decreases |rounds|
  {
    if rounds != [] {
      var r, rest := rounds[0], rounds[1..];
      var once := Run(s, RoundSteps(t, r));
      RunConcat(s, RoundSteps(t, r), RoundsSchedule(t, rest));
      if r.contextDone || s.sh.closed || s.threads[t].budget == 0 || r.contextDoneWaiting {
        TurnLeaves(s, t, r);
      } else {
        TurnReconnects(s, t, r);
      }
      if once.threads[t].pc.Done? {
        OnlyMoves(t, rest);
        DoneStays(once, t, RoundsSchedule(t, rest));
      } else {
        ProtocolRunsLoop(once, t, rest);
      }
    }
  }

  // ---------- The wrapper as an object ----------

  class ReconnectingAdapter {
    var adapter: Option<nat>
    var closed: bool
    var created: nat
    var closes: seq<nat>

    function View(): Shared
      reads this
    {
      Shared(adapter, closed, created, closes)
    }

    /** No adapter was closed twice, and each one made is the current one or was closed. */
    ghost predicate Valid()
      reads this
    {
      Accounted(View())
    }

    constructor ()
      ensures Valid() && View() == Shared(None, false, 0, [])
    {
      adapter, closed, created, closes := None, false, 0, [];
    }

    /** The factory call, when it succeeds: an adapter never seen before. */
    method MakeAdapter()
      requires Valid() && adapter.None?
      modifies this
      ensures Valid() && View() == Create(old(View()))
      ensures adapter.Some? && adapter.value !in closes && closes == old(closes)
    {
      AccountedKept(View());
      adapter := Some(created);
      created := created + 1;
    }

    /** Afterwards every adapter ever made is closed, each of them once. */
    method CloseAdapter()
      requires Valid()
      modifies this
      ensures Valid() && View() == DropAdapter(old(View()))
      ensures adapter.None? && |closes| == created && forall a :: 0 <= a < created ==> a in closes
    {
      AccountedKept(View());
      if adapter.Some? {
        closes := closes + [adapter.value];
        adapter := None;
      }
    }

    method EnsureConnected(factoryOk: bool) returns (err: Option<Outcome>)
      requires Valid()
      modifies this
      ensures Valid() && (err.None? ==> adapter.Some? && adapter.value !in closes && !closed)
      ensures err == if old(closed) then Some(AdapterClosed)
                     else if old(adapter).None? && !factoryOk then Some(FactoryFailed) else None
      ensures View() == if !old(closed) && old(adapter).None? && factoryOk then Create(old(View())) else old(View())
    {
      if closed {
        return Some(AdapterClosed);
      }
      if adapter.Some? {
        return None;
      }
      if !factoryOk {
        return Some(FactoryFailed);
      }
      MakeAdapter();
      err := None;
    }

    method Reconnect(factoryOk: bool)
      requires Valid()
      modifies this
      ensures Valid() && (adapter.Some? <==> factoryOk)
      ensures View() == if factoryOk then Create(DropAdapter(old(View()))) else DropAdapter(old(View()))
    {
      CloseAdapter();
      if factoryOk {
        MakeAdapter();
      }
    }

    method Close()
      requires Valid()
      modifies this
      ensures Valid() && closed && adapter.None? && |closes| == created
      ensures View() == DropAdapter(old(View()).(closed := true))
    {
      closed := true;
      CloseAdapter();
    }

    /** The retry loop, over the turns that happen before it ends. */
    method RetryOp(before: seq<Result>, granted: nat, rounds: seq<Round>)
      returns (log: seq<Result>, outcome: Option<Outcome>)
      requires Valid()
      modifies this
      ensures Valid()
      ensures Retries(View(), log, outcome) == RetryLoop(old(View()), before, granted, rounds)
    {
      log, outcome := before, None;
      var budget := granted;
      ghost var rest := rounds;
      for i := 0 to |rounds|
        invariant rest == rounds[i..] && Valid()
        invariant RetryLoop(View(), log, budget, rest) == RetryLoop(old(View()), before, granted, rounds)
      {
        var r := rounds[i];
        if r.contextDone {
          return log, Some(ContextDone);
        }
        if closed {
          return log, Some(AdapterClosed);
        }
        if budget == 0 {
          return log, Some(Exhausted);
        }
        budget := budget - 1;
        if r.contextDoneWaiting {
          return log, Some(ContextDone);
        }
        Reconnect(r.factoryOk);
        rest := rest[1..];
        if !r.factoryOk {
          continue;
        }
        log := log + [r.result];
        if !r.result.Dropped? {
          return log, Some(Returned(r.result));
        }
      }
    }

    /** Send, Receive or Request, called alone: connect, try once, then retry. */
    method Operate(factoryOk: bool, first: Result, granted: nat, rounds: seq<Round>)
      returns (log: seq<Result>, outcome: Option<Outcome>)
      requires Valid()
      modifies this
      ensures Valid() && (outcome == Some(Returned(Succeeded)) <==> Succeeded in log)
      ensures Retries(View(), log, outcome) == Operation(old(View()), factoryOk, first, granted, rounds)
    {
      OperationLaws(View(), factoryOk, first, granted, rounds);
      var err := EnsureConnected(factoryOk);
      if err.Some? {
        return [], err;
      }
      if !first.Dropped? {
        return [first], Some(Returned(first));
      }
      log, outcome := RetryOp([first], granted, rounds);
    }
  }

  /** A whole call: no attempt without a connection, one without the mutex, then the loop. */
  function Operation(sh: Shared, factoryOk: bool, first: Result, granted: nat, rounds: seq<Round>): Retries {
    if sh.closed then Retries(sh, [], Some(AdapterClosed))
    else if sh.adapter.None? && !factoryOk then Retries(sh, [], Some(FactoryFailed))
    else
      var connected := if sh.adapter.None? then Create(sh) else sh;
      if first.Dropped? then RetryLoop(connected, [first], granted, rounds)
      else Retries(connected, [first], Some(Returned(first)))
  }

  /** A call succeeds exactly when its last attempt does, all earlier ones having lost their
      connection; and whatever happens, the account of adapters stays right. */
  lemma OperationLaws(sh: Shared, factoryOk: bool, first: Result, granted: nat, rounds: seq<Round>)
    requires Accounted(sh)
    ensures var r := Operation(sh, factoryOk, first, granted, rounds);
            && Accounted(r.sh) && |r.log| <= 1 + granted && LogFits(r.log, r.outcome)
            && (r.outcome == Some(Returned(Succeeded)) <==> Succeeded in r.log)
  {
    AccountedKept(sh);
    var connected := if sh.adapter.None? then Create(sh) else sh;
    if !sh.closed && (sh.adapter.Some? || factoryOk) && first.Dropped? {
      RetryLoopAccounts(connected, [first], granted, rounds);
      RetryLoopLog(connected, [first], granted, rounds);
    }
    var r := Operation(sh, factoryOk, first, granted, rounds);
    SuccessInLog(r.log, r.outcome);
  }

  lemma {:induction false} RetryLoopAccounts(sh: Shared, log: seq<Result>, budget: nat, rounds: seq<Round>)
    requires Accounted(sh)
    ensures var r := RetryLoop(sh, log, budget, rounds); Accounted(r.sh) && |r.log| <= |log| + budget
    decreases |rounds|
  {
    AccountedKept(sh);
    AccountedKept(DropAdapter(sh));
    if rounds != [] {
      var turn := Turn(sh, log, budget, rounds[0]);
      if turn.outcome.None? {
        RetryLoopAccounts(turn.sh, turn.log, budget - 1, rounds[1..]);
      }
    }
  }

  /** A turn after which the loop goes on: nothing is over, and the adapter cannot be made or
      loses its connection. */
  predicate TriesAgain(r: Round) {
    !r.contextDone && !r.contextDoneWaiting && (r.factoryOk ==> r.result.Dropped?)
  }

  /** The results of the turns that come to an attempt. */
  function Attempted(rounds: seq<Round>): seq<Result> {
    if rounds == [] then []
    else (if rounds[0].factoryOk then [rounds[0].result] else []) + Attempted(rounds[1..])
  }

  /** Turn `n` is the first that ends the loop, by itself or because no retry is left. */
  predicate EndsAtTurn(rounds: seq<Round>, budget: nat, n: nat) {
    && n < |rounds| && n <= budget
    && (forall i | 0 <= i < n :: TriesAgain(rounds[i]))
    && (n == budget || !TriesAgain(rounds[n]))
  }

  function OutcomeOfTurn(r: Round, exhausted: bool): Outcome {
    if r.contextDone then ContextDone
    else if exhausted then Exhausted
    else if r.contextDoneWaiting then ContextDone
    else Returned(r.result)
  }

  lemma AttemptedCons(r: Round, rounds: seq<Round>)
    ensures Attempted([r] + rounds) == (if r.factoryOk then [r.result] else []) + Attempted(rounds)
  {
    assert ([r] + rounds)[1..] == rounds;
  }

  lemma TurnTriesAgain(sh: Shared, log: seq<Result>, budget: nat, r: Round)
    requires !sh.closed && budget > 0 && TriesAgain(r)
    ensures var turn := Turn(sh, log, budget, r);
            turn.outcome.None? && !turn.sh.closed && turn.log == log + if r.factoryOk then [r.result] else []
  {
    Seqs.Empty(log);
  }

  lemma LaterTurn(rounds: seq<Round>, budget: nat, n: nat)
    requires EndsAtTurn(rounds, budget, n) && n > 0
    ensures TriesAgain(rounds[0]) && EndsAtTurn(rounds[1..], budget - 1, n - 1) && rounds[1..][n - 1] == rounds[n]
    ensures rounds[..n] == [rounds[0]] + rounds[1..][..n - 1]
  {
    assert forall i | 0 <= i < n - 1 :: rounds[1..][i] == rounds[i + 1];
  }

  /** What the loop of a wrapper that is not closed comes to, told by its turns alone. */
  lemma {:induction false} LoopOutcome(sh: Shared, log: seq<Result>, budget: nat, rounds: seq<Round>, n: nat)
    requires !sh.closed && EndsAtTurn(rounds, budget, n)
    ensures var r, end := RetryLoop(sh, log, budget, rounds), OutcomeOfTurn(rounds[n], n == budget);
            && r.outcome == Some(end)
            && r.log == log + (Attempted(rounds[..n]) + if end.Returned? then [end.result] else [])
    decreases n
  {
    if n == 0 {
      assert Attempted(rounds[..0]) == [];
    } else {
      LaterTurn(rounds, budget, n);
      TurnTriesAgain(sh, log, budget, rounds[0]);
      AttemptedCons(rounds[0], rounds[1..][..n - 1]);
      var turn := Turn(sh, log, budget, rounds[0]);
      LoopOutcome(turn.sh, turn.log, budget - 1, rounds[1..], n - 1);
      var end := OutcomeOfTurn(rounds[n], n == budget);
      Seqs.AssociateFour(log, if rounds[0].factoryOk then [rounds[0].result] else [], Attempted(rounds[1..][..n - 1]),
                         if end.Returned? then [end.result] else []);
    }
  }

  /** It always comes to an end: after as many turns as there are retries, if not before. */
  lemma {:induction false} LoopEnds(budget: nat, rounds: seq<Round>) returns (n: nat)
    requires |rounds| > budget
    ensures EndsAtTurn(rounds, budget, n)
  {
    n := 0;
    if budget > 0 && TriesAgain(rounds[0]) {
      n := LoopEnds(budget - 1, rounds[1..]);
      assert forall i | 0 <= i < n :: rounds[1..][i] == rounds[i + 1];
      n := n + 1;
    }
  }

  /** A whole call by its causes: a wrapper that is closed or cannot connect gives that error
      without an attempt; a first attempt that keeps its connection is the only one; a lost
      connection leaves it to the turns of the loop. */
  lemma OperationOutcome(sh: Shared, factoryOk: bool, first: Result, granted: nat, rounds: seq<Round>)
    ensures var r, connects := Operation(sh, factoryOk, first, granted, rounds), sh.adapter.Some? || factoryOk;
            && (sh.closed ==> r == Retries(sh, [], Some(AdapterClosed)))
            && (!sh.closed && !connects ==> r == Retries(sh, [], Some(FactoryFailed)))
            && (!sh.closed && connects && !first.Dropped? ==>
                  && r.log == [first] && r.outcome == Some(Returned(first))
                  && r.sh.adapter.Some? && r.sh.closes == sh.closes)
            && (!sh.closed && connects && first.Dropped? ==>
                  forall n: nat | EndsAtTurn(rounds, granted, n) ::
                    && r.outcome == Some(OutcomeOfTurn(rounds[n], n == granted))
                    && [Dropped] + Attempted(rounds[..n]) <= r.log)
  {
    if !sh.closed && (sh.adapter.Some? || factoryOk) && first.Dropped? {
      forall n: nat | EndsAtTurn(rounds, granted, n)
        ensures var r := Operation(sh, factoryOk, first, granted, rounds);
                && r.outcome == Some(OutcomeOfTurn(rounds[n], n == granted))
                && [Dropped] + Attempted(rounds[..n]) <= r.log
      {
        LoopOutcome(if sh.adapter.None? then Create(sh) else sh, [first], granted, rounds, n);
      }
    }
  }

  /** The attempts an outcome goes with: lost connections, then the result returned, if any. */
  ghost predicate LogFits(log: seq<Result>, outcome: Option<Outcome>) {
    if outcome.Some? && outcome.value.Returned? then EndsIn(log, outcome.value.result) && !outcome.value.result.Dropped?
    else AllDropped(log)
  }

  lemma SuccessInLog(log: seq<Result>, outcome: Option<Outcome>)
    requires LogFits(log, outcome)
    ensures outcome == Some(Returned(Succeeded)) <==> Succeeded in log
  {
    if outcome.Some? && outcome.value.Returned? {
      assert log == log[..|log| - 1] + [log[|log| - 1]];
    }
  }

  lemma {:induction false} RetryLoopLog(sh: Shared, log: seq<Result>, budget: nat, rounds: seq<Round>)
    requires AllDropped(log)
    ensures var r := RetryLoop(sh, log, budget, rounds); LogFits(r.log, r.outcome)
    decreases |rounds|
  {
    if rounds != [] {
      var turn := Turn(sh, log, budget, rounds[0]);
      assert (log + [rounds[0].result])[..|log|] == log;
      if turn.outcome.None? {
        RetryLoopLog(turn.sh, turn.log, budget - 1, rounds[1..]);
      }
    }
  }
}
