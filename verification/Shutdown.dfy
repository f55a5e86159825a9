/** Stopping the probe: the flag written by signal handlers, the bound on what the threads still do once
    it is set, and the return of `waitForShutdown`. */
module Shutdown {
  import opened Text
  import opened Offset
  import opened PipelineSpec
  import opened PipelineMachine
  import opened PipelineSafety
  import opened PipelineTheorems

  // ----- the flag -----

  ghost predicate SignalInv(s: State)
  {
    s.signum >= 0 && forall n :: n in s.handlers ==> n > 0
  }

  lemma StepKeepsSignals(env: Env, s: State, a: Action)
    requires SignalInv(s) && Enabled(s, a)
    ensures SignalInv(Next(env, s, a))
    ensures s.signum != 0 ==> Next(env, s, a).signum != 0
  {
  }

  /** Once set, the stop flag is never zero again, however handlers overlap. */
  lemma {:induction false} FlagStays(env: Env, s: State, acts: seq<Action>)
    requires SignalInv(s) && IsRun(env, s, acts)
    ensures SignalInv(Exec(env, s, acts))
    ensures s.signum != 0 ==> Exec(env, s, acts).signum != 0
    decreases |acts|
  {
    if acts != [] {
      StepKeepsSignals(env, s, acts[0]);
      FlagStays(env, Next(env, s, acts[0]), acts[1..]);
    }
  }

  lemma ReachableSignals(env: Env, s: State)
    requires Reachable(env, s)
    ensures SignalInv(s)
  {
    var now: int, acts :| now > 0 && IsRun(env, Init(now), acts) && s == Exec(env, Init(now), acts);
    FlagStays(env, Init(now), acts);
  }

  /** Only handlers that passed their test before the flag was set can still change it. */
  lemma {:induction false} FrozenWithoutRivals(env: Env, s: State, acts: seq<Action>)
    requires s.signum != 0 && forall n :: n in s.handlers ==> n == s.signum
    requires IsRun(env, s, acts)
    ensures Exec(env, s, acts).signum == s.signum
    decreases |acts|
  {
    if acts != [] {
      FrozenWithoutRivals(env, Next(env, s, acts[0]), acts[1..]);
    }
  }

  /** The recorded signal is final if and only if no other handler stands between its test and its
      write. */
  lemma FlagIsFinal(env: Env, s: State)
    requires s.signum != 0
    ensures (forall acts :: IsRun(env, s, acts) ==> Exec(env, s, acts).signum == s.signum)
            <==> (Defined(s) ==> forall n :: n in s.handlers ==> n == s.signum)
  {
    if !Defined(s) {
      assert forall acts :: IsRun(env, s, acts) ==> acts == [];
    } else if forall n :: n in s.handlers ==> n == s.signum {
      forall acts | IsRun(env, s, acts)
        ensures Exec(env, s, acts).signum == s.signum
      {
        FrozenWithoutRivals(env, s, acts);
      }
    } else {
      var n :| n in s.handlers && n != s.signum;
      OneAction(env, s, HandlerSet(n));
    }
  }

  lemma OneAction(env: Env, s: State, a: Action)
    requires Enabled(s, a)
    ensures IsRun(env, s, [a]) && Exec(env, s, [a]) == Next(env, s, a)
  {
    assert [a][1..] == [];
    assert IsRun(env, Next(env, s, a), []);
  }

  predicate IsHandlerAction(a: Action) { a.HandlerTest? || a.HandlerSet? }

  lemma {:induction false} QuietKeepsHandlers(env: Env, s: State, acts: seq<Action>)
    requires IsRun(env, s, acts) && forall i :: 0 <= i < |acts| ==> !IsHandlerAction(acts[i])
    ensures Exec(env, s, acts).handlers == s.handlers && Exec(env, s, acts).signum == s.signum
    decreases |acts|
  {
    if acts != [] {
      assert forall i :: 0 <= i < |acts[1..]| ==> acts[1..][i] == acts[i + 1];
      QuietKeepsHandlers(env, Next(env, s, acts[0]), acts[1..]);
    }
  }

  /** The first signal wins when its handler is not interleaved with another one, whatever the threads
      do meanwhile and whatever comes later. */
  lemma FirstSignalWins(env: Env, s: State, n: int, meanwhile: seq<Action>, later: seq<Action>)
    requires Defined(s) && s.signum == 0 && s.handlers == multiset{} && n > 0 && n != Signals.SIGPIPE
    requires IsRun(env, Next(env, s, HandlerTest(n)), meanwhile)
    requires Defined(Exec(env, Next(env, s, HandlerTest(n)), meanwhile))
    requires forall i :: 0 <= i < |meanwhile| ==> !IsHandlerAction(meanwhile[i])
    ensures Enabled(Exec(env, Next(env, s, HandlerTest(n)), meanwhile), HandlerSet(n))
    ensures var t := Next(env, Exec(env, Next(env, s, HandlerTest(n)), meanwhile), HandlerSet(n));
            t.signum == n && (IsRun(env, t, later) ==> Exec(env, t, later).signum == n)
  {
    var tested := Next(env, s, HandlerTest(n));
    QuietKeepsHandlers(env, tested, meanwhile);
    var t := Next(env, Exec(env, tested, meanwhile), HandlerSet(n));
    assert t.handlers == multiset{};
    if IsRun(env, t, later) {
      FrozenWithoutRivals(env, t, later);
    }
  }

  /** Two handlers that both passed their test write one after the other. */
  lemma TwoWrites(env: Env, s: State, first: int, second: int) returns (acts: seq<Action>)
    requires Defined(s) && s.handlers == multiset{first, second}
    ensures acts == [HandlerSet(first), HandlerSet(second)]
    ensures IsRun(env, s, acts) && Exec(env, s, acts).signum == second
  {
    var t := Next(env, s, HandlerSet(first));
    assert t.handlers == multiset{second};
    OneAction(env, t, HandlerSet(second));
    acts := [HandlerSet(first)] + [HandlerSet(second)];
    RunCons(env, s, HandlerSet(first), [HandlerSet(second)], acts);
  }

  /** With overlapping handlers the first signal can be overwritten, whichever the two are. */
  lemma OverlapLosesFirst(env: Env, first: int, second: int) returns (acts: seq<Action>)
    requires first > 0 && second > 0 && first != Signals.SIGPIPE && second != Signals.SIGPIPE
    ensures acts == [HandlerTest(first), HandlerTest(second), HandlerSet(first), HandlerSet(second)]
    ensures IsRun(env, Init(1), acts) && Exec(env, Init(1), acts).signum == second
  {
    var s0 := Init(1);
    var s1 := Next(env, s0, HandlerTest(first));
    var s2 := Next(env, s1, HandlerTest(second));
    var writes := TwoWrites(env, s2, first, second);
    RunCons(env, s1, HandlerTest(second), writes, [HandlerTest(second)] + writes);
    acts := [HandlerTest(first)] + ([HandlerTest(second)] + writes);
    RunCons(env, s0, HandlerTest(first), [HandlerTest(second)] + writes, acts);
  }

  // ----- how much is left to do -----

  function FormatRank(pc: FormatPc): int
  {
    match pc
    case FOuter => 1
    case FInner => 3
    case FLockCollect => 2
    case FCheck => 1
    case FPrint(_) => 0
    case FOverrun => -1
    case FLockSD(_) => -1
    case FAppend(_) => -2
    case FUnlockSD => -11
    case FUnlink => -12
    case FUnlockCollect => 4
    case FSleep => 2
    case FExited => 0
  }

  function SenderRank(pc: SenderPc): int
  {
    match pc
    case SOuter => 1
    case SPollTime => 18
    case SPollCheck(_) => 17
    case SPollDue(_, _) => 16
    case SPollBusy(_) => 4
    case SBeatLock(_, _) => 15
    case SBeatAppend(_, _) => 14
    case SBeatUnlock(_, _) => 5
    case SBeatStamp(_, _) => 4
    case SInner => 3
    case SIncrement => 2
    case SLockSD => 1
    case SCheck => 0
    case SSend(_) => -1
    case SUnlink => -2
    case SUnlockSD => 5
    case SWrap => 4
    case SSleep => 2
    case SExited => 0
  }

  /** Steps that a collected item still costs: nine of the format thread and eight of the sender. */
  const ITEM_COST := 17
  const ELEMENT_COST := 8

  function Measure(s: State): int
  {
    ITEM_COST * |s.collect| + ELEMENT_COST * |s.sd| + FormatRank(s.fpc) + SenderRank(s.spc)
  }

  predicate IsWorkerStep(a: Action) { a.FormatStep? || a.SenderStep? }

  function WorkerSteps(acts: seq<Action>): nat
  {
    if acts == [] then 0 else (if IsWorkerStep(acts[0]) then 1 else 0) + WorkerSteps(acts[1..])
  }

  function Appends(acts: seq<Action>): nat
  {
    if acts == [] then 0 else (if acts[0].AddonAppend? then 1 else 0) + Appends(acts[1..])
  }

  lemma MeasureIsNat(env: Env, s: State)
    requires FormatPeek(env, s) && SenderPeek(s)
    ensures Measure(s) >= 0
  {
  }

  lemma FormatMeasure(env: Env, s: State)
    requires FormatPeek(env, s) && s.signum != 0 && FormatEnabled(s)
    ensures Measure(FormatNext(env, s)) <= Measure(s) - 1
  {
  }

  lemma SenderMeasure(env: Env, s: State, timeVal: string, arrived: bool)
    requires SenderPeek(s) && s.signum != 0 && SenderEnabled(s)
    ensures Measure(SenderNext(env, s, timeVal, arrived)) <= Measure(s) - 1
  {
  }

  /** With the flag set, each worker step costs at least one unit and only an addon's append adds any. */
  lemma StepMeasure(env: Env, s: State, a: Action)
    requires FormatPeek(env, s) && SenderPeek(s) && s.signum != 0 && Enabled(s, a)
    ensures Measure(Next(env, s, a))
         <= Measure(s) - (if IsWorkerStep(a) then 1 else 0) + (if a.AddonAppend? then ITEM_COST else 0)
  {
    match a {
      case FormatStep => FormatMeasure(env, s);
      case SenderStep(timeVal, arrived) => SenderMeasure(env, s, timeVal, arrived);
      case _ =>
    }
  }

  /** Bound: after the flag is set, both threads together take at most as many steps as the queues and
      program counters allow, plus seventeen for each item still collected, in every interleaving. */
  lemma {:induction false} ShutdownBound(env: Env, s: State, acts: seq<Action>)
    requires Inv(env, s) && SignalInv(s) && s.signum != 0 && IsRun(env, s, acts)
    ensures 0 <= Measure(Exec(env, s, acts)) <= Measure(s) + ITEM_COST * Appends(acts) - WorkerSteps(acts)
    decreases |acts|
  {
    MeasureIsNat(env, s);
    if acts != [] {
      StepMeasure(env, s, acts[0]);
      StepKeepsInv(env, s, acts[0]);
      StepKeepsSignals(env, s, acts[0]);
      ShutdownBound(env, Next(env, s, acts[0]), acts[1..]);
    }
  }

  predicate InPoll(pc: SenderPc)
  {
    pc.SPollTime? || pc.SPollCheck? || pc.SPollDue? || pc.SPollBusy?
    || pc.SBeatLock? || pc.SBeatAppend? || pc.SBeatUnlock? || pc.SBeatStamp?
  }

  /** After the flag is set no poll begins, so at most the one in progress can push a heartbeat. */
  lemma {:induction false} NoNewPoll(env: Env, s: State, acts: seq<Action>)
    requires SignalInv(s) && s.signum != 0 && IsRun(env, s, acts)
    ensures var t := Exec(env, s, acts);
            |t.polls| + (if InPoll(t.spc) then 1 else 0) == |s.polls| + (if InPoll(s.spc) then 1 else 0)
    decreases |acts|
  {
    if acts != [] {
      StepKeepsSignals(env, s, acts[0]);
      NoNewPoll(env, Next(env, s, acts[0]), acts[1..]);
    }
  }

  // ----- the end -----

  /** `waitForShutdown` returns once both threads were joined, with the flag. */
  ghost function WaitForShutdown(s: State): Option<int>
  {
    if s.fpc.FExited? && s.spc.SExited? then Some(s.signum) else None
  }

  /** A reachable state in which no thread and no addon holding the mutex can step, and in which no write
      left its buffer, is one in which `waitForShutdown` returns, and it returns a signal. */
  lemma MaximalRunReturns(env: Env, s: State)
    requires Reachable(env, s)
    requires Stuck(s)
    ensures s.fpc.FOverrun? || (WaitForShutdown(s) == Some(s.signum) && s.signum > 0)
  {
    DeadlockFreedom(env, s);
    ReachableExit(env, s);
    ReachableSignals(env, s);
  }

  ghost predicate ExitInv(s: State)
  {
    SignalInv(s) && (s.fpc.FExited? || s.spc.SExited? ==> s.signum != 0)
  }

  lemma {:induction false} RunKeepsExit(env: Env, s: State, acts: seq<Action>)
    requires ExitInv(s) && IsRun(env, s, acts)
    ensures ExitInv(Exec(env, s, acts))
    decreases |acts|
  {
    if acts != [] {
      StepKeepsSignals(env, s, acts[0]);
      RunKeepsExit(env, Next(env, s, acts[0]), acts[1..]);
    }
  }

  /** No thread exits before a signal was recorded. */
  lemma ReachableExit(env: Env, s: State)
    requires Reachable(env, s)
    ensures s.fpc.FExited? || s.spc.SExited? ==> s.signum != 0
  {
    var now: int, acts :| now > 0 && IsRun(env, Init(now), acts) && s == Exec(env, Init(now), acts);
    RunKeepsExit(env, Init(now), acts);
  }

  predicate IsFinishing(a: Action) { a.FormatStep? || a.SenderStep? || a.AddonUnlock? }

  /** Steps of the threads, and of an addon that releases the mutex. */
  ghost predicate IsFinishingRun(env: Env, s: State, acts: seq<Action>)
  {
    IsRun(env, s, acts) && forall i :: 0 <= i < |acts| ==> IsFinishing(acts[i])
  }

  ghost predicate Stuck(s: State) { !FormatEnabled(s) && !SenderEnabled(s) && !Enabled(s, AddonUnlock) }

  lemma RestFits(env: Env, items: seq<Item>)
    requires items != [] && Fits(env, items[0])
    ensures AllFit(env, Rest(items)) <==> AllFit(env, items)
  {
    AllFirst(FitsIn(env), items);
  }

  /** Do the items that were not printed yet fit their buffer? */
  ghost predicate WaitingFits(env: Env, s: State) { AllFit(env, Abs(s).waiting) }

  /** The format thread does not look at the first queue again, or everything in it fits. */
  ghost predicate CanReturn(env: Env, s: State)
  {
    Defined(s) && (s.fpc.FOuter? || s.fpc.FSleep? || s.fpc.FExited? || WaitingFits(env, s))
  }

  lemma FormatWaiting(env: Env, s: State)
    requires FormatEnabled(s)
    ensures Abs(FormatNext(env, s)).waiting == if s.fpc.FAppend? then Rest(s.collect) else Abs(s).waiting
  {
  }

  lemma FormatKeepsWaiting(env: Env, s: State)
    requires FormatPeek(env, s) && FormatEnabled(s)
    ensures WaitingFits(env, FormatNext(env, s)) <==> WaitingFits(env, s)
  {
    FormatWaiting(env, s);
    if s.fpc.FAppend? {
      RestFits(env, s.collect);
    }
  }

  lemma FormatKeepsCanReturn(env: Env, s: State)
    requires FormatPeek(env, s) && s.signum != 0 && FormatEnabled(s)
    ensures CanReturn(env, FormatNext(env, s)) <==> CanReturn(env, s)
  {
    FormatKeepsWaiting(env, s);
    assert s.fpc.FPrint? ==> Abs(s).waiting[0] == s.collect[0];
  }

  lemma FinishingKeepsCanReturn(env: Env, s: State, a: Action)
    requires FormatPeek(env, s) && s.signum != 0 && Enabled(s, a) && IsFinishing(a)
    ensures CanReturn(env, Next(env, s, a)) <==> CanReturn(env, s)
  {
    if a.FormatStep? {
      FormatKeepsCanReturn(env, s);
    } else {
      assert Abs(Next(env, s, a)).waiting == Abs(s).waiting;
    }
  }

  lemma {:induction false} RunKeepsCanReturn(env: Env, s: State, acts: seq<Action>)
    requires Inv(env, s) && SignalInv(s) && s.signum != 0 && IsFinishingRun(env, s, acts)
    ensures var t := Exec(env, s, acts);
            Inv(env, t) && t.signum == s.signum && (CanReturn(env, t) <==> CanReturn(env, s))
    decreases |acts|
  {
    if acts != [] {
      assert IsFinishing(acts[0]) && forall i :: 0 <= i < |acts[1..]| ==> acts[1..][i] == acts[i + 1];
      FinishingKeepsCanReturn(env, s, acts[0]);
      StepKeepsInv(env, s, acts[0]);
      StepKeepsSignals(env, s, acts[0]);
      RunKeepsCanReturn(env, Next(env, s, acts[0]), acts[1..]);
    }
  }

  /** A step towards the end. */
  lemma FinishingStep(env: Env, s: State) returns (a: Action)
    requires Inv(env, s) && SignalInv(s) && s.signum != 0 && !Stuck(s)
    ensures IsFinishing(a) && Enabled(s, a)
    ensures var t := Next(env, s, a);
            && Inv(env, t) && SignalInv(t) && t.signum == s.signum
            && 0 <= Measure(t) <= Measure(s)
            && (Measure(t) < Measure(s) || (s.collectOwner.ByAddon? && !t.collectOwner.ByAddon?))
  {
    a := if FormatEnabled(s) then FormatStep else if SenderEnabled(s) then SenderStep("", true) else AddonUnlock;
    StepMeasure(env, s, a);
    StepKeepsInv(env, s, a);
    StepKeepsSignals(env, s, a);
    MeasureIsNat(env, Next(env, s, a));
  }

  /** From every state with the flag set, letting only the threads run, and an addon that holds the mutex
      release it, comes to an end. */
  lemma {:induction false} RunsToTheEnd(env: Env, s: State) returns (acts: seq<Action>)
    requires Inv(env, s) && SignalInv(s) && s.signum != 0
    ensures IsFinishingRun(env, s, acts) && Stuck(Exec(env, s, acts))
    decreases Measure(s), s.collectOwner.ByAddon?
  {
    MeasureIsNat(env, s);
    if Stuck(s) {
      acts := [];
    } else {
      var a := FinishingStep(env, s);
      var rest := RunsToTheEnd(env, Next(env, s, a));
      acts := [a] + rest;
      RunCons(env, s, a, rest, acts);
    }
  }

  /** `waitForShutdown` waits for both threads: once it has returned nothing more is pushed, polled or sent,
      whatever the other actors do. */
  lemma {:induction false} NothingAfterReturn(env: Env, s: State, acts: seq<Action>)
    requires WaitForShutdown(s).Some? && IsRun(env, s, acts)
    ensures var t := Exec(env, s, acts);
            WaitForShutdown(t).Some? && t.attempts == s.attempts && t.sd == s.sd && t.polls == s.polls
    decreases |acts|
  {
    if acts != [] {
      NothingAfterReturn(env, Next(env, s, acts[0]), acts[1..]);
    }
  }

  lemma StuckReturns(env: Env, s: State)
    requires LockInv(s)
    ensures Stuck(s) ==> (WaitForShutdown(s) == Some(s.signum) <==> CanReturn(env, s))
    ensures WaitForShutdown(s).Some? ==> CanReturn(env, s)
  {
  }

  /** With the flag set, some finishing run makes `waitForShutdown` return if and only if the format thread
      is past its last look at the first queue or everything waiting fits its buffer. */
  lemma ShutdownIff(env: Env, s: State)
    requires Inv(env, s) && SignalInv(s) && s.signum != 0
    ensures (exists acts :: IsFinishingRun(env, s, acts) && WaitForShutdown(Exec(env, s, acts)) == Some(s.signum))
            <==> CanReturn(env, s)
  {
    var acts := RunsToTheEnd(env, s);
    EveryFinishedRun(env, s, acts);
    forall more | IsFinishingRun(env, s, more) && WaitForShutdown(Exec(env, s, more)) == Some(s.signum)
      ensures CanReturn(env, s)
    {
      RunKeepsCanReturn(env, s, more);
      StuckReturns(env, Exec(env, s, more));
    }
  }

  /** Then every finishing run returns when it can go no further; otherwise none does. */
  lemma EveryFinishedRun(env: Env, s: State, acts: seq<Action>)
    requires Inv(env, s) && SignalInv(s) && s.signum != 0
    requires IsFinishingRun(env, s, acts) && Stuck(Exec(env, s, acts))
    ensures WaitForShutdown(Exec(env, s, acts)) == Some(s.signum) <==> CanReturn(env, s)
  {
    RunKeepsCanReturn(env, s, acts);
    StuckReturns(env, Exec(env, s, acts));
  }

  /** When all collected items fit, every reachable state in which nothing can step is one in which
      `waitForShutdown` returns. */
  lemma FittingRunsReturn(env: Env, s: State)
    requires Reachable(env, s) && Stuck(s)
    requires forall i :: 0 <= i < |s.collected| ==> Fits(env, s.collected[i])
    ensures WaitForShutdown(s) == Some(s.signum) && s.signum > 0
  {
    MaximalRunReturns(env, s);
    OverrunAtFirstTooLong(env, s);
  }
}
