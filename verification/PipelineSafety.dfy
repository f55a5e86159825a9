/** Safety of the interleaved machine: mutual exclusion, stable peeks, identifiers, and refinement of
    the atomic pipeline by forward simulation. */
module PipelineSafety {
  import opened Message
  import opened PipelineSpec
  import opened PipelineMachine

  // ----- locks -----

  predicate FormatHoldsCollect(pc: FormatPc)
  {
    || pc.FCheck? || pc.FPrint? || pc.FOverrun? || pc.FLockSD? || pc.FAppend? || pc.FUnlockSD? || pc.FUnlink?
    || pc.FUnlockCollect?
  }

  predicate FormatHoldsSD(pc: FormatPc) { pc.FAppend? || pc.FUnlockSD? }

  predicate SenderHoldsSD(pc: SenderPc)
  {
    pc.SBeatAppend? || pc.SBeatUnlock? || pc.SCheck? || pc.SSend? || pc.SUnlink? || pc.SUnlockSD?
  }

  ghost predicate LockInv(s: State)
  {
    && (s.collectOwner.ByFormat? <==> FormatHoldsCollect(s.fpc))
    && (s.sdOwner.ByFormat? <==> FormatHoldsSD(s.fpc))
    && (s.sdOwner.BySender? <==> SenderHoldsSD(s.spc))
    && !s.collectOwner.BySender? && !s.sdOwner.ByAddon?
  }

  lemma StepKeepsLocks(env: Env, s: State, a: Action)
    requires LockInv(s) && Enabled(s, a)
    ensures LockInv(Next(env, s, a))
  {
  }

  // ----- peeks -----

  /** The format thread relies on the collect head it saw. */
  ghost predicate FormatPeek(env: Env, s: State)
  {
    match s.fpc
    case FLockCollect => s.collect != []
    case FCheck => s.collect != []
    case FPrint(item) => s.collect != [] && item == s.collect[0]
    case FOverrun => s.collect != [] && !Fits(env, s.collect[0])
    case FLockSD(made) =>
      s.collect != [] && Fits(env, s.collect[0]) && made == FormatItem(env.cfg, env.esc, s.collect[0])
    case FAppend(made) =>
      s.collect != [] && Fits(env, s.collect[0]) && made == FormatItem(env.cfg, env.esc, s.collect[0])
    case FUnlockSD => s.collect != []
    case FUnlink => s.collect != []
    case _ => true
  }

  /** The sender relies on the element it saw. */
  ghost predicate SenderPeek(s: State)
  {
    match s.spc
    case SIncrement => s.sd != []
    case SLockSD => s.sd != []
    case SCheck => s.sd != []
    case SSend(e) => s.sd != [] && e == s.sd[0]
    case SUnlink => s.sd != []
    case _ => true
  }

  lemma StepKeepsFormatPeek(env: Env, s: State, a: Action)
    requires FormatPeek(env, s) && Enabled(s, a)
    ensures FormatPeek(env, Next(env, s, a))
  {
  }

  lemma StepKeepsSenderPeek(env: Env, s: State, a: Action)
    requires SenderPeek(s) && Enabled(s, a)
    ensures SenderPeek(Next(env, s, a))
  {
  }

  // ----- the first queue -----

  ghost predicate CollectInv(s: State)
  {
    |s.collect| <= |s.collected| && s.collected[|s.collected| - |s.collect|..] == s.collect
  }

  /** What a step does to the first queue and to the items collected so far. */
  ghost predicate CollectMoves(s: State, a: Action, t: State)
  {
    if a.AddonAppend? then t.collected == s.collected + [a.item] && t.collect == s.collect + [a.item]
    else t.collected == s.collected
         && t.collect == if a.FormatStep? && s.fpc.FUnlink? then Rest(s.collect) else s.collect
  }

  lemma CollectStep(env: Env, s: State, a: Action)
    requires Enabled(s, a)
    ensures CollectMoves(s, a, Next(env, s, a))
  {
  }

  lemma TailGrows<T>(all: seq<T>, tail: seq<T>, item: T)
    requires |tail| <= |all| && all[|all| - |tail|..] == tail
    ensures (all + [item])[|all + [item]| - |tail + [item]|..] == tail + [item]
  {
  }

  lemma TailShrinks<T>(all: seq<T>, tail: seq<T>)
    requires |tail| <= |all| && all[|all| - |tail|..] == tail
    ensures |Rest(tail)| <= |all| && all[|all| - |Rest(tail)|..] == Rest(tail)
  {
  }

  lemma MovesKeepCollect(s: State, a: Action, t: State)
    requires CollectInv(s) && CollectMoves(s, a, t)
    ensures CollectInv(t)
  {
    TailShrinks(s.collected, s.collect);
    if a.AddonAppend? {
      TailGrows(s.collected, s.collect, a.item);
    }
  }

  lemma StepKeepsCollect(env: Env, s: State, a: Action)
    requires CollectInv(s) && Enabled(s, a)
    ensures CollectInv(Next(env, s, a))
  {
    CollectStep(env, s, a);
    MovesKeepCollect(s, a, Next(env, s, a));
  }

  // ----- identifiers -----

  ghost predicate IdInv(s: State)
  {
    var n := |s.attempts|;
    if s.spc.SLockSD? || s.spc.SCheck? || s.spc.SSend? then s.msgID == IdOf(n)
    else if s.spc.SUnlink? || s.spc.SUnlockSD? || s.spc.SWrap? then n > 0 && s.msgID == IdOf(n - 1)
    else s.msgID == n % MAX_ID
  }

  lemma IdSuccessor(n: nat)
    requires n > 0
    ensures n % MAX_ID == if IdOf(n - 1) == 65535 then 0 else IdOf(n - 1)
  {
  }

  lemma StepKeepsIds(env: Env, s: State, a: Action)
    requires IdInv(s) && SenderPeek(s) && Enabled(s, a)
    ensures IdInv(Next(env, s, a))
  {
    if a.SenderStep? && s.spc.SWrap? {
      IdSuccessor(|s.attempts|);
    }
  }

  // ----- refinement -----

  /** The abstract queues: an item counts as transferred from the moment it is appended, an element as
      sent from the moment of the send. */
  ghost function Abs(s: State): Pipe
  {
    Pipe(s.collected,
         if s.fpc.FUnlockSD? || s.fpc.FUnlink? then Rest(s.collect) else s.collect,
         if s.spc.SUnlink? then Rest(s.sd) else s.sd,
         s.attempts)
  }

  /** The atomic operation that a step performs, if any. */
  ghost function OpsOfStep(s: State, a: Action): seq<Op>
  {
    match a
    case FormatStep => if s.fpc.FAppend? then [Transfer] else []
    case SenderStep(timeVal, arrived) =>
      if s.spc.SBeatAppend? then [Beat(s.spc.t)]
      else if s.spc.SSend? then [Send(timeVal, s.clock, arrived)]
      else []
    case AddonAppend(item) => [Collect(item)]
    case _ => []
  }

  ghost predicate Inv(env: Env, s: State)
  {
    LockInv(s) && FormatPeek(env, s) && SenderPeek(s) && CollectInv(s) && IdInv(s)
  }

  lemma InitInv(env: Env, now: int)
    ensures Inv(env, Init(now)) && Abs(Init(now)) == EMPTY_PIPE
  {
  }

  lemma StepKeepsInv(env: Env, s: State, a: Action)
    requires Inv(env, s) && Enabled(s, a)
    ensures Inv(env, Next(env, s, a))
  {
    StepKeepsLocks(env, s, a);
    StepKeepsFormatPeek(env, s, a);
    StepKeepsSenderPeek(env, s, a);
    StepKeepsCollect(env, s, a);
    StepKeepsIds(env, s, a);
  }

  lemma OneOp(env: Env, p: Pipe, op: Op)
    requires OpEnabled(env, p, op)
    ensures IsOpRun(env, p, [op]) && ExecOps(env, p, [op]) == ApplyOp(env, p, op)
  {
    assert [op][1..] == [];
    assert IsOpRun(env, ApplyOp(env, p, op), []);
  }

  lemma FormatStepRefines(env: Env, s: State)
    requires Inv(env, s) && FormatEnabled(s)
    ensures var ops := OpsOfStep(s, FormatStep);
            IsOpRun(env, Abs(s), ops) && ExecOps(env, Abs(s), ops) == Abs(FormatNext(env, s))
  {
    if s.fpc.FAppend? {
      OneOp(env, Abs(s), Transfer);
      assert s.sd != [] ==> Rest(s.sd + [s.fpc.made]) == Rest(s.sd) + [s.fpc.made];
    }
  }

  lemma SenderStepRefines(env: Env, s: State, timeVal: string, arrived: bool)
    requires Inv(env, s) && SenderEnabled(s) && IsTimeStamp(timeVal)
    ensures var ops := OpsOfStep(s, SenderStep(timeVal, arrived));
            IsOpRun(env, Abs(s), ops) && ExecOps(env, Abs(s), ops) == Abs(SenderNext(env, s, timeVal, arrived))
  {
    if s.spc.SBeatAppend? {
      OneOp(env, Abs(s), Beat(s.spc.t));
    } else if s.spc.SSend? {
      OneOp(env, Abs(s), Send(timeVal, s.clock, arrived));
    }
  }

  /** Forward simulation: every step is one atomic operation or leaves the abstract pipeline alone. */
  lemma StepRefines(env: Env, s: State, a: Action)
    requires Inv(env, s) && Enabled(s, a)
    ensures var ops := OpsOfStep(s, a);
            |ops| <= 1 && IsOpRun(env, Abs(s), ops) && ExecOps(env, Abs(s), ops) == Abs(Next(env, s, a))
  {
    match a {
      case FormatStep => FormatStepRefines(env, s);
      case SenderStep(timeVal, arrived) => SenderStepRefines(env, s, timeVal, arrived);
      case AddonAppend(item) => OneOp(env, Abs(s), Collect(item));
      case _ =>
    }
  }

  ghost function OpsOfRun(env: Env, s: State, acts: seq<Action>): seq<Op>
    requires IsRun(env, s, acts)
    decreases |acts|
  {
    if acts == [] then []
    else OpsOfStep(s, acts[0]) + OpsOfRun(env, Next(env, s, acts[0]), acts[1..])
  }

  /** Every interleaving behaves like a run of the atomic pipeline. */
  lemma {:induction false} RunRefines(env: Env, s: State, acts: seq<Action>)
    requires Inv(env, s) && IsRun(env, s, acts)
    ensures Inv(env, Exec(env, s, acts))
    ensures var ops := OpsOfRun(env, s, acts);
            IsOpRun(env, Abs(s), ops) && ExecOps(env, Abs(s), ops) == Abs(Exec(env, s, acts))
    decreases |acts|
  {
    if acts != [] {
      var t := Next(env, s, acts[0]);
      StepKeepsInv(env, s, acts[0]);
      StepRefines(env, s, acts[0]);
      RunRefines(env, t, acts[1..]);
      OpRunConcat(env, Abs(s), OpsOfStep(s, acts[0]), OpsOfRun(env, t, acts[1..]));
    }
  }
}
