/** What one thread does when the others pause: the steps of the interleaved machine add up to the
    operations that the heap methods perform. */
module SoloRuns {
  import opened Message
  import opened PipelineSpec
  import opened PipelineMachine
  import opened PipelineSafety

  ghost predicate CanRepeat(env: Env, s: State, a: Action, n: nat)
    decreases n
  {
    n == 0 || (Enabled(s, a) && CanRepeat(env, Next(env, s, a), a, n - 1))
  }

  /** The same actor n times in a row. */
  ghost function Repeat(env: Env, s: State, a: Action, n: nat): State
    requires CanRepeat(env, s, a, n)
    decreases n
  {
    if n == 0 then s else Repeat(env, Next(env, s, a), a, n - 1)
  }

  /** A step of the sender, in a state where no write left its buffer. */
  predicate IsSenderStep(s: State, a: Action) { Defined(s) && a.SenderStep? && IsTimeStamp(a.timeVal) }

  /** Do `n` steps of the actor lead from `s` to `t`? */
  ghost predicate Leads(env: Env, s: State, a: Action, n: nat, t: State)
  {
    CanRepeat(env, s, a, n) && Repeat(env, s, a, n) == t
  }

  lemma Arrived(env: Env, s: State, a: Action) returns (n: nat)
    ensures Leads(env, s, a, n, s)
  {
    n := 0;
  }

  lemma StepFirst(env: Env, s: State, a: Action, u: State, n: nat, t: State) returns (m: nat)
    requires Enabled(s, a) && Next(env, s, a) == u && Leads(env, u, a, n, t)
    ensures Leads(env, s, a, m, t)
  {
    m := n + 1;
  }

  /** Such a run is one of the runs of the interleaved machine. */
  lemma {:induction false} RepeatIsRun(env: Env, s: State, a: Action, n: nat)
    requires CanRepeat(env, s, a, n)
    ensures var acts := seq(n, _ => a);
            IsRun(env, s, acts) && Exec(env, s, acts) == Repeat(env, s, a, n)
    decreases n
  {
    var acts := seq(n, _ => a);
    if n > 0 {
      RepeatIsRun(env, Next(env, s, a), a, n - 1);
      assert acts[1..] == seq(n - 1, _ => a);
    }
  }

  // Each of the following lemmas puts a few steps in front of a run that is known already.

  /** Lock, append and unlock: the push inside the format thread. */
  lemma FormatPushes(env: Env, s: State, n: nat, t: State) returns (m: nat)
    requires s.fpc.FLockSD? && s.sdOwner.Unlocked?
    requires Leads(env, s.(fpc := FUnlink, sd := s.sd + [s.fpc.made]), FormatStep, n, t)
    ensures Leads(env, s, FormatStep, m, t)
  {
    var s1 := s.(fpc := FAppend(s.fpc.made), sdOwner := ByFormat);
    var s2 := s1.(fpc := FUnlockSD, sd := s.sd + [s.fpc.made]);
    var s3 := s2.(fpc := FUnlink, sdOwner := Unlocked);
    m := StepFirst(env, s2, FormatStep, s3, n, t);
    m := StepFirst(env, s1, FormatStep, s2, m, t);
    m := StepFirst(env, s, FormatStep, s1, m, t);
  }

  lemma FormatUnlinks(env: Env, s: State) returns (m: nat)
    requires s.fpc.FUnlink? && s.collect != []
    ensures Leads(env, s, FormatStep, m, s.(fpc := FInner, collect := s.collect[1..], collectOwner := Unlocked))
  {
    var s1 := s.(fpc := FUnlockCollect, collect := s.collect[1..]);
    var s2 := s1.(fpc := FInner, collectOwner := Unlocked);
    m := Arrived(env, s2, FormatStep);
    m := StepFirst(env, s1, FormatStep, s2, m, s2);
    m := StepFirst(env, s, FormatStep, s1, m, s2);
  }

  lemma FormatPrints(env: Env, s: State, n: nat, t: State) returns (m: nat)
    requires s.fpc.FCheck? && s.collect != [] && Fits(env, s.collect[0])
    requires Leads(env, s.(fpc := FLockSD(FormatItem(env.cfg, env.esc, s.collect[0]))), FormatStep, n, t)
    ensures Leads(env, s, FormatStep, m, t)
  {
    var s1 := s.(fpc := FPrint(s.collect[0]));
    m := StepFirst(env, s1, FormatStep, s1.(fpc := FLockSD(FormatItem(env.cfg, env.esc, s.collect[0]))), n, t);
    m := StepFirst(env, s, FormatStep, s1, m, t);
  }

  lemma FormatLocks(env: Env, s: State, n: nat, t: State) returns (m: nat)
    requires s.fpc.FInner? && s.collect != [] && s.collectOwner.Unlocked?
    requires Leads(env, s.(fpc := FCheck, collectOwner := ByFormat), FormatStep, n, t)
    ensures Leads(env, s, FormatStep, m, t)
  {
    var s1 := s.(fpc := FLockCollect);
    m := StepFirst(env, s1, FormatStep, s1.(fpc := FCheck, collectOwner := ByFormat), n, t);
    m := StepFirst(env, s, FormatStep, s1, m, t);
  }

  /** The steps of an undisturbed turn of the format thread. */
  lemma FormatTurnSteps(env: Env, s: State, made: SDElement) returns (n: nat)
    requires s.fpc.FInner? && s.collect != [] && s.collectOwner.Unlocked? && s.sdOwner.Unlocked?
    requires Fits(env, s.collect[0])
    requires made == FormatItem(env.cfg, env.esc, s.collect[0])
    ensures Leads(env, s, FormatStep, n, s.(collect := s.collect[1..], sd := s.sd + [made]))
  {
    var t := s.(collect := s.collect[1..], sd := s.sd + [made]);
    var locked := s.(fpc := FCheck, collectOwner := ByFormat);
    n := FormatUnlinks(env, locked.(fpc := FUnlink, sd := s.sd + [made]));
    n := FormatPushes(env, locked.(fpc := FLockSD(made)), n, t);
    n := FormatPrints(env, locked, n, t);
    n := FormatLocks(env, s, n, t);
  }

  /** An undisturbed `popCollectQueue` of the machine is one transfer. */
  lemma FormatTurnIsTransfer(env: Env, s: State) returns (n: nat)
    requires LockInv(s) && s.fpc.FInner? && s.collect != [] && s.collectOwner.Unlocked? && s.sdOwner.Unlocked?
    requires Fits(env, s.collect[0])
    ensures CanRepeat(env, s, FormatStep, n)
    ensures var t := Repeat(env, s, FormatStep, n);
            && t.fpc.FInner? && t.collectOwner.Unlocked? && t.sdOwner.Unlocked?
            && Abs(t) == TransferHead(env, Abs(s))
  {
    n := FormatTurnSteps(env, s, FormatItem(env.cfg, env.esc, s.collect[0]));
    assert !s.spc.SUnlink?;
  }

  lemma SenderUnlocks(env: Env, s: State, a: Action) returns (m: nat)
    requires s.spc.SUnlockSD? && IsSenderStep(s, a)
    ensures Leads(env, s, a, m,
      s.(spc := SInner, sdOwner := Unlocked, msgID := if s.msgID == 65535 then 0 else s.msgID))
  {
    var s1 := s.(spc := SWrap, sdOwner := Unlocked);
    var s2 := s1.(spc := SInner, msgID := if s.msgID == 65535 then 0 else s.msgID);
    m := Arrived(env, s2, a);
    m := StepFirst(env, s1, a, s2, m, s2);
    m := StepFirst(env, s, a, s1, m, s2);
  }

  lemma SenderSends(env: Env, s: State, a: Action, x: Attempt, n: nat, t: State) returns (m: nat)
    requires s.spc.SSend? && s.sd != [] && s.spc.e == s.sd[0] && IsSenderStep(s, a)
    requires x == Attempt(s.msgID, s.sd[0], a.timeVal, s.clock, a.arrived)
    requires Leads(env, s.(spc := SUnlockSD, sd := s.sd[1..], attempts := s.attempts + [x]), a, n, t)
    ensures Leads(env, s, a, m, t)
  {
    var s1 := s.(spc := SUnlink, attempts := s.attempts + [x]);
    m := StepFirst(env, s1, a, s1.(spc := SUnlockSD, sd := s.sd[1..]), n, t);
    m := StepFirst(env, s, a, s1, m, t);
  }

  lemma SenderLocks(env: Env, s: State, a: Action, n: nat, t: State) returns (m: nat)
    requires s.spc.SLockSD? && s.sd != [] && s.sdOwner.Unlocked? && IsSenderStep(s, a)
    requires Leads(env, s.(spc := SSend(s.sd[0]), sdOwner := BySender), a, n, t)
    ensures Leads(env, s, a, m, t)
  {
    var s1 := s.(spc := SCheck, sdOwner := BySender);
    m := StepFirst(env, s1, a, s1.(spc := SSend(s.sd[0])), n, t);
    m := StepFirst(env, s, a, s1, m, t);
  }

  lemma SenderCounts(env: Env, s: State, a: Action, id: nat, n: nat, t: State) returns (m: nat)
    requires s.spc.SInner? && s.sd != [] && id == (s.msgID + 1) % 65536 && IsSenderStep(s, a)
    requires Leads(env, s.(spc := SLockSD, msgID := id), a, n, t)
    ensures Leads(env, s, a, m, t)
  {
    var s1 := s.(spc := SIncrement);
    m := StepFirst(env, s1, a, s1.(spc := SLockSD, msgID := id), n, t);
    m := StepFirst(env, s, a, s1, m, t);
  }

  /** The state after an undisturbed turn with identifier `id`. */
  ghost function AfterTurn(s: State, a: Action, id: nat): State
    requires s.sd != [] && a.SenderStep?
  {
    s.(sd := s.sd[1..], msgID := if id == 65535 then 0 else id,
       attempts := s.attempts + [Attempt(id, s.sd[0], a.timeVal, s.clock, a.arrived)])
  }

  /** The steps of such a turn. */
  lemma SenderTurnSteps(env: Env, s: State, a: Action, id: nat) returns (n: nat)
    requires s.spc.SInner? && s.sd != [] && s.sdOwner.Unlocked? && id == (s.msgID + 1) % 65536
    requires IsSenderStep(s, a)
    ensures Leads(env, s, a, n, AfterTurn(s, a, id))
  {
    var x := Attempt(id, s.sd[0], a.timeVal, s.clock, a.arrived);
    var t := AfterTurn(s, a, id);
    var s1 := s.(spc := SLockSD, msgID := id);
    var s2 := s1.(spc := SSend(s.sd[0]), sdOwner := BySender);
    n := SenderUnlocks(env, s2.(spc := SUnlockSD, sd := s.sd[1..], attempts := s.attempts + [x]), a);
    n := SenderSends(env, s2, a, x, n, t);
    n := SenderLocks(env, s1, a, n, t);
    n := SenderCounts(env, s, a, id, n, t);
  }

  lemma CountsUp(s: State, k: nat)
    requires s.msgID == k % MAX_ID
    ensures (s.msgID + 1) % 65536 == IdOf(k)
  {
  }

  lemma TurnSends(s: State, a: Action, k: nat)
    requires s.spc.SInner? && s.sd != [] && a.SenderStep? && k == |s.attempts|
    ensures Abs(AfterTurn(s, a, IdOf(k))) == SendHead(Abs(s), a.timeVal, s.clock, a.arrived)
    ensures IdInv(AfterTurn(s, a, IdOf(k)))
  {
    IdSuccessor(k + 1);
  }

  /** An undisturbed turn of the machine's sender is one send. */
  lemma SenderTurnIsSend(env: Env, s: State, a: Action) returns (n: nat)
    requires IdInv(s) && s.spc.SInner? && s.sd != [] && s.sdOwner.Unlocked?
    requires IsSenderStep(s, a)
    ensures CanRepeat(env, s, a, n)
    ensures var t := Repeat(env, s, a, n);
            && t.spc.SInner? && t.sdOwner.Unlocked? && t.collectOwner == s.collectOwner && IdInv(t)
            && Abs(t) == SendHead(Abs(s), a.timeVal, s.clock, a.arrived)
  {
    var k := |s.attempts|;
    CountsUp(s, k);
    n := SenderTurnSteps(env, s, a, IdOf(k));
    TurnSends(s, a, k);
  }

  /** Does a poll that starts now push a heartbeat, if nothing intervenes? */
  ghost predicate PollBeats(s: State)
  {
    BeatDue(s.tmpTime, s.clock) && (s.sd == [] || s.tmpTime == 0)
  }

  lemma BeatPushes(env: Env, s: State, a: Action, t: int, saw: bool) returns (m: nat)
    requires s.spc == SBeatLock(t, saw) && s.sdOwner.Unlocked? && IsSenderStep(s, a)
    ensures Leads(env, s, a, m,
      s.(spc := SInner, sd := s.sd + [Heartbeat(env.cfg, t)], tmpTime := t,
         polls := s.polls + [Poll(t, saw, true, |s.attempts|)]))
  {
    var s1 := s.(spc := SBeatAppend(t, saw), sdOwner := BySender);
    var s2 := s1.(spc := SBeatUnlock(t, saw), sd := s.sd + [Heartbeat(env.cfg, t)]);
    var s3 := s2.(spc := SBeatStamp(t, saw), sdOwner := Unlocked);
    var s4 := s3.(spc := SInner, tmpTime := t, polls := s.polls + [Poll(t, saw, true, |s.attempts|)]);
    m := Arrived(env, s4, a);
    m := StepFirst(env, s3, a, s4, m, s4);
    m := StepFirst(env, s2, a, s3, m, s4);
    m := StepFirst(env, s1, a, s2, m, s4);
    m := StepFirst(env, s, a, s1, m, s4);
  }

  /** The steps of a poll that pushes a heartbeat. */
  lemma BeatSteps(env: Env, s: State, a: Action) returns (n: nat)
    requires s.spc.SPollTime? && s.sdOwner.Unlocked? && IsSenderStep(s, a) && PollBeats(s)
    ensures Leads(env, s, a, n,
      s.(spc := SInner, sd := s.sd + [Heartbeat(env.cfg, s.clock)], tmpTime := s.clock,
         polls := s.polls + [Poll(s.clock, s.sd != [], true, |s.attempts|)]))
  {
    var t, saw := s.clock, s.sd != [];
    var s1 := s.(spc := SPollCheck(t));
    var s2 := s1.(spc := SPollDue(t, saw));
    var s3 := s2.(spc := SBeatLock(t, saw));
    var s7 := s.(spc := SInner, sd := s.sd + [Heartbeat(env.cfg, t)], tmpTime := t,
                 polls := s.polls + [Poll(t, saw, true, |s.attempts|)]);
    n := BeatPushes(env, s3, a, t, saw);
    n := StepFirst(env, s2, a, s3, n, s7);
    n := StepFirst(env, s1, a, s2, n, s7);
    n := StepFirst(env, s, a, s1, n, s7);
  }

  /** The three steps of a poll that pushes none. */
  lemma NoBeatSteps(env: Env, s: State, a: Action) returns (n: nat)
    requires s.spc.SPollTime? && IsSenderStep(s, a) && !PollBeats(s)
    ensures Leads(env, s, a, n,
      s.(spc := SInner, tmpTime := if s.sd != [] then s.clock else s.tmpTime,
         polls := s.polls + [Poll(s.clock, s.sd != [], false, |s.attempts|)]))
  {
    var t, saw := s.clock, s.sd != [];
    var s1 := s.(spc := SPollCheck(t));
    var s2 := s1.(spc := if saw then SPollBusy(t) else SPollDue(t, saw));
    var s3 := s2.(spc := SInner, tmpTime := if saw then t else s.tmpTime,
                  polls := s.polls + [Poll(t, saw, false, |s.attempts|)]);
    n := Arrived(env, s3, a);
    n := StepFirst(env, s2, a, s3, n, s3);
    n := StepFirst(env, s1, a, s2, n, s3);
    n := StepFirst(env, s, a, s1, n, s3);
  }

  /** An undisturbed poll of the machine decides, pushes and remembers exactly as `heartBeat` does. */
  lemma PollIsHeartbeat(env: Env, s: State, a: Action) returns (n: nat)
    requires s.spc.SPollTime? && s.sdOwner.Unlocked? && IsSenderStep(s, a)
    ensures CanRepeat(env, s, a, n)
    ensures var t := Repeat(env, s, a, n);
            && t.spc.SInner? && t.sdOwner.Unlocked?
            && Abs(t) == (if PollBeats(s) then PushHeartbeat(env, Abs(s), s.clock) else Abs(s))
            && t.tmpTime == (if PollBeats(s) || s.sd != [] then s.clock else s.tmpTime)
  {
    if PollBeats(s) {
      n := BeatSteps(env, s, a);
    } else {
      n := NoBeatSteps(env, s, a);
    }
  }
}
