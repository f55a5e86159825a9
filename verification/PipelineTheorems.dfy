/** What holds in every reachable state of the interleaved machine. */
module PipelineTheorems {
  import opened Text
  import opened Offset
  import opened Message
  import opened PipelineSpec
  import opened PipelineMachine
  import opened PipelineSafety

  lemma ReachableInv(env: Env, s: State)
    requires Reachable(env, s)
    ensures Inv(env, s) && FlowInv(env, Abs(s))
  {
    var now: int, acts :| now > 0 && IsRun(env, Init(now), acts) && s == Exec(env, Init(now), acts);
    InitInv(env, now);
    RunRefines(env, Init(now), acts);
    EmptyFlow(env);
    OpRunKeepsFlow(env, EMPTY_PIPE, OpsOfRun(env, Init(now), acts));
  }

  // ----- conservation -----

  /** Elements of the second queue that were not handed to the network; the head counts as handed over
      between its send and its unlinking. */
  function Unsent(s: State): seq<SDElement> { if s.spc.SUnlink? then Rest(s.sd) else s.sd }

  /** The image of the head of the first queue while it stands in both queues. */
  ghost function InBoth(env: Env, s: State): seq<SDElement>
  {
    if (s.fpc.FUnlockSD? || s.fpc.FUnlink?) && s.collect != [] then
      [FormatItem(env.cfg, env.esc, s.collect[0])]
    else []
  }

  lemma {:induction false} ImagesSnoc(env: Env, items: seq<Item>, item: Item)
    ensures Images(env, items + [item]) == Images(env, items) + [FormatItem(env.cfg, env.esc, item)]
  {
    assert (items + [item])[..|items|] == items;
  }

  lemma ReachableOrder(env: Env, s: State)
    requires Reachable(env, s)
    ensures OrderLaw(env, Abs(s)) && CollectInv(s) && FormatPeek(env, s)
  {
    ReachableInv(env, s);
  }

  lemma CutOff<T>(whole: seq<T>, tail: seq<T>, front: seq<T>)
    requires |tail| <= |whole| && whole[|whole| - |tail|..] == tail && front == whole[..|whole| - |tail|]
    ensures whole == front + tail
    ensures tail != [] ==> whole[..|whole| - |tail[1..]|] == front + [tail[0]]
  {
  }

  lemma RemovedAre(env: Env, s: State, removed: seq<Item>)
    requires CollectInv(s) && FormatPeek(env, s) && removed == s.collected[..|s.collected| - |s.collect|]
    ensures s.collected == removed + s.collect && |Abs(s).waiting| <= |s.collected|
    ensures Images(env, Removed(Abs(s))) == Images(env, removed) + InBoth(env, s)
  {
    CutOff(s.collected, s.collect, removed);
    if s.fpc.FUnlockSD? || s.fpc.FUnlink? {
      RemovedInWindow(env, s, removed);
    } else {
      RemovedAtRest(env, s, removed);
    }
  }

  lemma RemovedAtRest(env: Env, s: State, removed: seq<Item>)
    requires !s.fpc.FUnlockSD? && !s.fpc.FUnlink? && |s.collect| <= |s.collected|
    requires removed == s.collected[..|s.collected| - |s.collect|]
    ensures Images(env, Removed(Abs(s))) == Images(env, removed) + InBoth(env, s)
  {
    assert Removed(Abs(s)) == removed && InBoth(env, s) == [];
  }

  lemma RemovedInWindow(env: Env, s: State, removed: seq<Item>)
    requires (s.fpc.FUnlockSD? || s.fpc.FUnlink?) && s.collect != [] && |s.collect| <= |s.collected|
    requires s.collected[..|s.collected| - |s.collect[1..]|] == removed + [s.collect[0]]
    ensures Images(env, Removed(Abs(s))) == Images(env, removed) + InBoth(env, s)
  {
    ImagesSnoc(env, removed, s.collect[0]);
  }

  /** Conservation: nothing is lost, duplicated or reordered up to the single send attempt. */
  lemma Conservation(env: Env, s: State)
    requires Reachable(env, s)
    ensures |s.collect| <= |s.collected|
    ensures var removed := s.collected[..|s.collected| - |s.collect|];
            && s.collected == removed + s.collect
            && DataOf(Elements(s.attempts) + Unsent(s)) == Images(env, removed) + InBoth(env, s)
  {
    ReachableOrder(env, s);
    RemovedAre(env, s, s.collected[..|s.collected| - |s.collect|]);
  }

  /** Both halves of conservation when the format thread is not between append and unlink. */
  lemma ConservationAtRest(env: Env, s: State)
    requires Reachable(env, s) && !s.fpc.FUnlockSD? && !s.fpc.FUnlink?
    ensures |s.collect| <= |s.collected|
    ensures DataOf(Elements(s.attempts) + Unsent(s)) == Images(env, s.collected[..|s.collected| - |s.collect|])
  {
    Conservation(env, s);
  }

  // ----- identifiers -----

  /** The k-th attempt carries identifier (k mod 65535) + 1, whatever the interleaving; the 16-bit
      counter is never incremented past 65535. */
  lemma Identifiers(env: Env, s: State)
    requires Reachable(env, s)
    ensures forall k :: 0 <= k < |s.attempts| ==> s.attempts[k].id == k % 65535 + 1
    ensures s.spc.SIncrement? ==> s.msgID < 65535
  {
    ReachableIds(env, s);
  }

  lemma ReachableIds(env: Env, s: State)
    requires Reachable(env, s)
    ensures IdInv(s) && IdLaw(Abs(s)) && SenderPeek(s)
  {
    ReachableInv(env, s);
  }

  /** Among 65535 consecutive attempts no identifier occurs twice; at distance 65535 it recurs. */
  lemma IdentifiersRecur(env: Env, s: State, i: nat, j: nat)
    requires Reachable(env, s) && i < j < |s.attempts|
    ensures s.attempts[i].id == s.attempts[j].id <==> (j - i) % 65535 == 0
  {
    Identifiers(env, s);
    IdsCycle(i, j);
  }

  // ----- peeks -----

  lemma OnlyConsumersRemove(env: Env, s: State, a: Action)
    requires Enabled(s, a)
    ensures !a.FormatStep? ==> s.collect <= Next(env, s, a).collect
    ensures !a.SenderStep? ==> s.sd <= Next(env, s, a).sd
  {
  }

  /** A queue seen by its consumer only grows at the end until the consumer moves again. */
  lemma {:induction false} PeekIsStable(env: Env, s: State, acts: seq<Action>)
    requires IsRun(env, s, acts)
    ensures (forall i :: 0 <= i < |acts| ==> !acts[i].FormatStep?) ==> s.collect <= Exec(env, s, acts).collect
    ensures (forall i :: 0 <= i < |acts| ==> !acts[i].SenderStep?) ==> s.sd <= Exec(env, s, acts).sd
    decreases |acts|
  {
    if acts != [] {
      OnlyConsumersRemove(env, s, acts[0]);
      PeekIsStable(env, Next(env, s, acts[0]), acts[1..]);
      assert forall i :: 0 <= i < |acts[1..]| ==> acts[1..][i] == acts[i + 1];
    }
  }

  /** The test under the lock never fails after the unlocked one succeeded, so an identifier is spent
      on every element and on nothing else. */
  lemma LockedTestsSucceed(env: Env, s: State)
    requires Reachable(env, s)
    ensures s.fpc.FCheck? ==> s.collect != []
    ensures s.spc.SCheck? ==> s.sd != [] && s.msgID == IdOf(|s.attempts|)
    ensures s.spc.SWrap? ==> s.attempts != [] && s.msgID == s.attempts[|s.attempts| - 1].id
  {
    ReachableIds(env, s);
    ReachableOrder(env, s);
  }

  // ----- locks -----

  lemma ReachableLocks(env: Env, s: State)
    requires Reachable(env, s)
    ensures LockInv(s)
  {
    ReachableInv(env, s);
  }

  /** Critical sections exclude one another. */
  lemma MutualExclusion(env: Env, s: State)
    requires Reachable(env, s)
    ensures !(FormatHoldsSD(s.fpc) && SenderHoldsSD(s.spc))
    ensures s.collectOwner.ByAddon? ==> !FormatHoldsCollect(s.fpc)
  {
    ReachableLocks(env, s);
  }

  /** The collect mutex is never acquired by the holder of the other one. */
  lemma LockOrder(env: Env, s: State, a: Action)
    requires Reachable(env, s) && Enabled(s, a)
    requires s.collectOwner.Unlocked? && !Next(env, s, a).collectOwner.Unlocked?
    ensures Next(env, s, a).collectOwner != s.sdOwner
    ensures Next(env, s, a).collectOwner.ByFormat? || Next(env, s, a).collectOwner.ByAddon?
  {
    ReachableLocks(env, s);
  }

  /** A blocked thread waits for an actor that can step: nobody waits in a circle. */
  lemma BlockedWaitsForRunner(env: Env, s: State)
    requires Reachable(env, s)
    ensures !FormatEnabled(s) && !s.fpc.FExited? && !s.fpc.FOverrun? ==>
      (s.fpc.FLockCollect? && Enabled(s, AddonUnlock)) || (s.fpc.FLockSD? && SenderEnabled(s))
    ensures !SenderEnabled(s) && !s.spc.SExited? && !s.fpc.FOverrun? ==> FormatEnabled(s)
  {
    ReachableLocks(env, s);
  }

  /** Deadlock freedom: the machine is stuck, addons that hold the mutex included, only when both
      threads have exited or a write left its buffer. */
  lemma DeadlockFreedom(env: Env, s: State)
    requires Reachable(env, s)
    ensures (!FormatEnabled(s) && !SenderEnabled(s) && !Enabled(s, AddonUnlock))
            <==> s.fpc.FOverrun? || (s.fpc.FExited? && s.spc.SExited? && s.collectOwner.Unlocked?)
  {
    ReachableLocks(env, s);
  }

  // ----- the unchecked buffer -----

  /** The print step overruns its buffer at the first collected item that does not fit, and at no other. */
  lemma OverrunAtFirstTooLong(env: Env, s: State)
    requires Reachable(env, s)
    ensures |s.collect| <= |s.collected|
    ensures var n := |s.collected| - |s.collect|;
            && AllFit(env, s.collected[..n])
            && (s.fpc.FOverrun? || s.fpc.FPrint? ==> n < |s.collected|)
            && (s.fpc.FOverrun? ==> !Fits(env, s.collected[n]))
            && (s.fpc.FPrint? ==> (Next(env, s, FormatStep).fpc.FOverrun? <==> !Fits(env, s.collected[n])))
  {
    ReachableFit(env, s);
    var n := |s.collected| - |s.collect|;
    AllTake(FitsIn(env), s.collected, |Removed(Abs(s))|, n);
    assert s.collect != [] ==> s.collected[n] == s.collected[n..][0];
  }

  lemma ReachableFit(env: Env, s: State)
    requires Reachable(env, s)
    ensures FitLaw(env, Abs(s)) && CollectInv(s) && FormatPeek(env, s)
  {
    ReachableInv(env, s);
  }
}
