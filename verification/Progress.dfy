/** What the threads can still reach: undefined behaviour exactly with an item that does not fit its buffer,
    and otherwise the sending of everything that was collected. */
module Progress {
  import opened Text
  import opened Offset
  import opened Message
  import opened PipelineSpec
  import opened PipelineMachine
  import opened PipelineSafety
  import opened PipelineTheorems
  import opened Shutdown
  import opened SoloRuns

  // ----- reachable states lead to reachable states -----

  lemma {:induction false} RunSnoc(env: Env, s: State, acts: seq<Action>, a: Action)
    requires IsRun(env, s, acts) && Enabled(Exec(env, s, acts), a)
    ensures IsRun(env, s, acts + [a])
    ensures Exec(env, s, acts + [a]) == Next(env, Exec(env, s, acts), a)
    decreases |acts|
  {
    if acts == [] {
      RunCons(env, s, a, [], acts + [a]);
    } else {
      RunSnoc(env, Next(env, s, acts[0]), acts[1..], a);
      RunCons(env, s, acts[0], acts[1..] + [a], acts + [a]);
    }
  }

  lemma ReachableStep(env: Env, s: State, a: Action, t: State)
    requires Reachable(env, s) && Enabled(s, a) && Next(env, s, a) == t
    ensures Reachable(env, t)
  {
    var now: int, acts :| now > 0 && IsRun(env, Init(now), acts) && s == Exec(env, Init(now), acts);
    RunSnoc(env, Init(now), acts, a);
  }

  lemma {:induction false} ReachableRepeat(env: Env, s: State, a: Action, n: nat, t: State)
    requires Reachable(env, s) && Leads(env, s, a, n, t)
    ensures Reachable(env, t)
    decreases n
  {
    if n > 0 {
      ReachableStep(env, s, a, Next(env, s, a));
      ReachableRepeat(env, Next(env, s, a), a, n - 1, t);
    }
  }

  // ----- overrun -----

  lemma {:induction false} AppendAll(env: Env, s: State, items: seq<Item>) returns (t: State)
    requires Reachable(env, s) && Defined(s) && s.collectOwner.ByAddon?
    requires forall i :: 0 <= i < |items| ==> ValidItem(items[i])
    ensures Reachable(env, t) && t == s.(collected := s.collected + items, collect := s.collect + items)
    decreases |items|
  {
    if items == [] {
      t := s;
      assert s.collected + items == s.collected && s.collect + items == s.collect;
    } else {
      var n := |items| - 1;
      var u := AppendAll(env, s, items[..n]);
      t := Next(env, u, AddonAppend(items[n]));
      ReachableStep(env, u, AddonAppend(items[n]), t);
      assert items == items[..n] + [items[n]];
      Regroup3(s.collected, items[..n], [items[n]]);
      Regroup3(s.collect, items[..n], [items[n]]);
    }
  }

  /** The format thread stands at its drain loop, nothing is locked, and the items wait. */
  ghost predicate ReadyToDrain(s: State, items: seq<Item>)
  {
    s.fpc.FInner? && s.collectOwner.Unlocked? && s.sdOwner.Unlocked? && s.collect == items
  }

  lemma CollectAll(env: Env, items: seq<Item>) returns (t: State)
    requires forall i :: 0 <= i < |items| ==> ValidItem(items[i])
    ensures Reachable(env, t) && ReadyToDrain(t, items) && t.collected == items
  {
    var s0 := Init(1);
    assert IsRun(env, s0, []) && Exec(env, s0, []) == s0;
    var s1 := s0.(collectOwner := ByAddon(0));
    ReachableStep(env, s0, AddonLock(0), s1);
    var s2 := AppendAll(env, s1, items);
    assert [] + items == items;
    var s3 := s2.(collectOwner := Unlocked);
    ReachableStep(env, s2, AddonUnlock, s3);
    t := s3.(fpc := FInner);
    ReachableStep(env, s3, FormatStep, t);
  }

  lemma FirstFits(env: Env, items: seq<Item>, n: nat)
    requires 0 < n <= |items| && AllFit(env, items[..n])
    ensures Fits(env, items[0]) && AllFit(env, items[1..][..n - 1])
  {
    var front := items[..n];
    AllFirst(FitsIn(env), front);
    assert front[0] == items[0] && items[1..][..n - 1] == front[1..];
  }

  lemma {:induction false} DrainFirst(env: Env, s: State, items: seq<Item>, n: nat) returns (t: State)
    requires Reachable(env, s) && ReadyToDrain(s, items) && n <= |items| && AllFit(env, items[..n])
    ensures Reachable(env, t) && ReadyToDrain(t, items[n..]) && t.collected == s.collected
    decreases n
  {
    if n == 0 {
      t := s;
      assert items[n..] == items;
    } else {
      FirstFits(env, items, n);
      var u := s.(collect := items[1..], sd := s.sd + [FormatItem(env.cfg, env.esc, items[0])]);
      var k := FormatTurnSteps(env, s, FormatItem(env.cfg, env.esc, items[0]));
      ReachableRepeat(env, s, FormatStep, k, u);
      t := DrainFirst(env, u, items[1..], n - 1);
      assert items[1..][n - 1..] == items[n..];
    }
  }

  lemma PrintUnfit(env: Env, s: State, items: seq<Item>) returns (t: State)
    requires Reachable(env, s) && ReadyToDrain(s, items) && items != [] && !Fits(env, items[0])
    ensures Reachable(env, t) && t.fpc.FOverrun? && t.collected == s.collected
  {
    var s1 := s.(fpc := FLockCollect);
    var s2 := s1.(fpc := FCheck, collectOwner := ByFormat);
    var s3 := s2.(fpc := FPrint(items[0]));
    t := s3.(fpc := FOverrun);
    ReachableStep(env, s, FormatStep, s1);
    ReachableStep(env, s1, FormatStep, s2);
    ReachableStep(env, s2, FormatStep, s3);
    ReachableStep(env, s3, FormatStep, t);
  }

  lemma UnfitOverruns(env: Env, items: seq<Item>) returns (t: State)
    requires forall i :: 0 <= i < |items| ==> ValidItem(items[i])
    requires !AllFit(env, items)
    ensures Reachable(env, t) && t.collected == items && t.fpc.FOverrun?
  {
    var n := PrefixWhile(FitsIn(env), items);
    PrefixWhileTake(FitsIn(env), items);
    PrefixWhileAll(FitsIn(env), items);
    var s := CollectAll(env, items);
    s := DrainFirst(env, s, items, n);
    t := PrintUnfit(env, s, items[n..]);
  }

  /** For every list of items: some interleaving that collects them ends in undefined behaviour if and only
      if one of them does not fit its buffer. */
  lemma OverrunIff(env: Env, items: seq<Item>)
    requires forall i :: 0 <= i < |items| ==> ValidItem(items[i])
    ensures (exists s :: Reachable(env, s) && s.collected == items && s.fpc.FOverrun?)
            <==> exists i :: 0 <= i < |items| && !Fits(env, items[i])
  {
    if !AllFit(env, items) {
      var s := UnfitOverruns(env, items);
    }
    forall s | Reachable(env, s) && s.collected == items && s.fpc.FOverrun?
      ensures exists i :: 0 <= i < |items| && !Fits(env, items[i])
    {
      OverrunAtFirstTooLong(env, s);
    }
  }

  // ----- everything can be sent -----

  ghost predicate Drained(s: State) { s.collect == [] && s.sd == [] }

  /** The measure of the shutdown, when the outer loops go round once more. */
  function DrainMeasure(s: State): int
  {
    Measure(s) + (if s.fpc.FOuter? || s.fpc.FSleep? then 3 else 0) + (if s.spc.SOuter? || s.spc.SSleep? then 18 else 0)
  }

  lemma FormatDrains(env: Env, s: State)
    requires FormatPeek(env, s) && FormatEnabled(s) && s.signum == 0 && s.collect != []
    requires s.fpc.FPrint? ==> Fits(env, s.collect[0])
    ensures DrainMeasure(FormatNext(env, s)) < DrainMeasure(s)
  {
  }

  lemma SenderDrains(env: Env, s: State, timeVal: string, arrived: bool)
    requires SenderPeek(s) && SenderEnabled(s) && s.signum == 0 && (s.sd != [] || SenderHoldsSD(s.spc))
    ensures DrainMeasure(SenderNext(env, s, timeVal, arrived)) < DrainMeasure(s)
  {
  }

  /** Which actor is to move, and why it can. */
  lemma DrainAction(env: Env, s: State) returns (a: Action)
    requires LockInv(s) && FormatPeek(env, s) && Defined(s) && !Drained(s) && !s.fpc.FExited? && !s.spc.SExited?
    ensures IsFinishing(a) && Enabled(s, a)
    ensures a.FormatStep? ==> s.collect != []
    ensures a.SenderStep? ==> s.sd != [] || SenderHoldsSD(s.spc)
  {
    if s.collect != [] {
      a := if FormatEnabled(s) then FormatStep else if s.fpc.FLockCollect? then AddonUnlock else SenderStep("", true);
    } else {
      a := SenderStep("", true);
    }
  }

  /** The item that is being printed is among those that wait. */
  lemma PrintedWaits(env: Env, s: State)
    requires FormatPeek(env, s) && WaitingFits(env, s)
    ensures Defined(s) && (s.fpc.FPrint? ==> Fits(env, s.collect[0]))
  {
    assert s.fpc.FPrint? || s.fpc.FOverrun? ==> Abs(s).waiting == s.collect;
  }

  lemma ReachableRunner(env: Env, s: State)
    requires Reachable(env, s) && s.signum == 0
    ensures LockInv(s) && FormatPeek(env, s) && SenderPeek(s) && !s.fpc.FExited? && !s.spc.SExited?
  {
    ReachableInv(env, s);
    ReachableExit(env, s);
  }

  /** A step towards the sending of everything. */
  lemma DrainStep(env: Env, s: State) returns (a: Action)
    requires Reachable(env, s) && s.signum == 0 && Defined(s) && WaitingFits(env, s) && !Drained(s)
    ensures IsFinishing(a) && Enabled(s, a)
    ensures var t := Next(env, s, a);
            && DrainMeasure(t) <= DrainMeasure(s)
            && (DrainMeasure(t) < DrainMeasure(s) || (s.collectOwner.ByAddon? && !t.collectOwner.ByAddon?))
  {
    ReachableRunner(env, s);
    a := DrainAction(env, s);
    if a.FormatStep? {
      PrintedWaits(env, s);
      FormatDrains(env, s);
    } else if a.SenderStep? {
      SenderDrains(env, s, a.timeVal, a.arrived);
    }
  }

  lemma FinishingKeepsWaiting(env: Env, s: State, a: Action)
    requires FormatPeek(env, s) && Enabled(s, a) && IsFinishing(a)
    ensures WaitingFits(env, Next(env, s, a)) <==> WaitingFits(env, s)
    ensures WaitingFits(env, s) ==> Defined(Next(env, s, a))
    ensures Next(env, s, a).collected == s.collected && Next(env, s, a).signum == s.signum
  {
    if a.FormatStep? {
      FormatKeepsWaiting(env, s);
      if WaitingFits(env, s) {
        PrintedWaits(env, s);
      }
    } else {
      assert Abs(Next(env, s, a)).waiting == Abs(s).waiting;
    }
  }

  lemma ReachableMeasure(env: Env, s: State)
    requires Reachable(env, s)
    ensures FormatPeek(env, s) && DrainMeasure(s) >= 0
  {
    ReachableInv(env, s);
    MeasureIsNat(env, s);
  }

  lemma {:induction false} RunsUntilDrained(env: Env, s: State) returns (acts: seq<Action>)
    requires Reachable(env, s) && s.signum == 0 && Defined(s) && WaitingFits(env, s)
    ensures IsFinishingRun(env, s, acts)
    ensures var t := Exec(env, s, acts); Reachable(env, t) && Drained(t) && t.collected == s.collected
    decreases DrainMeasure(s), s.collectOwner.ByAddon?
  {
    ReachableMeasure(env, s);
    if Drained(s) {
      acts := [];
    } else {
      var a := DrainStep(env, s);
      var t := Next(env, s, a);
      ReachableStep(env, s, a, t);
      ReachableMeasure(env, t);
      FinishingKeepsWaiting(env, s, a);
      var rest := RunsUntilDrained(env, t);
      acts := [a] + rest;
      RunCons(env, s, a, rest, acts);
    }
  }

  lemma {:induction false} RunKeepsWaiting(env: Env, s: State, acts: seq<Action>)
    requires Reachable(env, s) && IsFinishingRun(env, s, acts)
    ensures WaitingFits(env, Exec(env, s, acts)) <==> WaitingFits(env, s)
    decreases |acts|
  {
    if acts != [] {
      assert IsFinishing(acts[0]) && forall i :: 0 <= i < |acts[1..]| ==> acts[1..][i] == acts[i + 1];
      ReachableMeasure(env, s);
      FinishingKeepsWaiting(env, s, acts[0]);
      ReachableStep(env, s, acts[0], Next(env, s, acts[0]));
      RunKeepsWaiting(env, Next(env, s, acts[0]), acts[1..]);
    }
  }

  /** In a drained state every collected item was attempted once, in order. */
  lemma DrainedIsSent(env: Env, s: State)
    requires Reachable(env, s) && Drained(s)
    ensures DataOf(Elements(s.attempts)) == Images(env, s.collected)
  {
    Conservation(env, s);
    assert s.collected[..|s.collected|] == s.collected;
    assert Elements(s.attempts) + [] == Elements(s.attempts);
  }

  /** Does this run, with no further item collected, send exactly the images of all collected items? */
  ghost predicate SendsEverything(env: Env, s: State, acts: seq<Action>)
  {
    && IsFinishingRun(env, s, acts)
    && var t := Exec(env, s, acts);
       Drained(t) && t.collected == s.collected && DataOf(Elements(t.attempts)) == Images(env, s.collected)
  }

  /** Progress: while no signal was recorded, the threads alone, and the release of the mutex by an addon,
      can send everything that was collected, exactly if everything that waits fits its buffer. */
  lemma ProgressIff(env: Env, s: State)
    requires Reachable(env, s) && s.signum == 0
    ensures (exists acts :: SendsEverything(env, s, acts)) <==> WaitingFits(env, s)
  {
    ReachableMeasure(env, s);
    if WaitingFits(env, s) {
      PrintedWaits(env, s);
      var acts := RunsUntilDrained(env, s);
      DrainedIsSent(env, Exec(env, s, acts));
      assert SendsEverything(env, s, acts);
    }
    forall acts | SendsEverything(env, s, acts)
      ensures WaitingFits(env, s)
    {
      RunKeepsWaiting(env, s, acts);
    }
  }
}
