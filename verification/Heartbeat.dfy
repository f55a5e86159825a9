/** When heartbeats are pushed: the history of polls in every reachable state. */
module HeartbeatLaws {
  import opened PipelineSpec
  import opened PipelineMachine
  import opened PipelineSafety

  /** A poll that set `tmpTime`: it saw a non-empty queue or pushed a heartbeat. */
  predicate Active(p: Poll) { p.sawElements || p.beat }

  /** Time of the last active poll, 0 when there is none. */
  function LastActive(polls: seq<Poll>): int
  {
    if polls == [] then 0
    else if Active(polls[|polls| - 1]) then polls[|polls| - 1].time
    else LastActive(polls[..|polls| - 1])
  }

  /** Poll times are positive and do not decrease, and each poll decided from `tmpTime`. */
  predicate Decided(polls: seq<Poll>)
  {
    polls == [] ||
    var front, p := polls[..|polls| - 1], polls[|polls| - 1];
    && Decided(front)
    && p.time > 0
    && (front != [] ==> front[|front| - 1].time <= p.time)
    && (p.beat <==> front == [] || (!p.sawElements && p.time - LastActive(front) > HEARTBEAT))
  }

  lemma DecidedSnoc(polls: seq<Poll>, p: Poll)
    requires Decided(polls) && p.time > 0
    requires polls != [] ==> polls[|polls| - 1].time <= p.time
    requires p.beat <==> polls == [] || (!p.sawElements && p.time - LastActive(polls) > HEARTBEAT)
    ensures Decided(polls + [p])
    ensures LastActive(polls + [p]) == if Active(p) then p.time else LastActive(polls)
  {
    assert (polls + [p])[..|polls|] == polls;
  }

  lemma {:induction false} LastActiveSign(polls: seq<Poll>)
    requires Decided(polls)
    ensures polls == [] <==> LastActive(polls) == 0
    ensures LastActive(polls) >= 0
  {
    if polls != [] {
      LastActiveSign(polls[..|polls| - 1]);
    }
  }

  // ----- the invariant -----

  ghost predicate TimeInRange(s: State, t: int)
  {
    0 < t <= s.clock && (s.polls != [] ==> s.polls[|s.polls| - 1].time <= t)
  }

  ghost predicate PollPcInv(s: State)
  {
    match s.spc
    case SPollCheck(t) => TimeInRange(s, t)
    case SPollDue(t, saw) => TimeInRange(s, t) && (saw ==> s.tmpTime == 0)
    case SPollBusy(t) => TimeInRange(s, t) && s.tmpTime != 0
    case SBeatLock(t, saw) => TimeInRange(s, t) && BeatDue(s.tmpTime, t) && (saw ==> s.tmpTime == 0)
    case SBeatAppend(t, saw) => TimeInRange(s, t) && BeatDue(s.tmpTime, t) && (saw ==> s.tmpTime == 0)
    case SBeatUnlock(t, saw) => TimeInRange(s, t) && BeatDue(s.tmpTime, t) && (saw ==> s.tmpTime == 0)
    case SBeatStamp(t, saw) => TimeInRange(s, t) && BeatDue(s.tmpTime, t) && (saw ==> s.tmpTime == 0)
    case _ => true
  }

  ghost predicate PollInv(s: State)
  {
    && s.clock > 0
    && Decided(s.polls)
    && s.tmpTime == LastActive(s.polls)
    && (s.polls != [] ==> s.polls[|s.polls| - 1].time <= s.clock)
    && PollPcInv(s)
  }

  /** Recording a poll keeps the invariant when its decision follows the rule. */
  lemma RecordKeepsPolls(s: State, p: Poll, next: State)
    requires PollInv(s) && TimeInRange(s, p.time)
    requires p.beat <==> s.polls == [] || (!p.sawElements && p.time - LastActive(s.polls) > HEARTBEAT)
    requires next.polls == s.polls + [p] && next.tmpTime == (if Active(p) then p.time else s.tmpTime)
    requires next.clock == s.clock && next.spc == SInner
    ensures PollInv(next)
  {
    DecidedSnoc(s.polls, p);
  }

  lemma SenderKeepsPolls(env: Env, s: State, timeVal: string, arrived: bool)
    requires PollInv(s) && SenderEnabled(s)
    ensures PollInv(SenderNext(env, s, timeVal, arrived))
  {
    LastActiveSign(s.polls);
    var next := SenderNext(env, s, timeVal, arrived);
    match s.spc {
      case SPollDue(t, saw) =>
        if !BeatDue(s.tmpTime, t) { RecordKeepsPolls(s, Poll(t, saw, false, |s.attempts|), next); }
      case SPollBusy(t) => RecordKeepsPolls(s, Poll(t, true, false, |s.attempts|), next);
      case SBeatStamp(t, saw) => RecordKeepsPolls(s, Poll(t, saw, true, |s.attempts|), next);
      case _ =>
    }
  }

  lemma StepKeepsPolls(env: Env, s: State, a: Action)
    requires PollInv(s) && Enabled(s, a)
    ensures PollInv(Next(env, s, a))
  {
    match a {
      case SenderStep(timeVal, arrived) => SenderKeepsPolls(env, s, timeVal, arrived);
      case _ =>
    }
  }

  /** Each active poll is followed by a send before the next poll: consecutive records show it. */
  predicate SentBetween(polls: seq<Poll>)
  {
    forall i :: 0 <= i < |polls| - 1 && Active(polls[i]) ==> polls[i].sentBefore < polls[i + 1].sentBefore
  }

  /** Did the last poll call for nothing, or was something sent since? */
  predicate Answered(polls: seq<Poll>, sent: nat)
  {
    polls != [] && Active(polls[|polls| - 1]) ==> polls[|polls| - 1].sentBefore < sent
  }

  ghost predicate RoundInv(s: State)
  {
    && SentBetween(s.polls)
    && match s.spc
       case SPollDue(_, saw) => Answered(s.polls, |s.attempts|) && (saw ==> s.sd != [])
       case SPollBusy(_) => Answered(s.polls, |s.attempts|) && s.sd != []
       case SBeatLock(_, saw) => Answered(s.polls, |s.attempts|) && (saw ==> s.sd != [])
       case SBeatAppend(_, saw) => Answered(s.polls, |s.attempts|) && (saw ==> s.sd != [])
       case SBeatUnlock(_, _) => Answered(s.polls, |s.attempts|) && s.sd != []
       case SBeatStamp(_, _) => Answered(s.polls, |s.attempts|) && s.sd != []
       case SInner => Answered(s.polls, |s.attempts|) || (s.sd != [] && Answered(s.polls, |s.attempts| + 1))
       case SIncrement => Answered(s.polls, |s.attempts| + 1)
       case SLockSD => Answered(s.polls, |s.attempts| + 1)
       case SCheck => Answered(s.polls, |s.attempts| + 1)
       case SSend(_) => Answered(s.polls, |s.attempts| + 1)
       case _ => Answered(s.polls, |s.attempts|)
  }

  lemma StepKeepsRound(env: Env, s: State, a: Action)
    requires RoundInv(s) && SenderPeek(s) && Enabled(s, a)
    ensures RoundInv(Next(env, s, a))
  {
  }

  lemma {:induction false} RunKeepsPolls(env: Env, s: State, acts: seq<Action>)
    requires PollInv(s) && RoundInv(s) && SenderPeek(s) && IsRun(env, s, acts)
    ensures PollInv(Exec(env, s, acts)) && RoundInv(Exec(env, s, acts))
    decreases |acts|
  {
    if acts != [] {
      StepKeepsPolls(env, s, acts[0]);
      StepKeepsRound(env, s, acts[0]);
      StepKeepsSenderPeek(env, s, acts[0]);
      RunKeepsPolls(env, Next(env, s, acts[0]), acts[1..]);
    }
  }

  lemma ReachablePolls(env: Env, s: State)
    requires Reachable(env, s)
    ensures PollInv(s) && RoundInv(s)
  {
    var now: int, acts :| now > 0 && IsRun(env, Init(now), acts) && s == Exec(env, Init(now), acts);
    RunKeepsPolls(env, Init(now), acts);
  }

  // ----- laws of the history -----

  lemma {:induction false} DecidedPrefix(polls: seq<Poll>, j: nat)
    requires Decided(polls) && j <= |polls|
    ensures Decided(polls[..j])
  {
    if j == |polls| {
      assert polls[..j] == polls;
    } else {
      DecidedPrefix(polls[..|polls| - 1], j);
      assert polls[..|polls| - 1][..j] == polls[..j];
    }
  }

  lemma {:induction false} TimesAscend(polls: seq<Poll>, i: nat, j: nat)
    requires Decided(polls) && i <= j < |polls|
    ensures 0 < polls[i].time <= polls[j].time
  {
    DecidedPrefix(polls, j + 1);
    var p := polls[..j + 1];
    assert p[..|p| - 1] == polls[..j];
    if i < j {
      TimesAscend(polls, i, j - 1);
      assert polls[..j][j - 1] == polls[j - 1];
    }
  }

  /** The last active poll before position j, of which there is one as soon as there was a poll. */
  lemma {:induction false} LastActiveIndex(polls: seq<Poll>, j: nat) returns (u: nat)
    requires Decided(polls) && 0 < j <= |polls|
    ensures u < j && Active(polls[u]) && LastActive(polls[..j]) == polls[u].time
    ensures forall i :: u < i < j ==> !Active(polls[i])
  {
    DecidedPrefix(polls, j);
    assert polls[..j][..j - 1] == polls[..j - 1];
    if Active(polls[j - 1]) {
      u := j - 1;
    } else {
      u := LastActiveIndex(polls, j - 1);
    }
  }

  /** Exactly when a poll pushes a heartbeat: it is the first one, or it saw an empty queue and every
      earlier poll that saw elements or pushed a heartbeat is more than ten seconds old. */
  lemma HeartbeatIff(env: Env, s: State, j: nat)
    requires Reachable(env, s) && j < |s.polls|
    ensures s.polls[j].beat <==>
      j == 0 || (!s.polls[j].sawElements
                 && forall i :: 0 <= i < j && Active(s.polls[i]) ==> s.polls[j].time - s.polls[i].time > 10)
  {
    ReachablePolls(env, s);
    var polls := s.polls;
    DecidedPrefix(polls, j + 1);
    assert polls[..j + 1][..j] == polls[..j];
    if j > 0 {
      var u := LastActiveIndex(polls, j);
      forall i | 0 <= i < j && Active(polls[i])
        ensures polls[i].time <= polls[u].time
      {
        TimesAscend(polls, i, u);
      }
    }
  }

  /** Any two heartbeats are more than ten seconds apart. */
  lemma HeartbeatSpacing(env: Env, s: State, i: nat, j: nat)
    requires Reachable(env, s) && i < j < |s.polls| && s.polls[i].beat && s.polls[j].beat
    ensures s.polls[j].time - s.polls[i].time > 10
  {
    HeartbeatIff(env, s, j);
  }

  /** Between the last update of `tmpTime` and a later heartbeat, every poll saw an empty queue. */
  lemma QuietBeforeHeartbeat(env: Env, s: State, j: nat) returns (u: nat)
    requires Reachable(env, s) && 0 < j < |s.polls| && s.polls[j].beat
    ensures u < j && Active(s.polls[u]) && s.polls[j].time - s.polls[u].time > 10
    ensures forall i :: u < i <= j ==> !s.polls[i].sawElements
  {
    ReachablePolls(env, s);
    u := LastActiveIndex(s.polls, j);
    HeartbeatIff(env, s, j);
  }

  /** Bounded silence: with polls at most d seconds apart, consecutive active polls are at most 10 + d
      seconds apart, and so is the last poll of the history from the last active one. */
  lemma BoundedSilence(env: Env, s: State, d: nat, u: nat, v: nat)
    requires Reachable(env, s) && u < v < |s.polls| && Active(s.polls[u])
    requires forall i :: u < i < v ==> !Active(s.polls[i])
    requires forall i :: 0 <= i < |s.polls| - 1 ==> s.polls[i + 1].time - s.polls[i].time <= d
    ensures s.polls[v].time - s.polls[u].time <= 10 + d
    ensures !Active(s.polls[v]) ==> s.polls[v].time - s.polls[u].time <= 10
  {
    ReachablePolls(env, s);
    QuietPoll(env, s, u, v - 1);
    QuietPoll(env, s, u, v);
    assert s.polls[(v - 1) + 1].time - s.polls[v - 1].time <= d;
  }

  /** A poll that stays inactive after the active poll u, with only inactive ones between, is within ten
      seconds of it. */
  lemma QuietPoll(env: Env, s: State, u: nat, k: nat)
    requires Reachable(env, s) && u <= k < |s.polls| && Active(s.polls[u])
    requires forall i :: u < i < k ==> !Active(s.polls[i])
    ensures k == u || !Active(s.polls[k]) ==> s.polls[k].time - s.polls[u].time <= 10
  {
    if k > u && !Active(s.polls[k]) {
      HeartbeatIff(env, s, k);
      ReachablePolls(env, s);
      var i :| 0 <= i < k && Active(s.polls[i]) && s.polls[k].time - s.polls[i].time <= 10;
      TimesAscend(s.polls, i, u);
    }
  }

  /** Every poll that saw elements or pushed a heartbeat is followed by a send attempt before the next
      poll, and before the sender sleeps or exits. */
  lemma ActivePollSends(env: Env, s: State, i: nat)
    requires Reachable(env, s) && i < |s.polls| && Active(s.polls[i])
    ensures i + 1 < |s.polls| ==> s.polls[i].sentBefore < s.polls[i + 1].sentBefore
    ensures i + 1 == |s.polls| && (s.spc.SSleep? || s.spc.SOuter? || s.spc.SExited?)
            ==> s.polls[i].sentBefore < |s.attempts|
  {
    ReachablePolls(env, s);
  }
}
