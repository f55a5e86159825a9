/** How long the probe can be silent on the network: the times of send attempts between the polls. */
module Silence {
  import opened Text
  import opened PipelineSpec
  import opened PipelineMachine
  import opened HeartbeatLaws

  // ----- attempts between polls -----

  /** Attempts made before `t`. */
  predicate SentBy(sent: seq<Attempt>, t: int) { forall k :: 0 <= k < |sent| ==> sent[k].now <= t }

  /** The attempts recorded before a poll are not later than it, the others not earlier. */
  predicate PollBetween(sent: seq<Attempt>, p: Poll)
  {
    && p.sentBefore <= |sent|
    && (forall k :: 0 <= k < p.sentBefore ==> sent[k].now <= p.time)
    && (forall k :: p.sentBefore <= k < |sent| ==> p.time <= sent[k].now)
  }

  predicate Ascending(sent: seq<Attempt>) { forall k, l :: 0 <= k < l < |sent| ==> sent[k].now <= sent[l].now }

  /** Rounds follow one another, and nothing is sent before the first poll. */
  predicate Rounds(sent: seq<Attempt>, polls: seq<Poll>)
  {
    && (forall i :: 0 <= i < |polls| ==> PollBetween(sent, polls[i]))
    && (forall i, j :: 0 <= i < j < |polls| ==> polls[i].sentBefore <= polls[j].sentBefore)
    && (if polls == [] then sent == [] else polls[0].sentBefore == 0)
  }

  /** The time of the poll that is under way. */
  function PollTime(pc: SenderPc): Option<int>
  {
    match pc
    case SPollCheck(t) => Some(t)
    case SPollDue(t, _) => Some(t)
    case SPollBusy(t) => Some(t)
    case SBeatLock(t, _) => Some(t)
    case SBeatAppend(t, _) => Some(t)
    case SBeatUnlock(t, _) => Some(t)
    case SBeatStamp(t, _) => Some(t)
    case _ => None
  }

  ghost predicate TimeInv(s: State)
  {
    && Rounds(s.attempts, s.polls) && Ascending(s.attempts)
    && SentBy(s.attempts, s.clock) && (forall i :: 0 <= i < |s.polls| ==> s.polls[i].time <= s.clock)
    && (PollTime(s.spc).Some? ==> SentBy(s.attempts, PollTime(s.spc).value) && PollTime(s.spc).value <= s.clock)
    && (s.polls == [] ==> s.spc.SOuter? || s.spc.SPollTime? || s.spc.SExited? || PollTime(s.spc).Some?)
  }

  lemma SendKeepsRounds(sent: seq<Attempt>, polls: seq<Poll>, a: Attempt)
    requires Rounds(sent, polls) && polls != [] && forall i :: 0 <= i < |polls| ==> polls[i].time <= a.now
    ensures Rounds(sent + [a], polls)
  {
    forall i | 0 <= i < |polls|
      ensures PollBetween(sent + [a], polls[i])
    {
      assert PollBetween(sent, polls[i]);
    }
  }

  lemma PollKeepsRounds(sent: seq<Attempt>, polls: seq<Poll>, p: Poll)
    requires Rounds(sent, polls) && SentBy(sent, p.time) && p.sentBefore == |sent|
    ensures Rounds(sent, polls + [p])
  {
    assert PollBetween(sent, p);
    forall i | 0 <= i < |polls|
      ensures polls[i].sentBefore <= p.sentBefore
    {
      assert PollBetween(sent, polls[i]);
    }
  }

  lemma RecordKeepsTime(s: State, p: Poll, next: State)
    requires TimeInv(s) && PollTime(s.spc) == Some(p.time) && p.sentBefore == |s.attempts|
    requires next.polls == s.polls + [p] && next.attempts == s.attempts && next.clock == s.clock && next.spc == SInner
    ensures TimeInv(next)
  {
    PollKeepsRounds(s.attempts, s.polls, p);
  }

  lemma SendKeepsTime(s: State, a: Attempt, next: State)
    requires TimeInv(s) && s.spc.SSend? && a.now == s.clock
    requires next.polls == s.polls && next.attempts == s.attempts + [a] && next.clock == s.clock && next.spc == SUnlink
    ensures TimeInv(next)
  {
    SendKeepsRounds(s.attempts, s.polls, a);
  }

  lemma SenderKeepsTime(env: Env, s: State, timeVal: string, arrived: bool)
    requires TimeInv(s) && SenderEnabled(s)
    ensures TimeInv(SenderNext(env, s, timeVal, arrived))
  {
    var next := SenderNext(env, s, timeVal, arrived);
    match s.spc {
      case SSend(e) => SendKeepsTime(s, Attempt(s.msgID, e, timeVal, s.clock, arrived), next);
      case SPollDue(t, saw) =>
        if !BeatDue(s.tmpTime, t) { RecordKeepsTime(s, Poll(t, saw, false, |s.attempts|), next); }
      case SPollBusy(t) => RecordKeepsTime(s, Poll(t, true, false, |s.attempts|), next);
      case SBeatStamp(t, saw) => RecordKeepsTime(s, Poll(t, saw, true, |s.attempts|), next);
      case _ => assert next.polls == s.polls && next.attempts == s.attempts && next.clock == s.clock;
    }
  }

  lemma StepKeepsTime(env: Env, s: State, a: Action)
    requires TimeInv(s) && Enabled(s, a)
    ensures TimeInv(Next(env, s, a))
  {
    match a {
      case SenderStep(timeVal, arrived) => SenderKeepsTime(env, s, timeVal, arrived);
      case _ =>
        var t := Next(env, s, a);
        assert t.polls == s.polls && t.attempts == s.attempts && t.spc == s.spc && t.clock >= s.clock;
    }
  }

  lemma {:induction false} RunKeepsTime(env: Env, s: State, acts: seq<Action>)
    requires TimeInv(s) && IsRun(env, s, acts)
    ensures TimeInv(Exec(env, s, acts))
    decreases |acts|
  {
    if acts != [] {
      StepKeepsTime(env, s, acts[0]);
      RunKeepsTime(env, Next(env, s, acts[0]), acts[1..]);
    }
  }

  lemma ReachableTime(env: Env, s: State)
    requires Reachable(env, s)
    ensures TimeInv(s)
  {
    var now: int, acts :| now > 0 && IsRun(env, Init(now), acts) && s == Exec(env, Init(now), acts);
    RunKeepsTime(env, Init(now), acts);
  }

  // ----- rounds -----

  /** The round in which the k-th attempt was made: the last poll recorded before it. */
  function RoundOf(polls: seq<Poll>, k: nat): (i: nat)
    requires polls != [] && polls[0].sentBefore == 0
    ensures i < |polls| && polls[i].sentBefore <= k
    ensures i + 1 < |polls| && (forall i, j :: 0 <= i < j < |polls| ==> polls[i].sentBefore <= polls[j].sentBefore)
            ==> forall j :: i < j < |polls| ==> k < polls[j].sentBefore
  {
    if |polls| == 1 || polls[|polls| - 1].sentBefore <= k then |polls| - 1 else RoundOf(polls[..|polls| - 1], k)
  }

  /** Polls are at most d seconds apart, and the last one is at most d seconds ago. */
  predicate Paced(s: State, d: nat)
  {
    && (forall i :: 0 <= i < |s.polls| - 1 ==> s.polls[i + 1].time - s.polls[i].time <= d)
    && (s.polls != [] ==> s.clock - s.polls[|s.polls| - 1].time <= d)
  }

  /** An attempt is made at most d seconds after the poll of its round. */
  lemma AttemptInRound(env: Env, s: State, d: nat, k: nat)
    requires Reachable(env, s) && Paced(s, d) && k < |s.attempts|
    ensures s.polls != [] && s.polls[0].sentBefore == 0
    ensures var p := s.polls[RoundOf(s.polls, k)]; p.time <= s.attempts[k].now <= p.time + d
  {
    ReachableTime(env, s);
    var i := RoundOf(s.polls, k);
    assert PollBetween(s.attempts, s.polls[i]);
    if i + 1 < |s.polls| {
      assert PollBetween(s.attempts, s.polls[i + 1]);
    }
  }

  /** Between the rounds of two consecutive attempts nothing called for a message. */
  lemma QuietRounds(env: Env, s: State, k: nat, x: nat)
    requires Reachable(env, s) && k + 1 < |s.attempts| && s.polls != [] && s.polls[0].sentBefore == 0
    requires RoundOf(s.polls, k) < x < RoundOf(s.polls, k + 1)
    ensures !Active(s.polls[x])
  {
    ReachableTime(env, s);
    ReachablePolls(env, s);
    var j := RoundOf(s.polls, k + 1);
    assert s.polls[x].sentBefore <= s.polls[x + 1].sentBefore <= s.polls[j].sentBefore by {
      assert x + 1 == j || x + 1 < j;
    }
  }

  /** After ten quiet seconds a poll would have pushed a heartbeat. */
  lemma LastQuietPoll(env: Env, s: State, i: nat, j: nat)
    requires Reachable(env, s) && i < j < |s.polls| && forall x :: i < x < j ==> !Active(s.polls[x])
    ensures s.polls[j - 1].time - s.polls[i].time <= 10
  {
    if i < j - 1 {
      ReachablePolls(env, s);
      var u := LastActiveIndex(s.polls, j);
      QuietPoll(env, s, u, j - 1);
      TimesAscend(s.polls, u, i);
    }
  }

  lemma RoundsInOrder(env: Env, s: State, k: nat)
    requires Reachable(env, s) && k + 1 < |s.attempts| && s.polls != [] && s.polls[0].sentBefore == 0
    ensures RoundOf(s.polls, k) <= RoundOf(s.polls, k + 1) && s.attempts[k].now <= s.attempts[k + 1].now
  {
    ReachableTime(env, s);
  }

  /** The poll before the round of the next attempt is at most ten seconds after that of this one's round. */
  lemma PollsBetween(env: Env, s: State, k: nat)
    requires Reachable(env, s) && k + 1 < |s.attempts| && s.polls != [] && s.polls[0].sentBefore == 0
    ensures var i, j := RoundOf(s.polls, k), RoundOf(s.polls, k + 1);
            i < j ==> s.polls[j - 1].time - s.polls[i].time <= 10
  {
    var i, j := RoundOf(s.polls, k), RoundOf(s.polls, k + 1);
    if i < j {
      forall x | i < x < j
        ensures !Active(s.polls[x])
      {
        QuietRounds(env, s, k, x);
      }
      LastQuietPoll(env, s, i, j);
    }
  }

  /** Bounded silence on the network: with polls at most d seconds apart, consecutive send attempts are at
      most 10 + 2d seconds apart. */
  lemma BoundedSilenceOnWire(env: Env, s: State, d: nat, k: nat)
    requires Reachable(env, s) && Paced(s, d) && k + 1 < |s.attempts|
    ensures 0 <= s.attempts[k + 1].now - s.attempts[k].now <= 10 + 2 * d
  {
    AttemptInRound(env, s, d, k);
    AttemptInRound(env, s, d, k + 1);
    RoundsInOrder(env, s, k);
    PollsBetween(env, s, k);
    var i, j := RoundOf(s.polls, k), RoundOf(s.polls, k + 1);
    if i < j {
      assert s.polls[(j - 1) + 1].time - s.polls[j - 1].time <= d;
    }
  }
}
