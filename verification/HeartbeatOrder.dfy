/** Which heartbeats are on the way: one for each poll that pushed one, with the time of that poll. */
module HeartbeatOrder {
  import opened PipelineSpec
  import opened PipelineMachine
  import opened PipelineSafety
  import opened PipelineTheorems

  /** The times of the polls that pushed a heartbeat. */
  function PollTimes(polls: seq<Poll>): seq<int>
  {
    if polls == [] then []
    else PollTimes(polls[..|polls| - 1]) + (if polls[|polls| - 1].beat then [polls[|polls| - 1].time] else [])
  }

  /** The time of a heartbeat that is in the queue while its poll is not finished. */
  function Unfinished(pc: SenderPc): seq<int>
  {
    match pc
    case SBeatUnlock(t, _) => [t]
    case SBeatStamp(t, _) => [t]
    case _ => []
  }

  ghost predicate BeatLaw(s: State)
  {
    BeatTimes(Pushed(Abs(s))) == Pollers(s)
  }

  lemma PollSnoc(polls: seq<Poll>, p: Poll)
    ensures PollTimes(polls + [p]) == PollTimes(polls) + (if p.beat then [p.time] else [])
  {
    assert (polls + [p])[..|polls|] == polls;
  }

  /** The times of all polls that pushed a heartbeat, finished or not. */
  function Pollers(s: State): seq<int> { PollTimes(s.polls) + Unfinished(s.spc) }

  lemma Recorded(s: State, p: Poll, t: State)
    requires t.polls == s.polls + [p] && t.spc == SInner
    requires Unfinished(s.spc) == if p.beat then [p.time] else []
    ensures Pollers(t) == Pollers(s)
  {
    PollSnoc(s.polls, p);
  }

  lemma SenderPolls(env: Env, s: State, timeVal: string, arrived: bool)
    requires SenderEnabled(s)
    ensures Pollers(SenderNext(env, s, timeVal, arrived))
         == Pollers(s) + (if s.spc.SBeatAppend? then [s.spc.t] else [])
  {
    var t := SenderNext(env, s, timeVal, arrived);
    assert Pollers(s) + [] == Pollers(s);
    match s.spc {
      case SPollDue(u, saw) =>
        if !BeatDue(s.tmpTime, u) { Recorded(s, Poll(u, saw, false, |s.attempts|), t); }
      case SPollBusy(u) => Recorded(s, Poll(u, true, false, |s.attempts|), t);
      case SBeatStamp(u, saw) => Recorded(s, Poll(u, saw, true, |s.attempts|), t);
      case SBeatAppend(u, _) => assert t.polls == s.polls && Unfinished(t.spc) == [u] && Unfinished(s.spc) == [];
      case _ =>
    }
  }

  /** What a step adds to them. */
  lemma StepPolls(env: Env, s: State, a: Action)
    requires Enabled(s, a)
    ensures Pollers(Next(env, s, a)) == Pollers(s) + (if a.SenderStep? && s.spc.SBeatAppend? then [s.spc.t] else [])
  {
    if a.SenderStep? {
      SenderPolls(env, s, a.timeVal, a.arrived);
    } else {
      assert Next(env, s, a).polls == s.polls && Next(env, s, a).spc == s.spc;
    }
  }

  /** What a step adds to the heartbeats that entered the second queue. */
  lemma StepBeats(env: Env, s: State, a: Action)
    requires Inv(env, s) && Enabled(s, a)
    ensures BeatTimes(Pushed(Abs(Next(env, s, a))))
         == BeatTimes(Pushed(Abs(s))) + (if a.SenderStep? && s.spc.SBeatAppend? then [s.spc.t] else [])
  {
    StepRefines(env, s, a);
    var ops := OpsOfStep(s, a);
    if ops != [] {
      assert ops == [ops[0]];
      OneOp(env, Abs(s), ops[0]);
      OpBeats(env, Abs(s), ops[0]);
    }
  }

  lemma StepKeepsBeats(env: Env, s: State, a: Action)
    requires Inv(env, s) && Enabled(s, a) && BeatLaw(s)
    ensures BeatLaw(Next(env, s, a))
  {
    StepPolls(env, s, a);
    StepBeats(env, s, a);
  }

  lemma {:induction false} RunKeepsBeats(env: Env, s: State, acts: seq<Action>)
    requires Inv(env, s) && BeatLaw(s) && IsRun(env, s, acts)
    ensures BeatLaw(Exec(env, s, acts))
    decreases |acts|
  {
    if acts != [] {
      StepKeepsInv(env, s, acts[0]);
      StepKeepsBeats(env, s, acts[0]);
      RunKeepsBeats(env, Next(env, s, acts[0]), acts[1..]);
    }
  }

  /** In every reachable state the heartbeats sent or queued carry, in order, the times of exactly the polls
      that pushed one, and of the one whose push is not finished. */
  lemma HeartbeatsArePolls(env: Env, s: State)
    requires Reachable(env, s)
    ensures BeatTimes(Elements(s.attempts) + Unsent(s)) == PollTimes(s.polls) + Unfinished(s.spc)
  {
    var now: int, acts :| now > 0 && IsRun(env, Init(now), acts) && s == Exec(env, Init(now), acts);
    InitInv(env, now);
    RunKeepsBeats(env, Init(now), acts);
  }
}
