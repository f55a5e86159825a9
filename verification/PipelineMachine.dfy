/** The threads as an interleaved machine: one step per lock, unlock, unlocked peek, test, append,
    unlink and send.  Addon threads, the clock and signal handlers are further actors. */
module PipelineMachine {
  import opened Offset
  import opened Message
  import opened PipelineSpec
  import Signals

  /** Seconds of silence after which a heartbeat is due. */
  const HEARTBEAT := 10

  datatype Owner = Unlocked | ByFormat | BySender | ByAddon(id: nat)

  /** Where the format thread stands: `format`, `popCollectQueue` and the push inside it. */
  datatype FormatPc =
    | FOuter                  // while (*signum == 0)
    | FInner                  // while (collectQueue->first != NULL), read without a lock
    | FLockCollect
    | FCheck                  // if (collectQueue->first != NULL)
    | FPrint(item: Item)      // into buffers of fixed size, without a check
    | FOverrun                // the text did not fit: undefined behaviour, nothing is claimed beyond
    | FLockSD(made: SDElement)
    | FAppend(made: SDElement)
    | FUnlockSD
    | FUnlink                 // collectQueue->first = popedElement->next
    | FUnlockCollect
    | FSleep
    | FExited

  /** Where the sender thread stands: `sender`, `heartBeat` with the push inside it, `popSDElementQueue`. */
  datatype SenderPc =
    | SOuter                  // while (*signum == 0)
    | SPollTime               // time(&collectTime)
    | SPollCheck(t: int)      // first == NULL || tmpTime == 0, read without a lock
    | SPollDue(t: int, saw: bool)
    | SPollBusy(t: int)
    | SBeatLock(t: int, saw: bool)
    | SBeatAppend(t: int, saw: bool)
    | SBeatUnlock(t: int, saw: bool)
    | SBeatStamp(t: int, saw: bool)
    | SInner                  // while (sdElementQueue->first != NULL), read without a lock
    | SIncrement
    | SLockSD
    | SCheck                  // if (sdElementQueue->first != NULL)
    | SSend(e: SDElement)
    | SUnlink                 // sdElementQueue->first = popedElement->next
    | SUnlockSD
    | SWrap                   // if (msgID == 65535) msgID = 0
    | SSleep
    | SExited

  /** One finished call of `heartBeat`: the time it read, whether it saw a non-empty queue, whether it
      pushed a heartbeat, and how many messages had been sent before. */
  datatype Poll = Poll(time: int, sawElements: bool, beat: bool, sentBefore: nat)

  datatype State = State(
    collect: seq<Item>, collectOwner: Owner,
    sd: seq<SDElement>, sdOwner: Owner,
    fpc: FormatPc, spc: SenderPc,
    msgID: nat, tmpTime: int, clock: int,
    signum: int, handlers: multiset<int>,     // handlers that passed their test and did not write yet
    collected: seq<Item>, attempts: seq<Attempt>, polls: seq<Poll>)

  ghost function Init(now: int): State
  {
    State([], Unlocked, [], Unlocked, FOuter, SOuter, 0, 0, now, 0, multiset{}, [], [], [])
  }

  datatype Action =
    | FormatStep
    | SenderStep(timeVal: string, arrived: bool)
    | AddonLock(id: nat)
    | AddonAppend(item: Item)
    | AddonUnlock
    | Tick(seconds: nat)
    | HandlerTest(signal: int)
    | HandlerSet(signal: int)

  /** Has no write left its buffer yet? */
  predicate Defined(s: State) { !s.fpc.FOverrun? }

  ghost predicate FormatEnabled(s: State)
  {
    match s.fpc
    case FOverrun => false
    case FLockCollect => s.collectOwner.Unlocked?
    case FLockSD(_) => s.sdOwner.Unlocked?
    case FExited => false
    case _ => true
  }

  ghost predicate SenderEnabled(s: State)
  {
    && Defined(s)
    && match s.spc
       case SLockSD => s.sdOwner.Unlocked?
       case SBeatLock(_, _) => s.sdOwner.Unlocked?
       case SExited => false
       case _ => true
  }

  ghost predicate Enabled(s: State, a: Action)
  {
    && Defined(s)
    && match a
       case FormatStep => FormatEnabled(s)
       case SenderStep(timeVal, _) => SenderEnabled(s) && IsTimeStamp(timeVal)
       case AddonLock(_) => s.collectOwner.Unlocked?
       case AddonAppend(item) => s.collectOwner.ByAddon? && ValidItem(item)
       case AddonUnlock => s.collectOwner.ByAddon?
       case Tick(_) => true
       case HandlerTest(signal) => signal > 0 && signal != Signals.SIGPIPE     // that one aborts before its test
       case HandlerSet(signal) => signal in s.handlers
  }

  function Rest<T>(q: seq<T>): seq<T> { if q == [] then [] else q[1..] }

  ghost function FormatNext(env: Env, s: State): State
  {
    match s.fpc
    case FOuter => s.(fpc := if s.signum == 0 then FInner else FExited)
    case FInner => s.(fpc := if s.collect != [] then FLockCollect else FSleep)
    case FLockCollect => s.(fpc := FCheck, collectOwner := ByFormat)
    case FCheck => s.(fpc := if s.collect != [] then FPrint(s.collect[0]) else FUnlockCollect)
    case FPrint(item) =>
      s.(fpc := if Fits(env, item) then FLockSD(FormatItem(env.cfg, env.esc, item)) else FOverrun)
    case FOverrun => s
    case FLockSD(made) => s.(fpc := FAppend(made), sdOwner := ByFormat)
    case FAppend(made) => s.(fpc := FUnlockSD, sd := s.sd + [made])
    case FUnlockSD => s.(fpc := FUnlink, sdOwner := Unlocked)
    case FUnlink => s.(fpc := FUnlockCollect, collect := Rest(s.collect))
    case FUnlockCollect => s.(fpc := FInner, collectOwner := Unlocked)
    case FSleep => s.(fpc := FOuter)
    case FExited => s
  }

  /** Is a heartbeat due, once the poll found the queue empty or has never run? */
  function BeatDue(tmpTime: int, t: int): bool { tmpTime == 0 || t - tmpTime > HEARTBEAT }

  ghost function SenderNext(env: Env, s: State, timeVal: string, arrived: bool): State
  {
    match s.spc
    case SOuter => s.(spc := if s.signum == 0 then SPollTime else SExited)
    case SPollTime => s.(spc := SPollCheck(s.clock))
    case SPollCheck(t) =>
      s.(spc := if s.sd == [] || s.tmpTime == 0 then SPollDue(t, s.sd != []) else SPollBusy(t))
    case SPollDue(t, saw) =>
      if BeatDue(s.tmpTime, t) then s.(spc := SBeatLock(t, saw))
      else s.(spc := SInner, polls := s.polls + [Poll(t, saw, false, |s.attempts|)])
    case SPollBusy(t) =>
      s.(spc := SInner, tmpTime := t, polls := s.polls + [Poll(t, true, false, |s.attempts|)])
    case SBeatLock(t, saw) => s.(spc := SBeatAppend(t, saw), sdOwner := BySender)
    case SBeatAppend(t, saw) => s.(spc := SBeatUnlock(t, saw), sd := s.sd + [Heartbeat(env.cfg, t)])
    case SBeatUnlock(t, saw) => s.(spc := SBeatStamp(t, saw), sdOwner := Unlocked)
    case SBeatStamp(t, saw) =>
      s.(spc := SInner, tmpTime := t, polls := s.polls + [Poll(t, saw, true, |s.attempts|)])
    case SInner => s.(spc := if s.sd != [] then SIncrement else SSleep)
    case SIncrement => s.(spc := SLockSD, msgID := (s.msgID + 1) % 65536)
    case SLockSD => s.(spc := SCheck, sdOwner := BySender)
    case SCheck => s.(spc := if s.sd != [] then SSend(s.sd[0]) else SUnlockSD)
    case SSend(e) =>
      s.(spc := SUnlink, attempts := s.attempts + [Attempt(s.msgID, e, timeVal, s.clock, arrived)])
    case SUnlink => s.(spc := SUnlockSD, sd := Rest(s.sd))
    case SUnlockSD => s.(spc := SWrap, sdOwner := Unlocked)
    case SWrap => s.(spc := SInner, msgID := if s.msgID == 65535 then 0 else s.msgID)
    case SSleep => s.(spc := SOuter)
    case SExited => s
  }

  ghost function Next(env: Env, s: State, a: Action): State
    requires Enabled(s, a)
  {
    match a
    case FormatStep => FormatNext(env, s)
    case SenderStep(timeVal, arrived) => SenderNext(env, s, timeVal, arrived)
    case AddonLock(id) => s.(collectOwner := ByAddon(id))
    case AddonAppend(item) => s.(collect := s.collect + [item], collected := s.collected + [item])
    case AddonUnlock => s.(collectOwner := Unlocked)
    case Tick(seconds) => s.(clock := s.clock + seconds)
    case HandlerTest(signal) =>
      if s.signum == 0 then s.(handlers := s.handlers + multiset{signal}) else s
    case HandlerSet(signal) => s.(signum := signal, handlers := s.handlers - multiset{signal})
  }

  // ----- runs -----

  ghost predicate IsRun(env: Env, s: State, acts: seq<Action>)
    decreases |acts|
  {
    acts == [] || (Enabled(s, acts[0]) && IsRun(env, Next(env, s, acts[0]), acts[1..]))
  }

  ghost function Exec(env: Env, s: State, acts: seq<Action>): State
    requires IsRun(env, s, acts)
    decreases |acts|
  {
    if acts == [] then s else Exec(env, Next(env, s, acts[0]), acts[1..])
  }

  lemma RunCons(env: Env, s: State, act: Action, acts: seq<Action>, whole: seq<Action>)
    requires Enabled(s, act) && IsRun(env, Next(env, s, act), acts) && whole == [act] + acts
    ensures IsRun(env, s, whole) && Exec(env, s, whole) == Exec(env, Next(env, s, act), acts)
  {
    assert whole[0] == act && whole[1..] == acts;
  }

  /** States that some interleaving reaches when the clock starts positive. */
  ghost predicate Reachable(env: Env, s: State)
  {
    exists now: int, acts :: now > 0 && IsRun(env, Init(now), acts) && s == Exec(env, Init(now), acts)
  }
}
