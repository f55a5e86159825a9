/** The pipeline as a machine of four atomic operations.  It is the common specification of the
    interleaved threads and of the heap implementation. */
module PipelineSpec {
  import opened Text
  import opened UriEscape
  import opened Offset
  import opened Message

  /** What does not change during a run. */
  datatype Env = Env(cfg: Config, esc: Escaper)

  ghost predicate ValidEnv(env: Env) { MeetsContract(env.esc) }

  /** Does the text of the item fit the buffer in which it is printed?  The code does not check it. */
  ghost predicate Fits(env: Env, item: Item) { FitsBuffer(env.esc, item) }

  ghost function FitsIn(env: Env): Item -> bool { item => Fits(env, item) }

  ghost predicate AllFit(env: Env, items: seq<Item>) { All(FitsIn(env), items) }

  /** One call of `sendMessage`: its identifier and element, the time stamp and time it read, and whether
      its message arrives.  The result of the call, which may differ, is ignored by the caller and not kept. */
  datatype Attempt = Attempt(id: nat, element: SDElement, timeVal: string, now: int, arrived: bool)

  /** The line assembled by an attempt; the emitted text is `Emitted` of it. */
  function LineOf(a: Attempt): string { FullLine(a.timeVal, a.element, a.id, a.now) }

  /** A printed time of day has neither blank nor line feed. */
  predicate IsTimeStamp(s: string) { Free(s, ' ') && Free(s, '\n') }

  datatype Pipe = Pipe(collected: seq<Item>, waiting: seq<Item>, queued: seq<SDElement>, sent: seq<Attempt>)

  datatype Op =
    | Collect(item: Item)
    | Transfer
    | Beat(time: int)
    | Send(timeVal: string, now: int, arrived: bool)

  /** Identifiers count from 1 to 65535 and start again. */
  const MAX_ID := 65535

  function IdOf(k: nat): nat { k % MAX_ID + 1 }

  ghost predicate OpEnabled(env: Env, p: Pipe, op: Op)
  {
    match op
    case Collect(item) => ValidItem(item)
    case Transfer => p.waiting != [] && Fits(env, p.waiting[0])
    case Beat(_) => true
    case Send(timeVal, _, _) => p.queued != [] && IsTimeStamp(timeVal)
  }

  function CollectItem(p: Pipe, item: Item): Pipe
  {
    p.(collected := p.collected + [item], waiting := p.waiting + [item])
  }

  function TransferHead(env: Env, p: Pipe): Pipe
    requires p.waiting != []
  {
    p.(waiting := p.waiting[1..], queued := p.queued + [FormatItem(env.cfg, env.esc, p.waiting[0])])
  }

  function PushHeartbeat(env: Env, p: Pipe, time: int): Pipe
  {
    p.(queued := p.queued + [Heartbeat(env.cfg, time)])
  }

  function SendHead(p: Pipe, timeVal: string, now: int, arrived: bool): Pipe
    requires p.queued != []
  {
    p.(queued := p.queued[1..],
       sent := p.sent + [Attempt(IdOf(|p.sent|), p.queued[0], timeVal, now, arrived)])
  }

  ghost function ApplyOp(env: Env, p: Pipe, op: Op): Pipe
    requires OpEnabled(env, p, op)
  {
    match op
    case Collect(item) => CollectItem(p, item)
    case Transfer => TransferHead(env, p)
    case Beat(time) => PushHeartbeat(env, p, time)
    case Send(timeVal, now, arrived) => SendHead(p, timeVal, now, arrived)
  }

  const EMPTY_PIPE := Pipe([], [], [], [])

  // ----- what the operations keep -----

  /** The data elements of a sequence, heartbeats dropped. */
  function DataOf(es: seq<SDElement>): seq<SDElement>
  {
    if es == [] then []
    else DataOf(es[..|es| - 1]) + (if IsData(es[|es| - 1]) then [es[|es| - 1]] else [])
  }

  /** The times of the heartbeats of a sequence. */
  function BeatTimes(es: seq<SDElement>): seq<int>
  {
    if es == [] then []
    else BeatTimes(es[..|es| - 1]) + (if IsData(es[|es| - 1]) then [] else [es[|es| - 1].time])
  }

  function Elements(sent: seq<Attempt>): (es: seq<SDElement>)
    ensures |es| == |sent|
  {
    if sent == [] then [] else Elements(sent[..|sent| - 1]) + [sent[|sent| - 1].element]
  }

  function Images(env: Env, items: seq<Item>): (es: seq<SDElement>)
    ensures |es| == |items|
  {
    if items == [] then []
    else Images(env, items[..|items| - 1]) + [FormatItem(env.cfg, env.esc, items[|items| - 1])]
  }

  lemma {:induction false} ImageAt(env: Env, items: seq<Item>, i: nat)
    requires i < |items|
    ensures Images(env, items)[i] == FormatItem(env.cfg, env.esc, items[i])
  {
    if i < |items| - 1 {
      ImageAt(env, items[..|items| - 1], i);
    }
  }

  /** Everything that ever entered the second queue, oldest first. */
  function Pushed(p: Pipe): seq<SDElement> { Elements(p.sent) + p.queued }

  /** Items that left the first queue. */
  function Removed(p: Pipe): seq<Item>
    requires |p.waiting| <= |p.collected|
  {
    p.collected[..|p.collected| - |p.waiting|]
  }

  /** An element is a heartbeat or the image of an item, with this probe's header. */
  ghost predicate Genuine(env: Env, e: SDElement)
  {
    e == Heartbeat(env.cfg, e.time)
    || exists item :: ValidItem(item) && Fits(env, item) && e == FormatItem(env.cfg, env.esc, item)
  }

  /** The first queue holds the collected items that were not removed, and the data elements that
      entered the second queue are the images of the removed ones, in order. */
  ghost predicate OrderLaw(env: Env, p: Pipe)
  {
    && |p.waiting| <= |p.collected|
    && p.collected == Removed(p) + p.waiting
    && DataOf(Pushed(p)) == Images(env, Removed(p))
  }

  /** Every removed item fitted the buffer. */
  ghost predicate FitLaw(env: Env, p: Pipe)
  {
    |p.waiting| <= |p.collected| && AllFit(env, Removed(p))
  }

  ghost predicate GenuineLaw(env: Env, p: Pipe)
  {
    && (forall i :: 0 <= i < |p.collected| ==> ValidItem(p.collected[i]))
    && (forall i :: 0 <= i < |Pushed(p)| ==> Genuine(env, Pushed(p)[i]))
  }

  ghost predicate IdLaw(p: Pipe)
  {
    forall k :: 0 <= k < |p.sent| ==> p.sent[k].id == IdOf(k) && IsTimeStamp(p.sent[k].timeVal)
  }

  ghost predicate FlowInv(env: Env, p: Pipe)
  {
    OrderLaw(env, p) && FitLaw(env, p) && GenuineLaw(env, p) && IdLaw(p)
  }

  lemma DataSnoc(es: seq<SDElement>, e: SDElement)
    ensures DataOf(es + [e]) == DataOf(es) + (if IsData(e) then [e] else [])
  {
    assert (es + [e])[..|es|] == es;
  }

  lemma BeatSnoc(es: seq<SDElement>, e: SDElement)
    ensures BeatTimes(es + [e]) == BeatTimes(es) + (if IsData(e) then [] else [e.time])
  {
    assert (es + [e])[..|es|] == es;
  }

  lemma ElementsSnoc(sent: seq<Attempt>, a: Attempt)
    ensures Elements(sent + [a]) == Elements(sent) + [a.element]
  {
    assert (sent + [a])[..|sent|] == sent;
  }

  lemma {:induction false} ElementAt(sent: seq<Attempt>, k: nat)
    requires k < |sent|
    ensures Elements(sent)[k] == sent[k].element
  {
    if k < |sent| - 1 {
      ElementAt(sent[..|sent| - 1], k);
    }
  }

  lemma {:induction false} DataOfPrefix(a: seq<SDElement>, b: seq<SDElement>)
    ensures DataOf(a) <= DataOf(a + b)
  {
    if b == [] {
      assert a + b == a;
    } else {
      DataOfPrefix(a, b[..|b| - 1]);
      assert a + b == a + b[..|b| - 1] + [b[|b| - 1]];
      DataSnoc(a + b[..|b| - 1], b[|b| - 1]);
    }
  }

  lemma EmptyFlow(env: Env)
    ensures FlowInv(env, EMPTY_PIPE)
  {
  }

  lemma ImageIsGenuineData(env: Env, item: Item)
    requires ValidItem(item) && Fits(env, item)
    ensures IsData(FormatItem(env.cfg, env.esc, item)) && Genuine(env, FormatItem(env.cfg, env.esc, item))
  {
    NoItemPrintsEmpty(env.esc, item);
  }

  lemma HeartbeatIsGenuine(env: Env, time: int)
    ensures !IsData(Heartbeat(env.cfg, time)) && Genuine(env, Heartbeat(env.cfg, time))
  {
  }

  lemma CollectFlow(env: Env, p: Pipe, item: Item)
    requires FlowInv(env, p) && ValidItem(item)
    ensures FlowInv(env, ApplyOp(env, p, Collect(item)))
  {
    var q := ApplyOp(env, p, Collect(item));
    assert Removed(q) == Removed(p);
  }

  lemma TransferOrder(env: Env, p: Pipe)
    requires OrderLaw(env, p) && p.waiting != [] && ValidItem(p.waiting[0]) && Fits(env, p.waiting[0])
    ensures OrderLaw(env, ApplyOp(env, p, Transfer))
    ensures Pushed(ApplyOp(env, p, Transfer)) == Pushed(p) + [FormatItem(env.cfg, env.esc, p.waiting[0])]
  {
    var q := ApplyOp(env, p, Transfer);
    var item := p.waiting[0];
    var e := FormatItem(env.cfg, env.esc, item);
    assert Pushed(q) == Pushed(p) + [e];
    DataSnoc(Pushed(p), e);
    ImageIsGenuineData(env, item);
    RemovedGrows(p, q);
  }

  lemma TransferFits(env: Env, p: Pipe)
    requires OrderLaw(env, p) && FitLaw(env, p) && OpEnabled(env, p, Transfer)
    ensures FitLaw(env, ApplyOp(env, p, Transfer))
  {
    RemovedGrows(p, ApplyOp(env, p, Transfer));
    AllConcat(FitsIn(env), Removed(p), [p.waiting[0]]);
    assert [p.waiting[0]][0] == p.waiting[0];
  }

  lemma RemovedGrows(p: Pipe, q: Pipe)
    requires |p.waiting| <= |p.collected| && p.collected == Removed(p) + p.waiting && p.waiting != []
    requires q.collected == p.collected && q.waiting == p.waiting[1..]
    ensures Removed(q) == Removed(p) + [p.waiting[0]]
    ensures Removed(q)[..|Removed(q)| - 1] == Removed(p) && Removed(q)[|Removed(q)| - 1] == p.waiting[0]
    ensures q.collected == Removed(q) + q.waiting
  {
    assert p.collected[|Removed(p)|] == p.waiting[0];
  }

  lemma TransferFlow(env: Env, p: Pipe)
    requires FlowInv(env, p) && OpEnabled(env, p, Transfer)
    ensures FlowInv(env, ApplyOp(env, p, Transfer))
  {
    assert p.collected[|p.collected| - |p.waiting|] == p.waiting[0];
    ImageIsGenuineData(env, p.waiting[0]);
    TransferOrder(env, p);
    TransferFits(env, p);
  }

  lemma BeatFlow(env: Env, p: Pipe, time: int)
    requires FlowInv(env, p)
    ensures FlowInv(env, ApplyOp(env, p, Beat(time)))
  {
    var q, e := ApplyOp(env, p, Beat(time)), Heartbeat(env.cfg, time);
    assert Pushed(q) == Pushed(p) + [e];
    HeartbeatIsGenuine(env, time);
    PushedKeepsOrder(env, p, q, e);
    PushedKeepsGenuine(env, p, q, e);
  }

  lemma PushedKeepsOrder(env: Env, p: Pipe, q: Pipe, e: SDElement)
    requires OrderLaw(env, p) && q.collected == p.collected && q.waiting == p.waiting
    requires Pushed(q) == Pushed(p) + [e] && !IsData(e)
    ensures OrderLaw(env, q)
  {
    DataSnoc(Pushed(p), e);
    assert Removed(q) == Removed(p);
  }

  lemma PushedKeepsGenuine(env: Env, p: Pipe, q: Pipe, e: SDElement)
    requires GenuineLaw(env, p) && q.collected == p.collected && Pushed(q) == Pushed(p) + [e] && Genuine(env, e)
    ensures GenuineLaw(env, q)
  {
  }

  lemma SendKeepsPushed(env: Env, p: Pipe, op: Op)
    requires op.Send? && OpEnabled(env, p, op)
    ensures Pushed(ApplyOp(env, p, op)) == Pushed(p)
  {
    var a := Attempt(IdOf(|p.sent|), p.queued[0], op.timeVal, op.now, op.arrived);
    ElementsSnoc(p.sent, a);
    assert p.queued == [p.queued[0]] + p.queued[1..];
  }

  lemma SamePushed(env: Env, p: Pipe, q: Pipe)
    requires OrderLaw(env, p) && GenuineLaw(env, p)
    requires q.collected == p.collected && q.waiting == p.waiting && Pushed(q) == Pushed(p)
    ensures OrderLaw(env, q) && GenuineLaw(env, q)
  {
    assert Removed(q) == Removed(p);
  }

  lemma IdSnoc(p: Pipe, q: Pipe, a: Attempt)
    requires IdLaw(p) && q.sent == p.sent + [a] && a.id == IdOf(|p.sent|) && IsTimeStamp(a.timeVal)
    ensures IdLaw(q)
  {
  }

  lemma SendFlow(env: Env, p: Pipe, op: Op)
    requires FlowInv(env, p) && op.Send? && OpEnabled(env, p, op)
    ensures FlowInv(env, ApplyOp(env, p, op))
  {
    var q := ApplyOp(env, p, op);
    var a := Attempt(IdOf(|p.sent|), p.queued[0], op.timeVal, op.now, op.arrived);
    SendKeepsPushed(env, p, op);
    SamePushed(env, p, q);
    IdSnoc(p, q, a);
  }

  /** Every operation keeps the flow law. */
  lemma OpKeepsFlow(env: Env, p: Pipe, op: Op)
    requires FlowInv(env, p) && OpEnabled(env, p, op)
    ensures FlowInv(env, ApplyOp(env, p, op))
  {
    match op {
      case Collect(item) => CollectFlow(env, p, item);
      case Transfer => TransferFlow(env, p);
      case Beat(time) => BeatFlow(env, p, time);
      case Send(_, _, _) => SendFlow(env, p, op);
    }
  }

  /** Heartbeats enter the second queue by the heartbeat operation only, with its time. */
  lemma OpBeats(env: Env, p: Pipe, op: Op)
    requires OpEnabled(env, p, op)
    ensures BeatTimes(Pushed(ApplyOp(env, p, op)))
         == BeatTimes(Pushed(p)) + (if op.Beat? then [op.time] else [])
  {
    var q := ApplyOp(env, p, op);
    match op {
      case Collect(_) =>
      case Transfer => TransferBeats(env, p);
      case Beat(time) =>
        HeartbeatIsGenuine(env, time);
        assert Pushed(q) == Pushed(p) + [Heartbeat(env.cfg, time)];
        BeatSnoc(Pushed(p), Heartbeat(env.cfg, time));
      case Send(_, _, _) => SendKeepsPushed(env, p, op);
    }
  }

  lemma TransferBeats(env: Env, p: Pipe)
    requires p.waiting != []
    ensures BeatTimes(Pushed(TransferHead(env, p))) == BeatTimes(Pushed(p))
  {
    var e := FormatItem(env.cfg, env.esc, p.waiting[0]);
    NoItemPrintsEmpty(env.esc, p.waiting[0]);
    assert Pushed(TransferHead(env, p)) == Pushed(p) + [e];
    BeatSnoc(Pushed(p), e);
  }

  // ----- runs -----

  ghost predicate IsOpRun(env: Env, p: Pipe, ops: seq<Op>)
    decreases |ops|
  {
    ops == [] || (OpEnabled(env, p, ops[0]) && IsOpRun(env, ApplyOp(env, p, ops[0]), ops[1..]))
  }

  ghost function ExecOps(env: Env, p: Pipe, ops: seq<Op>): Pipe
    requires IsOpRun(env, p, ops)
    decreases |ops|
  {
    if ops == [] then p else ExecOps(env, ApplyOp(env, p, ops[0]), ops[1..])
  }

  lemma {:induction false} OpRunConcat(env: Env, p: Pipe, a: seq<Op>, b: seq<Op>)
    requires IsOpRun(env, p, a) && IsOpRun(env, ExecOps(env, p, a), b)
    ensures IsOpRun(env, p, a + b) && ExecOps(env, p, a + b) == ExecOps(env, ExecOps(env, p, a), b)
    decreases |a|
  {
    if a == [] {
      assert a + b == b;
    } else {
      OpRunConcat(env, ApplyOp(env, p, a[0]), a[1..], b);
      assert (a + b)[1..] == a[1..] + b;
    }
  }

  lemma {:induction false} OpRunKeepsFlow(env: Env, p: Pipe, ops: seq<Op>)
    requires FlowInv(env, p) && IsOpRun(env, p, ops)
    ensures FlowInv(env, ExecOps(env, p, ops))
    decreases |ops|
  {
    if ops != [] {
      OpKeepsFlow(env, p, ops[0]);
      OpRunKeepsFlow(env, ApplyOp(env, p, ops[0]), ops[1..]);
    }
  }

  /** Two attempts of a run carry the same identifier exactly when their positions agree modulo 65535. */
  lemma IdsCycle(i: nat, j: nat)
    requires i <= j
    ensures 1 <= IdOf(i) <= MAX_ID
    ensures IdOf(i) == IdOf(j) <==> (j - i) % MAX_ID == 0
    ensures i < j < i + MAX_ID ==> IdOf(i) != IdOf(j)
  {
  }
}
