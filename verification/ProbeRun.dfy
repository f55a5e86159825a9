/** Whole runs of the heap implementation: the rounds of both threads and the pushes of addons, one after
    the other in any order. */
module ProbeRuns {
  import opened Text
  import opened Offset
  import opened PipelineSpec
  import opened PipelineMachine
  import opened Probes

  /** A push by an addon, a round of the format thread, or a round of the sender at the given time. */
  datatype Event = Collected(item: Item) | FormatTurn | SenderTurn(now: int)

  /** Items come with values that are C strings. */
  ghost predicate ValidEvents(events: seq<Event>)
  {
    forall i :: 0 <= i < |events| && events[i].Collected? ==> ValidItem(events[i].item)
  }

  /** The pipeline, the time remembered by the polls, and whether every write stayed inside its buffer. */
  datatype Status = Status(pipe: Pipe, tmpTime: int, inside: bool)

  /** Does a poll at this time push a heartbeat? */
  predicate Beats(r: Status, now: int) { BeatDue(r.tmpTime, now) && (r.pipe.queued == [] || r.tmpTime == 0) }

  ghost function OnEvent(env: Env, r: Status, e: Event, out: Outside): Status
  {
    match e
    case Collected(item) => r.(pipe := CollectItem(r.pipe, item))
    case FormatTurn =>
      var moved := MovedFitting(env, r.pipe);
      r.(pipe := moved, inside := moved.waiting == [])
    case SenderTurn(now) =>
      r.(pipe := SentAll(if Beats(r, now) then PushHeartbeat(env, r.pipe, now) else r.pipe, out),
         tmpTime := if Beats(r, now) || r.pipe.queued != [] then now else r.tmpTime)
  }

  /** All events in order, up to a write that leaves its buffer. */
  ghost function OnEvents(env: Env, r: Status, events: seq<Event>, out: Outside): Status
    decreases |events|
  {
    if events == [] || !r.inside then r else OnEvents(env, OnEvent(env, r, events[0], out), events[1..], out)
  }

  // ----- the heap -----

  method CollectOne(probe: Probe, item: Item)
    requires probe.Valid()
    modifies probe.Repr()
    ensures probe.Valid() && fresh(probe.Repr() - old(probe.Repr()))
    ensures probe.msgID == old(probe.msgID) && probe.tmpTime == old(probe.tmpTime)
    ensures probe.View() == CollectItem(old(probe.View()), item)
  {
    probe.Collect(item);
  }

  method FormatOnce(probe: Probe) returns (inside: bool)
    requires probe.Valid()
    modifies probe.Repr()
    ensures probe.Valid() && fresh(probe.Repr() - old(probe.Repr()))
    ensures probe.msgID == old(probe.msgID) && probe.tmpTime == old(probe.tmpTime)
    ensures probe.View() == MovedFitting(probe.env, old(probe.View())) && (inside <==> probe.View().waiting == [])
  {
    inside := probe.FormatRound();
  }

  method SendOnce(probe: Probe, now: int, out: Outside)
    requires probe.Valid() && ValidOutside(out) && InStep(probe.msgID, |probe.attempts|)
    modifies probe.Repr()
    ensures probe.Valid() && fresh(probe.Repr() - old(probe.Repr())) && InStep(probe.msgID, |probe.attempts|)
    ensures Status(probe.View(), probe.tmpTime, true)
         == OnEvent(probe.env, Status(old(probe.View()), old(probe.tmpTime), true), SenderTurn(now), out)
  {
    var beat := probe.SenderRound(now, out);
  }

  method Step(probe: Probe, e: Event, out: Outside) returns (inside: bool)
    requires probe.Valid() && ValidOutside(out) && InStep(probe.msgID, |probe.attempts|)
    modifies probe.Repr()
    ensures probe.Valid() && fresh(probe.Repr() - old(probe.Repr())) && InStep(probe.msgID, |probe.attempts|)
    ensures Status(probe.View(), probe.tmpTime, inside)
         == OnEvent(probe.env, Status(old(probe.View()), old(probe.tmpTime), true), e, out)
  {
    inside := true;
    ghost var k := |probe.View().sent|;
    match e {
      case Collected(item) => CollectOne(probe, item);
      case FormatTurn =>
        inside := FormatOnce(probe);
        assert |probe.View().sent| == k;
      case SenderTurn(now) => SendOnce(probe, now, out);
    }
  }

  /** Every sequence of events, one after the other. */
  method RunOn(probe: Probe, events: seq<Event>, out: Outside) returns (inside: bool)
    requires probe.Valid() && ValidOutside(out) && InStep(probe.msgID, |probe.attempts|)
    modifies probe.Repr()
    ensures probe.Valid() && fresh(probe.Repr() - old(probe.Repr()))
    ensures Status(probe.View(), probe.tmpTime, inside)
         == OnEvents(probe.env, Status(old(probe.View()), old(probe.tmpTime), true), events, out)
    decreases |events|
  {
    inside := true;
    if events != [] {
      inside := Step(probe, events[0], out);
      if inside {
        inside := RunOn(probe, events[1..], out);
      }
    }
  }

  /** The same from a new probe. */
  method Run(env: Env, events: seq<Event>, out: Outside) returns (probe: Probe, inside: bool)
    requires ValidOutside(out)
    ensures probe.Valid() && probe.env == env
    ensures Status(probe.View(), probe.tmpTime, inside) == OnEvents(env, Status(EMPTY_PIPE, 0, true), events, out)
  {
    probe := new Probe(env);
    assert |probe.View().sent| == 0;
    inside := RunOn(probe, events, out);
  }

  // ----- what every run keeps -----

  ghost predicate CollectKeeps(law: Pipe -> bool)
  {
    forall p, item :: law(p) && ValidItem(item) ==> law(CollectItem(p, item))
  }

  ghost predicate BeatKeeps(env: Env, law: Pipe -> bool)
  {
    forall p, now :: law(p) ==> law(PushHeartbeat(env, p, now))
  }

  /** Do the four operations keep the law? */
  ghost predicate KeepsLaw(env: Env, out: Outside, law: Pipe -> bool)
  {
    CollectKeeps(law) && TransferKeeps(env, law) && BeatKeeps(env, law) && SendKeeps(out, law)
  }

  lemma NextKeepsLaw(env: Env, p: Pipe, n: nat, q: Pipe, law: Pipe -> bool)
    requires TransferKeeps(env, law) && n < |p.waiting| && q == MovedBy(env, p, n) && law(q)
    requires Fits(env, p.waiting[n])
    ensures law(MovedBy(env, p, n + 1))
  {
    OneMoreMoved(env, p, n);
    assert q.waiting[0] == p.waiting[n];
    assert law(TransferHead(env, q));
  }

  lemma {:induction false} MovesKeepLaw(env: Env, p: Pipe, n: nat, law: Pipe -> bool)
    requires TransferKeeps(env, law) && law(p) && n <= |p.waiting| && AllFit(env, p.waiting[..n])
    ensures law(MovedBy(env, p, n))
  {
    if n == 0 {
      assert MovedBy(env, p, 0) == p;
    } else {
      AllSnoc(FitsIn(env), p.waiting, n - 1);
      MovesKeepLaw(env, p, n - 1, law);
      NextKeepsLaw(env, p, n - 1, MovedBy(env, p, n - 1), law);
    }
  }

  /** The pipeline after the first n queued elements were sent. */
  function SentBy(p: Pipe, out: Outside, n: nat): Pipe
    requires n <= |p.queued|
  {
    p.(queued := p.queued[n..], sent := p.sent + Numbered(|p.sent|, p.queued, out)[..n])
  }

  lemma OneMoreSent(p: Pipe, out: Outside, n: nat)
    requires n < |p.queued|
    ensures SentBy(p, out, n).queued != [] && NextSent(out, SentBy(p, out, n)) == SentBy(p, out, n + 1)
  {
    var all := Numbered(|p.sent|, p.queued, out);
    OneMoreTaken(p.sent, all, n);
    OneMoreTaken([], p.queued, n);
    assert p.queued[n..][0] == p.queued[n];
  }

  lemma {:induction false} SendsKeepLaw(p: Pipe, out: Outside, n: nat, law: Pipe -> bool)
    requires SendKeeps(out, law) && law(p) && n <= |p.queued|
    ensures law(SentBy(p, out, n))
  {
    if n == 0 {
      assert SentBy(p, out, 0) == p;
    } else {
      SendsKeepLaw(p, out, n - 1, law);
      OneMoreSent(p, out, n - 1);
    }
  }

  lemma EventKeepsLaw(env: Env, r: Status, e: Event, out: Outside, law: Pipe -> bool)
    requires KeepsLaw(env, out, law) && law(r.pipe) && (e.Collected? ==> ValidItem(e.item))
    ensures law(OnEvent(env, r, e, out).pipe)
  {
    match e {
      case Collected(item) =>
      case FormatTurn =>
        var n := FittingPrefix(env, r.pipe.waiting);
        PrefixWhileTake(FitsIn(env), r.pipe.waiting);
        MovesKeepLaw(env, r.pipe, n, law);
      case SenderTurn(now) =>
        var p := if Beats(r, now) then PushHeartbeat(env, r.pipe, now) else r.pipe;
        SendsKeepLaw(p, out, |p.queued|, law);
        assert SentBy(p, out, |p.queued|) == SentAll(p, out);
    }
  }

  /** Every law that the four operations keep is kept by every sequence of events. */
  lemma {:induction false} EventsKeepLaw(env: Env, r: Status, events: seq<Event>, out: Outside, law: Pipe -> bool)
    requires KeepsLaw(env, out, law) && law(r.pipe) && ValidEvents(events)
    ensures law(OnEvents(env, r, events, out).pipe)
    decreases |events|
  {
    if events != [] && r.inside {
      assert forall i :: 0 <= i < |events[1..]| ==> events[1..][i] == events[i + 1];
      EventKeepsLaw(env, r, events[0], out, law);
      EventsKeepLaw(env, OnEvent(env, r, events[0], out), events[1..], out, law);
    }
  }

  lemma FlowIsKept(env: Env, out: Outside)
    requires ValidOutside(out)
    ensures KeepsLaw(env, out, p => FlowInv(env, p))
  {
    forall p, item | FlowInv(env, p) && ValidItem(item)
      ensures FlowInv(env, CollectItem(p, item))
    {
      OpKeepsFlow(env, p, Op.Collect(item));
    }
    forall p | FlowInv(env, p) && p.waiting != [] && Fits(env, p.waiting[0])
      ensures FlowInv(env, TransferHead(env, p))
    {
      OpKeepsFlow(env, p, Transfer);
    }
    forall p, now | FlowInv(env, p)
      ensures FlowInv(env, PushHeartbeat(env, p, now))
    {
      OpKeepsFlow(env, p, Beat(now));
    }
    forall p | FlowInv(env, p) && p.queued != []
      ensures FlowInv(env, NextSent(out, p))
    {
      var k := |p.sent|;
      OpKeepsFlow(env, p, Op.Send(out.timeVal(k), out.now(k), out.arrived(k)));
    }
  }

  /** Order, origin and numbering hold after every sequence of events. */
  lemma EventsKeepFlow(env: Env, r: Status, events: seq<Event>, out: Outside)
    requires ValidOutside(out) && FlowInv(env, r.pipe) && ValidEvents(events)
    ensures FlowInv(env, OnEvents(env, r, events, out).pipe)
  {
    FlowIsKept(env, out);
    var law := p => FlowInv(env, p);
    EventsKeepLaw(env, r, events, out, law);
    assert law(OnEvents(env, r, events, out).pipe);
  }

  // ----- what a run achieves -----

  /** The items that the events push. */
  function ItemsOf(events: seq<Event>): seq<Item>
  {
    if events == [] then []
    else (match events[0] case Collected(item) => [item] case _ => []) + ItemsOf(events[1..])
  }

  lemma FormatMoves(env: Env, r: Status, out: Outside)
    ensures var t := OnEvent(env, r, FormatTurn, out);
            && (t.inside <==> AllFit(env, r.pipe.waiting)) && (t.inside <==> t.pipe.waiting == [])
            && t.pipe.collected == r.pipe.collected
  {
    PrefixWhileAll(FitsIn(env), r.pipe.waiting);
  }

  /** With a round of the format thread at the end, every write stays inside if and only if all items fit;
      then all of them are collected and none waits. */
  lemma {:induction false} FormattedIff(env: Env, r: Status, events: seq<Event>, out: Outside)
    requires r.inside
    ensures var t := OnEvents(env, r, events + [FormatTurn], out);
            && (t.inside <==> AllFit(env, r.pipe.waiting + ItemsOf(events)))
            && (t.inside ==> t.pipe.waiting == [] && t.pipe.collected == r.pipe.collected + ItemsOf(events))
    decreases |events|
  {
    var all := events + [FormatTurn];
    var next := OnEvent(env, r, all[0], out);
    FormatMoves(env, r, out);
    if events == [] {
      assert all[1..] == [];
      assert r.pipe.waiting + [] == r.pipe.waiting && r.pipe.collected + [] == r.pipe.collected;
    } else {
      assert all[0] == events[0] && all[1..] == events[1..] + [FormatTurn];
      AllConcat(FitsIn(env), r.pipe.waiting, ItemsOf(events));
      match events[0] {
        case Collected(item) =>
          FormattedIff(env, next, events[1..], out);
          Regroup3(r.pipe.waiting, [item], ItemsOf(events[1..]));
          Regroup3(r.pipe.collected, [item], ItemsOf(events[1..]));
        case FormatTurn =>
          assert ItemsOf(events) == ItemsOf(events[1..]);
          if next.inside {
            FormattedIff(env, next, events[1..], out);
            AllConcat(FitsIn(env), [], ItemsOf(events[1..]));
          }
        case SenderTurn(_) =>
          assert ItemsOf(events) == ItemsOf(events[1..]);
          FormattedIff(env, next, events[1..], out);
      }
    }
  }

  lemma {:induction false} EventsConcat(env: Env, r: Status, a: seq<Event>, b: seq<Event>, out: Outside)
    ensures OnEvents(env, r, a + b, out) == OnEvents(env, OnEvents(env, r, a, out), b, out)
    decreases |a|
  {
    if a == [] {
      assert a + b == b;
    } else if r.inside {
      assert (a + b)[1..] == a[1..] + b;
      EventsConcat(env, OnEvent(env, r, a[0], out), a[1..], b, out);
    }
  }

  lemma LastSend(env: Env, r: Status, now: int, out: Outside)
    requires r.inside
    ensures var t := OnEvents(env, r, [SenderTurn(now)], out);
            t.inside && t.pipe.queued == [] && t.pipe.waiting == r.pipe.waiting && t.pipe.collected == r.pipe.collected
  {
    assert [SenderTurn(now)][1..] == [];
  }

  /** Any events, then a round of the format thread and one of the sender: every write stays inside if and
      only if all items fit, and then exactly their images were sent, in order, and nothing is left. */
  lemma RunSendsEverything(env: Env, events: seq<Event>, now: int, out: Outside)
    requires ValidOutside(out) && ValidEvents(events)
    ensures var t := OnEvents(env, Status(EMPTY_PIPE, 0, true), events + [FormatTurn] + [SenderTurn(now)], out);
            && (t.inside <==> AllFit(env, ItemsOf(events)))
            && (t.inside ==> t.pipe.waiting == [] && t.pipe.queued == [] && t.pipe.collected == ItemsOf(events)
                             && DataOf(Elements(t.pipe.sent)) == Images(env, ItemsOf(events)))
  {
    var r0 := Status(EMPTY_PIPE, 0, true);
    var all := events + [FormatTurn] + [SenderTurn(now)];
    FormattedIff(env, r0, events, out);
    assert [] + ItemsOf(events) == ItemsOf(events);
    EventsConcat(env, r0, events + [FormatTurn], [SenderTurn(now)], out);
    var r, t := OnEvents(env, r0, events + [FormatTurn], out), OnEvents(env, r0, all, out);
    if r.inside {
      LastSend(env, r, now, out);
      EmptyFlow(env);
      EventsKeepFlow(env, r0, all, out);
      NothingLeft(env, t.pipe);
    }
  }

  lemma NothingLeft(env: Env, p: Pipe)
    requires OrderLaw(env, p) && p.waiting == [] && p.queued == []
    ensures DataOf(Elements(p.sent)) == Images(env, p.collected)
  {
    assert Removed(p) == p.collected && Pushed(p) == Elements(p.sent);
  }

  lemma NextKeepsPushed(p: Pipe, out: Outside)
    requires p.queued != []
    ensures Pushed(NextSent(out, p)) == Pushed(p)
  {
    var k := |p.sent|;
    ElementsSnoc(p.sent, Attempt(IdOf(k), p.queued[0], out.timeVal(k), out.now(k), out.arrived(k)));
    assert p.queued == [p.queued[0]] + p.queued[1..];
  }

  lemma NextSentBy(p: Pipe, out: Outside, n: nat)
    requires n < |p.queued|
    ensures Pushed(SentBy(p, out, n + 1)) == Pushed(SentBy(p, out, n))
  {
    OneMoreSent(p, out, n);
    NextKeepsPushed(SentBy(p, out, n), out);
  }

  lemma {:induction false} SendsKeepPushed(p: Pipe, out: Outside, n: nat)
    requires n <= |p.queued|
    ensures Pushed(SentBy(p, out, n)) == Pushed(p)
  {
    if n == 0 {
      assert SentBy(p, out, 0) == p;
    } else {
      SendsKeepPushed(p, out, n - 1);
      NextSentBy(p, out, n - 1);
    }
  }

  lemma SentAllIsPushed(p: Pipe, out: Outside)
    ensures Elements(SentAll(p, out).sent) == Pushed(p)
  {
    SendsKeepPushed(p, out, |p.queued|);
    assert SentBy(p, out, |p.queued|) == SentAll(p, out);
    assert Pushed(SentAll(p, out)) == Elements(SentAll(p, out).sent);
  }

  /** A round of the sender sends everything queued, and before that a heartbeat with its time exactly if
      none was ever due before, or nothing is queued and the remembered time is more than ten seconds old. */
  lemma SenderTurnBeats(env: Env, r: Status, now: int, out: Outside)
    requires ValidOutside(out)
    ensures var t := OnEvent(env, r, SenderTurn(now), out);
            var beat := r.tmpTime == 0 || (r.pipe.queued == [] && now - r.tmpTime > 10);
            && t.pipe.queued == []
            && BeatTimes(Elements(t.pipe.sent)) == BeatTimes(Pushed(r.pipe)) + (if beat then [now] else [])
            && t.tmpTime == (if beat || r.pipe.queued != [] then now else r.tmpTime)
  {
    SentAllIsPushed(if Beats(r, now) then PushHeartbeat(env, r.pipe, now) else r.pipe, out);
    OpBeats(env, r.pipe, Beat(now));
  }
}
