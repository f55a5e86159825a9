/** The bodies of the two threads on the heap queues, run without interference.  Each method refines an
    operation of the atomic pipeline; the interleaved machine covers what other threads do meanwhile. */
module Probes {
  import opened Text
  import opened UriEscape
  import opened Offset
  import opened Message
  import opened PipelineSpec
  import opened PipelineMachine
  import opened PipelineSafety
  import opened CBuffers
  import opened LinkedQueue

  /** Number of items before the first one that does not fit its buffer. */
  ghost function FittingPrefix(env: Env, items: seq<Item>): (n: nat)
    ensures n <= |items|
  {
    PrefixWhile(FitsIn(env), items)
  }

  lemma FittingPrefixIs(env: Env, items: seq<Item>, n: nat)
    requires n <= |items| && AllFit(env, items[..n])
    requires n < |items| ==> !Fits(env, items[n])
    ensures FittingPrefix(env, items) == n
  {
    PrefixWhileIs(FitsIn(env), items, n);
  }

  /** Prints a text into the second buffer and appends that to the first. */
  method AppendVia(buffer: CBuffer, tmp: CBuffer, field: string) returns (inside: bool)
    requires buffer.Valid() && tmp.Valid() && buffer != tmp && buffer.bytes != tmp.bytes
    requires buffer.bytes.Length == tmp.bytes.Length
    modifies buffer, buffer.bytes, tmp, tmp.bytes
    ensures buffer.Valid() && tmp.Valid()
    ensures inside <==> |old(buffer.Text)| + |field| < buffer.bytes.Length
    ensures inside ==> buffer.Text == old(buffer.Text) + field
  {
    inside := tmp.Print(field);
    if inside {
      var text := tmp.Read();
      inside := buffer.Concat(text);
    }
  }

  /** Is `textOf` built by printing one field after another, each to some text? */
  ghost predicate PrintsOneByOne(printOne: Field -> string, textOf: seq<Field> -> string, fs: seq<Field>)
  {
    && textOf([]) == ""
    && forall i {:trigger printOne(fs[i])} :: 0 <= i < |fs| ==>
         printOne(fs[i]) != "" && textOf(fs[..i + 1]) == textOf(fs[..i]) + printOne(fs[i])
  }

  lemma {:induction false} TextGrows(printOne: Field -> string, textOf: seq<Field> -> string, fs: seq<Field>, i: nat)
    requires PrintsOneByOne(printOne, textOf, fs) && i <= |fs|
    ensures |textOf(fs[..i])| <= |textOf(fs)|
    decreases |fs| - i
  {
    if i == |fs| {
      assert fs[..i] == fs;
    } else {
      TextGrows(printOne, textOf, fs, i + 1);
      assert |textOf(fs[..i + 1])| == |textOf(fs[..i])| + |printOne(fs[i])|;
    }
  }

  lemma {:induction false} TextAtLeast(printOne: Field -> string, textOf: seq<Field> -> string, fs: seq<Field>, i: nat)
    requires PrintsOneByOne(printOne, textOf, fs) && i <= |fs|
    ensures |textOf(fs[..i])| >= i
  {
    if i > 0 {
      TextAtLeast(printOne, textOf, fs, i - 1);
      assert printOne(fs[i - 1]) != "";
    }
  }

  /** The loop over the values: each is printed into a second buffer and appended to the first.  It stays
      inside the buffers if and only if the whole text fits, and then its 16-bit counter never wraps. */
  method PrintFields(printOne: Field -> string, ghost textOf: seq<Field> -> string, fs: seq<Field>,
                     buffer: CBuffer, tmp: CBuffer)
    returns (inside: bool)
    requires PrintsOneByOne(printOne, textOf, fs)
    requires buffer.Valid() && tmp.Valid() && buffer != tmp && buffer.bytes != tmp.bytes
    requires buffer.bytes.Length == tmp.bytes.Length == BUFFER_SIZE
    modifies buffer, buffer.bytes, tmp, tmp.bytes
    ensures inside <==> |old(buffer.Text)| + |textOf(fs)| < BUFFER_SIZE
    ensures inside ==> buffer.Valid() && buffer.Text == old(buffer.Text) + textOf(fs)
  {
    inside := true;
    var i: nat := 0;      // 16 bits wide
    while i < |fs|
      invariant i <= |fs|
      invariant buffer.Valid() && tmp.Valid()
      invariant buffer.Text == old(buffer.Text) + textOf(fs[..i])
      decreases |fs| - i
    {
      TextGrows(printOne, textOf, fs, i + 1);
      TextAtLeast(printOne, textOf, fs, i);
      inside := AppendVia(buffer, tmp, printOne(fs[i]));
      if !inside {
        return;
      }
      i := (i + 1) % 65536;
    }
    assert fs[..i] == fs;
  }

  lemma FieldsPrintOneByOne(esc: Escaper, fs: seq<Field>)
    ensures PrintsOneByOne(f => FieldText(esc, f), gs => FieldsText(esc, gs), fs)
  {
    forall i | 0 <= i < |fs|
      ensures FieldText(esc, fs[i]) != ""
      ensures FieldsText(esc, fs[..i + 1]) == FieldsText(esc, fs[..i]) + FieldText(esc, fs[i])
    {
      FieldsTextSnoc(esc, fs, i);
    }
  }

  /** Prints the offset text of an item into a local buffer; without result when a write leaves it. */
  method PrintOffset(esc: Escaper, item: Item) returns (afterOffset: Option<string>)
    ensures afterOffset == if FitsBuffer(esc, item) then Some(OffsetText(esc, item)) else None
  {
    FitsBufferIff(esc, item);
    var buffer := new CBuffer(BUFFER_SIZE);
    var tmp := new CBuffer(BUFFER_SIZE);
    var inside := buffer.Print(NumbersText(item.lotNum, item.lineNum));
    if inside {
      FieldsPrintOneByOne(esc, item.fields);
      inside := PrintFields(f => FieldText(esc, f), gs => FieldsText(esc, gs), item.fields, buffer, tmp);
    }
    if inside {
      var text := buffer.Read();
      afterOffset := Some(text);
    } else {
      afterOffset := None;
    }
  }

  /** Assembles a message in the line buffer, cut to its size. */
  method AssembleMessage(timeVal: string, e: SDElement, id: nat, now: int) returns (text: string)
    ensures text == Emitted(FullLine(timeVal, e, id, now))
  {
    var completMsg := new CBuffer(LINE_SIZE);
    completMsg.PrintBounded(FullLine(timeVal, e, id, now));
    text := completMsg.Read();
  }

  /** What `sendMessage` reads in its k-th call, time stamp and time of day, and whether the message arrives. */
  datatype Outside = Outside(timeVal: nat -> string, now: nat -> int, arrived: nat -> bool)

  ghost predicate ValidOutside(out: Outside) { forall k :: IsTimeStamp(out.timeVal(k)) }

  /** The attempts for `es` when `sent` messages went before. */
  function Numbered(sent: nat, es: seq<SDElement>, out: Outside): (attempts: seq<Attempt>)
    ensures |attempts| == |es|
    ensures forall k :: 0 <= k < |es| ==>
      attempts[k] == Attempt(IdOf(sent + k), es[k], out.timeVal(sent + k), out.now(sent + k), out.arrived(sent + k))
  {
    seq(|es|, k requires 0 <= k < |es| =>
      Attempt(IdOf(sent + k), es[k], out.timeVal(sent + k), out.now(sent + k), out.arrived(sent + k)))
  }

  lemma TransferAppends(env: Env, p: Pipe, e: SDElement)
    requires p.waiting != [] && e == FormatItem(env.cfg, env.esc, p.waiting[0])
    ensures TransferHead(env, p) == p.(waiting := p.waiting[1..], queued := p.queued + [e])
  {
  }

  /** The pipeline after its first n waiting items were moved in order. */
  ghost function MovedBy(env: Env, p: Pipe, n: nat): Pipe
    requires n <= |p.waiting|
  {
    p.(waiting := p.waiting[n..], queued := p.queued + Images(env, p.waiting[..n]))
  }

  /** `p` is `start` after some of its waiting items, all of which fit their buffer, were moved in order. */
  ghost predicate Moved(env: Env, start: Pipe, p: Pipe)
  {
    && |p.waiting| <= |start.waiting|
    && var n := |start.waiting| - |p.waiting|;
       p == MovedBy(env, start, n) && AllFit(env, start.waiting[..n])
  }

  lemma NothingMoved(env: Env, start: Pipe)
    ensures Moved(env, start, start)
  {
  }

  lemma OneMoreTaken<T>(base: seq<T>, all: seq<T>, n: nat)
    requires n < |all|
    ensures base + all[..n] + [all[n]] == base + all[..n + 1] && all[n..][1..] == all[n + 1..]
  {
  }

  lemma OneMoreImage(env: Env, items: seq<Item>, n: nat)
    requires n < |items|
    ensures Images(env, items[..n + 1]) == Images(env, items[..n]) + [FormatItem(env.cfg, env.esc, items[n])]
  {
    assert items[..n + 1][..n] == items[..n];
  }

  lemma OneMoreFits(env: Env, items: seq<Item>, n: nat)
    requires n < |items| && AllFit(env, items[..n]) && Fits(env, items[n])
    ensures AllFit(env, items[..n + 1])
  {
    AllSnoc(FitsIn(env), items, n);
  }

  lemma OneMoreMoved(env: Env, p: Pipe, n: nat)
    requires n < |p.waiting|
    ensures TransferHead(env, MovedBy(env, p, n)) == MovedBy(env, p, n + 1)
  {
    var e := FormatItem(env.cfg, env.esc, p.waiting[n]);
    OneMoreImage(env, p.waiting, n);
    Regroup3(p.queued, Images(env, p.waiting[..n]), [e]);
    OneMoreTaken([], p.waiting, n);
    assert p.waiting[n..][0] == p.waiting[n];
    TransferAppends(env, MovedBy(env, p, n), e);
  }

  lemma FirstMoved(env: Env, start: Pipe, n: nat)
    requires n <= |start.waiting| && AllFit(env, start.waiting[..n])
    ensures Moved(env, start, MovedBy(env, start, n))
  {
  }

  lemma NextMoves(env: Env, start: Pipe, n: nat, p: Pipe)
    requires n < |start.waiting| && p == MovedBy(env, start, n)
    requires AllFit(env, start.waiting[..n]) && Fits(env, start.waiting[n])
    ensures Moved(env, start, TransferHead(env, p))
  {
    OneMoreFits(env, start.waiting, n);
    OneMoreMoved(env, start, n);
    FirstMoved(env, start, n + 1);
  }

  lemma MovedHead(env: Env, start: Pipe, p: Pipe) returns (n: nat)
    requires Moved(env, start, p) && p.waiting != []
    ensures n < |start.waiting| && p == MovedBy(env, start, n) && p.waiting[0] == start.waiting[n]
    ensures AllFit(env, start.waiting[..n])
  {
    n := |start.waiting| - |p.waiting|;
  }

  lemma HeadMoves(env: Env, start: Pipe, p: Pipe)
    requires Moved(env, start, p) && p.waiting != [] && Fits(env, p.waiting[0])
    ensures Moved(env, start, TransferHead(env, p))
  {
    var n := MovedHead(env, start, p);
    NextMoves(env, start, n, p);
  }

  /** The pipeline after the waiting items before the first one that does not fit were moved. */
  ghost function MovedFitting(env: Env, p: Pipe): Pipe { MovedBy(env, p, FittingPrefix(env, p.waiting)) }

  lemma AllMoved(env: Env, start: Pipe, p: Pipe)
    requires Moved(env, start, p) && (p.waiting != [] ==> !Fits(env, p.waiting[0]))
    ensures p == MovedFitting(env, start)
  {
    var n := |start.waiting| - |p.waiting|;
    assert p.waiting != [] ==> p.waiting[0] == start.waiting[n];
    FittingPrefixIs(env, start.waiting, n);
  }

  /** The pipeline after the head of the second queue, if any, was sent with the given identifier. */
  function AfterPop(p: Pipe, id: nat, timeVal: string, now: int, arrived: bool): Pipe
  {
    if p.queued == [] then p
    else p.(queued := p.queued[1..], sent := p.sent + [Attempt(id, p.queued[0], timeVal, now, arrived)])
  }

  /** With the right identifier that is the send operation. */
  lemma AfterPopIsSend(p: Pipe, timeVal: string, now: int, arrived: bool)
    requires p.queued != []
    ensures AfterPop(p, IdOf(|p.sent|), timeVal, now, arrived) == SendHead(p, timeVal, now, arrived)
  {
  }

  /** Is the counter where it stands between two turns, after `sent` messages? */
  predicate InStep(msgID: nat, sent: nat) { msgID == sent % MAX_ID }

  /** The 16-bit increment before a send. */
  method CountUp(msgID: nat, ghost sent: nat) returns (next: nat)
    requires InStep(msgID, sent)
    ensures next == IdOf(sent)
  {
    next := (msgID + 1) % 65536;
  }

  /** The reset after the send of the last identifier. */
  method WrapId(msgID: nat, ghost sent: nat) returns (next: nat)
    requires msgID == IdOf(sent)
    ensures InStep(next, sent + 1)
  {
    IdSuccessor(sent + 1);
    next := if msgID == 65535 then 0 else msgID;
  }

  /** The next send, with what the outside world answers to it. */
  function NextSent(out: Outside, p: Pipe): Pipe
    requires p.queued != []
  {
    SendHead(p, out.timeVal(|p.sent|), out.now(|p.sent|), out.arrived(|p.sent|))
  }

  /** `p` is `start` after some of its queued elements were sent in order, numbered on from `start`. */
  ghost predicate AllNumbered(out: Outside, start: Pipe, p: Pipe)
  {
    && ValidOutside(out)
    && |p.queued| <= |start.queued|
    && var n := |start.queued| - |p.queued|;
    && p.queued == start.queued[n..]
    && p.sent == start.sent + Numbered(|start.sent|, start.queued, out)[..n]
    && p.collected == start.collected && p.waiting == start.waiting
  }

  lemma NothingSent(out: Outside, start: Pipe)
    requires ValidOutside(out)
    ensures AllNumbered(out, start, start)
  {
  }

  lemma HeadIsNumbered(out: Outside, start: Pipe, p: Pipe)
    requires AllNumbered(out, start, p) && p.queued != []
    ensures AllNumbered(out, start, NextSent(out, p))
  {
    var n := |start.queued| - |p.queued|;
    var all := Numbered(|start.sent|, start.queued, out);
    assert p.queued[0] == start.queued[n] && |p.sent| == |start.sent| + n;
    OneMoreTaken(start.sent, all, n);
    OneMoreTaken([], start.queued, n);
  }

  /** The pipeline after everything queued was sent, in order and numbered on. */
  function SentAll(p: Pipe, out: Outside): Pipe
  {
    p.(queued := [], sent := p.sent + Numbered(|p.sent|, p.queued, out))
  }

  lemma EverythingSent(out: Outside, start: Pipe, p: Pipe)
    requires AllNumbered(out, start, p) && p.queued == []
    ensures p == SentAll(start, out)
  {
    var all := Numbered(|start.sent|, start.queued, out);
    assert all[..|start.queued|] == all;
  }

  /** Does a transfer keep the law? */
  ghost predicate TransferKeeps(env: Env, law: Pipe -> bool)
  {
    forall p {:trigger TransferHead(env, p)} ::
      law(p) && p.waiting != [] && Fits(env, p.waiting[0]) ==> law(TransferHead(env, p))
  }

  /** Does a send keep the law? */
  ghost predicate SendKeeps(out: Outside, law: Pipe -> bool)
  {
    forall p {:trigger NextSent(out, p)} :: law(p) && p.queued != [] ==> law(NextSent(out, p))
  }

  /** The law of the first drain loop: what was moved so far. */
  lemma MovedLaw(env: Env, start: Pipe) returns (law: Pipe -> bool)
    ensures TransferKeeps(env, law) && forall p :: law(p) <==> Moved(env, start, p)
  {
    law := p => Moved(env, start, p);
    forall p | Moved(env, start, p) && p.waiting != [] && Fits(env, p.waiting[0])
      ensures Moved(env, start, TransferHead(env, p))
    {
      HeadMoves(env, start, p);
    }
  }

  /** The law of the second drain loop: what was sent so far. */
  lemma NumberedLaw(out: Outside, start: Pipe) returns (law: Pipe -> bool)
    ensures SendKeeps(out, law) && forall p :: law(p) <==> AllNumbered(out, start, p)
  {
    law := p => AllNumbered(out, start, p);
    forall p | AllNumbered(out, start, p) && p.queued != []
      ensures AllNumbered(out, start, NextSent(out, p))
    {
      HeadIsNumbered(out, start, p);
    }
  }

  class Probe {
    const env: Env
    const collectQueue: Queue<Item>
    const sdElementQueue: Queue<SDElement>
    var msgID: nat
    var tmpTime: int
    var attempts: seq<Attempt>
    ghost var collected: seq<Item>

    ghost predicate Valid()
      reads collectQueue, collectQueue.Repr, sdElementQueue, sdElementQueue.Repr
    {
      && collectQueue.Valid() && sdElementQueue.Valid()
      && collectQueue.Repr !! sdElementQueue.Repr
      && this !in collectQueue.Repr && this !in sdElementQueue.Repr
    }

    ghost function Repr(): set<object>
      reads this, collectQueue, sdElementQueue
    {
      {this} + collectQueue.Repr + sdElementQueue.Repr
    }

    /** The abstract pipeline that the heap represents. */
    ghost function View(): Pipe
      reads this`collected, this`attempts, collectQueue`Contents, sdElementQueue`Contents
    {
      Pipe(collected, collectQueue.Contents, sdElementQueue.Contents, attempts)
    }

    constructor (env: Env)
      ensures Valid() && this.env == env && fresh(Repr())
      ensures View() == EMPTY_PIPE && msgID == 0 && tmpTime == 0
    {
      this.env := env;
      collectQueue := new Queue();
      sdElementQueue := new Queue();
      msgID, tmpTime, attempts, collected := 0, 0, [], [];
    }

    /** An addon appends an item to the first queue. */
    method Collect(item: Item)
      requires Valid()
      modifies this`collected, collectQueue.Repr
      ensures Valid() && fresh(collectQueue.Repr - old(collectQueue.Repr))
      ensures View() == CollectItem(old(View()), item)
    {
      collectQueue.Append(item);
      collected := collected + [item];
    }

    /** The protected part of the push. */
    method AppendElement(e: SDElement)
      requires Valid()
      modifies sdElementQueue.Repr
      ensures Valid() && fresh(sdElementQueue.Repr - old(sdElementQueue.Repr))
      ensures View() == old(View()).(queued := old(View()).queued + [e])
    {
      sdElementQueue.Append(e);
    }

    /** Wraps a text into an element of this probe and appends it. */
    method PushSDElementQueue(afterOffset: string, time: int)
      requires Valid()
      modifies sdElementQueue.Repr
      ensures Valid() && fresh(sdElementQueue.Repr - old(sdElementQueue.Repr))
      ensures View() == old(View()).(queued := old(View()).queued + [MakeElement(env.cfg, afterOffset, time)])
    {
      AppendElement(MakeElement(env.cfg, afterOffset, time));
    }

    method UnlinkItem()
      requires Valid() && View().waiting != []
      modifies collectQueue
      ensures Valid() && collectQueue.Repr == old(collectQueue.Repr)
      ensures View() == old(View()).(waiting := old(View()).waiting[1..])
    {
      collectQueue.RemoveFirst();
    }

    /** Append first, then unlink: for a moment the item is in both queues. */
    method MoveHead(e: SDElement)
      requires Valid() && View().waiting != []
      modifies collectQueue, sdElementQueue.Repr
      ensures Valid() && fresh(sdElementQueue.Repr - old(sdElementQueue.Repr))
      ensures collectQueue.Repr == old(collectQueue.Repr)
      ensures View() == old(View()).(waiting := old(View()).waiting[1..], queued := old(View()).queued + [e])
    {
      AppendElement(e);
      UnlinkItem();
    }

    /** The element made from the head of the first queue, if its text fits the buffer. */
    method FormatHead() returns (e: Option<SDElement>)
      requires Valid() && View().waiting != []
      ensures e == if Fits(env, View().waiting[0]) then Some(FormatItem(env.cfg, env.esc, View().waiting[0])) else None
    {
      var popedElement := collectQueue.Head();
      var afterOffset := PrintOffset(env.esc, popedElement);
      e := if afterOffset.Some? then Some(MakeElement(env.cfg, afterOffset.value, popedElement.time)) else None;
    }

    /** Formats the head of the first queue, if any, and moves it to the second one.  When its text leaves
        the buffer nothing is claimed about what follows, and the methods stop in the state before. */
    method PopCollectQueue() returns (inside: bool)
      requires Valid()
      modifies collectQueue, sdElementQueue.Repr
      ensures Valid() && fresh(sdElementQueue.Repr - old(sdElementQueue.Repr))
      ensures collectQueue.Repr == old(collectQueue.Repr)
      ensures inside <==> old(View()).waiting == [] || Fits(env, old(View()).waiting[0])
      ensures View() == if inside && old(View()).waiting != [] then TransferHead(env, old(View())) else old(View())
    {
      inside := true;
      var empty := collectQueue.IsEmpty();
      if !empty {
        var e := FormatHead();
        if e.None? {
          return false;
        }
        TransferAppends(env, View(), e.value);
        MoveHead(e.value);
      }
    }

    /** The drain loop of `format`.  Whatever law a transfer keeps holds when the loop ends, with an empty
        first queue or in front of an item that does not fit. */
    method Drain(ghost law: Pipe -> bool) returns (inside: bool)
      requires Valid() && law(View()) && TransferKeeps(env, law)
      modifies collectQueue, sdElementQueue.Repr
      ensures Valid() && fresh(sdElementQueue.Repr - old(sdElementQueue.Repr))
      ensures collectQueue.Repr == old(collectQueue.Repr)
      ensures law(View()) && (inside <==> View().waiting == [])
      ensures !inside ==> !Fits(env, View().waiting[0])
    {
      inside := true;
      var empty := collectQueue.IsEmpty();
      while !empty
        invariant Valid() && fresh(sdElementQueue.Repr - old(sdElementQueue.Repr))
        invariant collectQueue.Repr == old(collectQueue.Repr)
        invariant empty <==> View().waiting == []
        invariant law(View()) && inside
        decreases |View().waiting|
      {
        inside := PopCollectQueue();
        if !inside {
          return;
        }
        empty := collectQueue.IsEmpty();
      }
    }

    /** One round of `format` moves everything that waits, in order, up to an item that does not fit. */
    method FormatRound() returns (inside: bool)
      requires Valid()
      modifies collectQueue, sdElementQueue.Repr
      ensures Valid() && fresh(sdElementQueue.Repr - old(sdElementQueue.Repr))
      ensures collectQueue.Repr == old(collectQueue.Repr)
      ensures View() == MovedFitting(env, old(View())) && (inside <==> View().waiting == [])
    {
      ghost var start := View();
      NothingMoved(env, start);
      ghost var law := MovedLaw(env, start);
      inside := Drain(law);
      AllMoved(env, start, View());
    }

    /** Decides whether a heartbeat is due and pushes it. */
    method HeartBeat(now: int) returns (beat: bool)
      requires Valid()
      modifies this`tmpTime, sdElementQueue.Repr
      ensures Valid() && fresh(sdElementQueue.Repr - old(sdElementQueue.Repr))
      ensures beat <==> BeatDue(old(tmpTime), now) && (old(View()).queued == [] || old(tmpTime) == 0)
      ensures View() == if beat then PushHeartbeat(env, old(View()), now) else old(View())
      ensures tmpTime == if beat || old(View()).queued != [] then now else old(tmpTime)
    {
      beat := false;
      var empty := sdElementQueue.IsEmpty();
      if empty || tmpTime == 0 {
        if tmpTime == 0 || now - tmpTime > HEARTBEAT {
          PushSDElementQueue("", now);
          tmpTime := now;
          beat := true;
        }
      } else {
        tmpTime := now;
      }
    }

    /** Assembles the message for the head of the second queue and hands its text to the network. */
    method SendMessage(timeVal: string, now: int, arrived: bool) returns (a: Attempt, text: string)
      requires Valid() && View().queued != []
      ensures a == Attempt(msgID, View().queued[0], timeVal, now, arrived)
      ensures text == Emitted(LineOf(a))
    {
      var popedElement := sdElementQueue.Head();
      text := AssembleMessage(timeVal, popedElement, msgID, now);
      a := Attempt(msgID, popedElement, timeVal, now, arrived);
    }

    /** Unlinks the element of the attempt. */
    method UnlinkSent(a: Attempt)
      requires Valid() && View().queued != []
      modifies this`attempts, sdElementQueue
      ensures Valid() && sdElementQueue.Repr == old(sdElementQueue.Repr)
      ensures View() == old(View()).(queued := old(View()).queued[1..], sent := old(View()).sent + [a])
    {
      attempts := attempts + [a];
      sdElementQueue.RemoveFirst();
    }

    /** Sends the head of the second queue, if any, and unlinks it whatever the result. */
    method PopSDElementQueue(timeVal: string, now: int, arrived: bool)
      requires Valid()
      modifies this`attempts, sdElementQueue
      ensures Valid() && sdElementQueue.Repr == old(sdElementQueue.Repr)
      ensures View() == AfterPop(old(View()), old(msgID), timeVal, now, arrived)
    {
      var empty := sdElementQueue.IsEmpty();
      if !empty {
        var a, text := SendMessage(timeVal, now, arrived);
        UnlinkSent(a);
      }
    }

    /** Sends the head with the identifier that is its turn. */
    method SendNext(out: Outside)
      requires Valid() && View().queued != [] && msgID == IdOf(|attempts|)
      modifies this`attempts, sdElementQueue
      ensures Valid() && sdElementQueue.Repr == old(sdElementQueue.Repr)
      ensures |attempts| == old(|attempts|) + 1 && View() == NextSent(out, old(View()))
    {
      var k := |attempts|;
      AfterPopIsSend(View(), out.timeVal(k), out.now(k), out.arrived(k));
      PopSDElementQueue(out.timeVal(k), out.now(k), out.arrived(k));
    }

    /** Counts up and sends. */
    method CountAndSend(out: Outside, ghost k: nat)
      requires Valid() && View().queued != [] && InStep(msgID, k) && k == |attempts|
      modifies this`attempts, this`msgID, sdElementQueue
      ensures Valid() && sdElementQueue.Repr == old(sdElementQueue.Repr)
      ensures msgID == IdOf(k) && |attempts| == k + 1 && View() == NextSent(out, old(View()))
    {
      msgID := CountUp(msgID, k);
      SendNext(out);
    }

    /** The body of the drain loop of `sender`: count, send, wrap. */
    method SenderTurn(out: Outside)
      requires Valid() && View().queued != [] && InStep(msgID, |attempts|)
      modifies this`attempts, this`msgID, sdElementQueue
      ensures Valid() && sdElementQueue.Repr == old(sdElementQueue.Repr) && InStep(msgID, |attempts|)
      ensures View() == NextSent(out, old(View()))
    {
      ghost var k := |attempts|;
      CountAndSend(out, k);
      msgID := WrapId(msgID, k);
    }

    /** The drain loop of `sender`.  Whatever law a send keeps holds when the loop ends. */
    method SendAll(out: Outside, ghost law: Pipe -> bool)
      requires Valid() && law(View()) && SendKeeps(out, law)
      requires ValidOutside(out) && InStep(msgID, |attempts|)
      modifies this`attempts, this`msgID, sdElementQueue
      ensures Valid() && sdElementQueue.Repr == old(sdElementQueue.Repr) && InStep(msgID, |attempts|)
      ensures View().queued == [] && law(View())
    {
      var empty := sdElementQueue.IsEmpty();
      while !empty
        invariant Valid() && sdElementQueue.Repr == old(sdElementQueue.Repr) && InStep(msgID, |attempts|)
        invariant empty <==> View().queued == []
        invariant law(View())
        decreases |View().queued|
      {
        SenderTurn(out);
        empty := sdElementQueue.IsEmpty();
      }
    }

    /** Sends everything queued, in order and numbered on. */
    method SendQueued(out: Outside)
      requires Valid() && ValidOutside(out) && InStep(msgID, |attempts|)
      modifies this`attempts, this`msgID, sdElementQueue
      ensures Valid() && sdElementQueue.Repr == old(sdElementQueue.Repr) && InStep(msgID, |attempts|)
      ensures View() == SentAll(old(View()), out)
    {
      ghost var start := View();
      NothingSent(out, start);
      ghost var law := NumberedLaw(out, start);
      SendAll(out, law);
      EverythingSent(out, start, View());
    }

    /** One round of `sender`: poll, then send everything queued. */
    method SenderRound(now: int, out: Outside) returns (beat: bool)
      requires Valid() && ValidOutside(out) && InStep(msgID, |attempts|)
      modifies this`attempts, this`msgID, this`tmpTime, sdElementQueue.Repr
      ensures Valid() && fresh(sdElementQueue.Repr - old(sdElementQueue.Repr)) && InStep(msgID, |attempts|)
      ensures beat <==> BeatDue(old(tmpTime), now) && (old(View()).queued == [] || old(tmpTime) == 0)
      ensures tmpTime == if beat || old(View()).queued != [] then now else old(tmpTime)
      ensures View() == SentAll(if beat then PushHeartbeat(env, old(View()), now) else old(View()), out)
    {
      beat := HeartBeat(now);
      SendQueued(out);
    }
  }
}
