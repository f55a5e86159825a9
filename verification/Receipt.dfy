/** What a receiver gets: each message travels alone, over its own connection or as a datagram, and some
    do not arrive. */
module Receipt {
  import opened Text
  import opened Offset
  import opened Message
  import opened PipelineSpec
  import opened PipelineMachine
  import opened PipelineTheorems
  import opened EndToEnd

  // ----- one message -----

  /** A message is read as sent when it was not cut, and not at all when it was. */
  ghost predicate ReadUnlessCut(env: Env, a: Attempt, line: string)
  {
    ParseLine(Emitted(line))
    == if FitsLine(line)
       then Some(FrameFor(env.cfg, a.timeVal, a.id, a.now - a.element.time, a.element.afterOffset))
       else None
  }

  lemma OneMessage(env: Env, a: Attempt)
    requires Readable(env) && Sound(env.cfg, a.element) && IsTimeStamp(a.timeVal)
    ensures ReadUnlessCut(env, a, LineOf(a))
  {
    AttemptIsLine(env, a);
    if FitsLine(LineOf(a)) {
      AttemptRoundTrip(env, a);
    } else {
      CutLineIsUnreadable(LineOf(a));
    }
  }

  /** That holds for every attempt of every interleaving. */
  lemma MessagesRead(env: Env, s: State, k: nat)
    requires Readable(env) && Reachable(env, s) && k < |s.attempts|
    ensures ReadUnlessCut(env, s.attempts[k], LineOf(s.attempts[k]))
  {
    GoodAttempt(env, s, k);
    OneMessage(env, s.attempts[k]);
  }

  lemma GoodAttempt(env: Env, s: State, k: nat)
    requires Readable(env) && Reachable(env, s) && k < |s.attempts|
    ensures Sound(env.cfg, s.attempts[k].element) && IsTimeStamp(s.attempts[k].timeVal)
  {
    SentAreGood(env, s);
  }

  // ----- all messages that arrive -----

  /** Messages that arrive, are not cut and carry data. */
  predicate Survives(a: Attempt) { a.arrived && FitsLine(LineOf(a)) && IsData(a.element) }

  /** What the receiver learns from one attempt. */
  type Listener = Attempt -> Option<Parsed>

  function Heard(a: Attempt): Option<Parsed>
  {
    if !a.arrived then None else
      var read :- ReadLine(Emitted(LineOf(a)));
      read
  }

  /** What the receiver learns from all attempts, in order. */
  function Received(listener: Listener, sent: seq<Attempt>): seq<Parsed>
  {
    if sent == [] then [] else
      var last := listener(sent[|sent| - 1]);
      Received(listener, sent[..|sent| - 1]) + (if last.Some? then [last.value] else [])
  }

  /** How many data elements were attempted before the k-th attempt. */
  function DataBefore(sent: seq<Attempt>, k: nat): nat
    requires k <= |sent|
  {
    |DataOf(Elements(sent[..k]))|
  }

  /** The positions, counted over the data elements, of the attempts that are kept. */
  function Kept(keep: Attempt -> bool, sent: seq<Attempt>): seq<nat>
  {
    if sent == [] then [] else
      var n := |sent| - 1;
      Kept(keep, sent[..n]) + (if keep(sent[n]) then [DataBefore(sent, n)] else [])
  }

  lemma {:induction false} HeardAre(listener: Listener, keep: Attempt -> bool, sent: seq<Attempt>,
                                    contents: seq<Parsed>)
    requires forall k :: 0 <= k < |sent| && keep(sent[k]) ==> DataBefore(sent, k) < |contents|
    requires forall k :: 0 <= k < |sent| ==>
      listener(sent[k]) == if keep(sent[k]) then Some(contents[DataBefore(sent, k)]) else None
    ensures |Received(listener, sent)| == |Kept(keep, sent)|
    ensures forall i :: 0 <= i < |Kept(keep, sent)| ==>
      Kept(keep, sent)[i] < |contents| && Received(listener, sent)[i] == contents[Kept(keep, sent)[i]]
  {
    if sent != [] {
      var n := |sent| - 1;
      var front := sent[..n];
      forall k | 0 <= k < n
        ensures DataBefore(front, k) == DataBefore(sent, k)
      {
        assert front[..k] == sent[..k];
      }
      HeardAre(listener, keep, front, contents);
    }
  }

  /** Kept positions ascend: what is received is in order and nothing is received twice. */
  lemma {:induction false} KeptAscend(keep: Attempt -> bool, sent: seq<Attempt>)
    requires forall a :: keep(a) ==> IsData(a.element)
    ensures forall i :: 0 <= i < |Kept(keep, sent)| ==> Kept(keep, sent)[i] < |DataOf(Elements(sent))|
    ensures forall i, j :: 0 <= i < j < |Kept(keep, sent)| ==> Kept(keep, sent)[i] < Kept(keep, sent)[j]
  {
    if sent != [] {
      var n := |sent| - 1;
      KeptAscend(keep, sent[..n]);
      assert sent == sent[..n] + [sent[n]];
      ElementsSnoc(sent[..n], sent[n]);
      DataSnoc(Elements(sent[..n]), sent[n].element);
    }
  }

  /** A data attempt is among the kept ones exactly when it is to be kept. */
  lemma {:induction false} KeptIff(keep: Attempt -> bool, sent: seq<Attempt>, k: nat)
    requires forall a :: keep(a) ==> IsData(a.element)
    requires k < |sent| && IsData(sent[k].element)
    ensures DataBefore(sent, k) in Kept(keep, sent) <==> keep(sent[k])
  {
    var n := |sent| - 1;
    var front := sent[..n];
    KeptAscend(keep, front);
    assert front[..n] == front && sent[..n] == front;
    if k < n {
      assert front[..k] == sent[..k];
      KeptIff(keep, front, k);
      LaterPosition(sent, k, n);
    }
  }

  lemma LaterPosition(sent: seq<Attempt>, k: nat, n: nat)
    requires k < n <= |sent| && IsData(sent[k].element)
    ensures DataBefore(sent, k) < DataBefore(sent, n)
  {
    DataAt(sent[..n], k);
    assert sent[..n][..k] == sent[..k];
  }

  /** The k-th attempt, if it carries data, carries the data element of its position. */
  lemma {:induction false} DataAt(sent: seq<Attempt>, k: nat)
    requires k < |sent| && IsData(sent[k].element)
    ensures DataBefore(sent, k) < |DataOf(Elements(sent))|
    ensures DataOf(Elements(sent))[DataBefore(sent, k)] == sent[k].element
  {
    assert sent[..k + 1] == sent[..k] + [sent[k]];
    ElementsSnoc(sent[..k], sent[k]);
    DataSnoc(Elements(sent[..k]), sent[k].element);
    ElementsConcat(sent[..k + 1], sent[k + 1..]);
    assert sent == sent[..k + 1] + sent[k + 1..];
    DataOfPrefix(Elements(sent[..k + 1]), Elements(sent[k + 1..]));
  }

  lemma {:induction false} ElementsConcat(a: seq<Attempt>, b: seq<Attempt>)
    ensures Elements(a + b) == Elements(a) + Elements(b)
  {
    if b == [] {
      assert a + b == a;
    } else {
      var n := |b| - 1;
      ElementsConcat(a, b[..n]);
      assert a + b == a + b[..n] + [b[n]];
      ElementsSnoc(a + b[..n], b[n]);
    }
  }

  lemma HeardIs(env: Env, a: Attempt)
    requires Readable(env) && Sound(env.cfg, a.element) && BodyReads(a.element) && IsTimeStamp(a.timeVal)
    ensures Heard(a) == if Survives(a) then Some(ContentOf(a.element)) else None
  {
    OneMessage(env, a);
    if FitsLine(LineOf(a)) {
      ReadAttempt(env, a);
    }
  }

  /** The element of a data attempt is the image of the item at its position. */
  lemma DataIsImage(env: Env, s: State, k: nat, m: nat)
    requires m <= |s.collected| && DataOf(Elements(s.attempts)) == Images(env, s.collected[..m])
    requires k < |s.attempts| && IsData(s.attempts[k].element)
    ensures DataBefore(s.attempts, k) < m
    ensures s.attempts[k].element == FormatItem(env.cfg, env.esc, s.collected[DataBefore(s.attempts, k)])
  {
    DataAt(s.attempts, k);
    ImageAt(env, s.collected[..m], DataBefore(s.attempts, k));
  }

  lemma ItemContents(env: Env, items: seq<Item>, i: nat, e: SDElement)
    requires ValidEnv(env) && i < |items| && ValidItem(items[i]) && e == FormatItem(env.cfg, env.esc, items[i])
    ensures ContentOf(e) == Contents(items)[i]
  {
    ContentOfImage(env, items[i]);
  }

  lemma DataContents(env: Env, s: State, k: nat, m: nat)
    requires ValidEnv(env) && (forall i :: 0 <= i < |s.collected| ==> ValidItem(s.collected[i]))
    requires m <= |s.collected| && DataOf(Elements(s.attempts)) == Images(env, s.collected[..m])
    requires k < |s.attempts| && IsData(s.attempts[k].element)
    ensures DataBefore(s.attempts, k) < m
    ensures ContentOf(s.attempts[k].element) == Contents(s.collected)[DataBefore(s.attempts, k)]
  {
    DataIsImage(env, s, k, m);
    ItemContents(env, s.collected, DataBefore(s.attempts, k), s.attempts[k].element);
  }

  /** Whatever the interleaving and whatever arrives, the receiver learns exactly the contents of the items
      whose messages arrived uncut, in the order of collection. */
  lemma ReceivedAreSurvivors(env: Env, s: State)
    requires Readable(env) && Reachable(env, s)
    ensures var kept := Kept(Survives, s.attempts);
            && |Received(Heard, s.attempts)| == |kept|
            && (forall i :: 0 <= i < |kept| ==> kept[i] < |s.collected|)
            && (forall i :: 0 <= i < |kept| ==> Received(Heard, s.attempts)[i] == Contents(s.collected)[kept[i]])
            && (forall i, j :: 0 <= i < j < |kept| ==> kept[i] < kept[j])
  {
    var m := SentArePrefix(env, s);
    SentAreGood(env, s);
    forall k | 0 <= k < |s.attempts|
      ensures Survives(s.attempts[k]) ==> DataBefore(s.attempts, k) < |s.collected|
      ensures Heard(s.attempts[k])
           == if Survives(s.attempts[k]) then Some(Contents(s.collected)[DataBefore(s.attempts, k)]) else None
    {
      HeardIs(env, s.attempts[k]);
      if IsData(s.attempts[k].element) {
        DataContents(env, s, k, m);
      }
    }
    HeardAre(Heard, Survives, s.attempts, Contents(s.collected));
    KeptAscend(Survives, s.attempts);
  }

  /** The item of a data attempt is received if and only if its message arrives uncut. */
  lemma ReceivedIff(env: Env, s: State, k: nat)
    requires Readable(env) && Reachable(env, s) && k < |s.attempts| && IsData(s.attempts[k].element)
    ensures DataBefore(s.attempts, k) < |s.collected|
    ensures ContentOf(s.attempts[k].element) == Contents(s.collected)[DataBefore(s.attempts, k)]
    ensures DataBefore(s.attempts, k) in Kept(Survives, s.attempts)
            <==> s.attempts[k].arrived && FitsLine(LineOf(s.attempts[k]))
  {
    var m := SentArePrefix(env, s);
    SentAreGood(env, s);
    DataContents(env, s, k, m);
    KeptIff(Survives, s.attempts, k);
  }

  // ----- ages -----

  lemma ImageTime(env: Env, item: Item)
    ensures FormatItem(env.cfg, env.esc, item).time == item.time
  {
  }

  /** The age that a receiver reads from an uncut data message is the time from the collection of its item to
      the send. */
  lemma AgeIsRead(env: Env, s: State, k: nat)
    requires Readable(env) && Reachable(env, s) && k < |s.attempts| && IsData(s.attempts[k].element)
    requires FitsLine(LineOf(s.attempts[k]))
    ensures DataBefore(s.attempts, k) < |s.collected|
    ensures var frame := ParseLine(Emitted(LineOf(s.attempts[k])));
            frame.Some? && frame.value.offset == s.attempts[k].now - s.collected[DataBefore(s.attempts, k)].time
  {
    var m := SentArePrefix(env, s);
    DataIsImage(env, s, k, m);
    ImageTime(env, s.collected[DataBefore(s.attempts, k)]);
    MessagesRead(env, s, k);
  }

  // ----- losses -----

  /** The identifiers of two messages tell their distance modulo 65535, and thereby exactly how many
      attempts lie between them if and only if these are fewer than 65535. */
  lemma IdentifiersExposeLosses(env: Env, s: State, i: nat, j: nat)
    requires Reachable(env, s) && i < j < |s.attempts|
    ensures var lost := j - i - 1;
            && (s.attempts[j].id - s.attempts[i].id) % 65535 == (j - i) % 65535
            && ((s.attempts[j].id - s.attempts[i].id - 1) % 65535 == lost <==> lost < 65535)
  {
    Identifiers(env, s);
    IdDistance(i, j);
  }

  lemma IdDistance(i: nat, j: nat)
    requires i < j
    ensures (j % 65535 - i % 65535) % 65535 == (j - i) % 65535
    ensures (j % 65535 - i % 65535 - 1) % 65535 == (j - i - 1) % 65535
  {
  }
}
