/** From collection to the emitted text: what can be reconstructed from it. */
module EndToEnd {
  import opened Text
  import opened UriEscape
  import opened Offset
  import opened Message
  import opened PipelineSpec
  import opened PipelineMachine
  import opened PipelineSafety
  import opened PipelineTheorems

  function LinesOf(sent: seq<Attempt>): (ls: seq<string>)
    ensures |ls| == |sent|
  {
    if sent == [] then [] else LinesOf(sent[..|sent| - 1]) + [LineOf(sent[|sent| - 1])]
  }

  lemma {:induction false} LineAt(sent: seq<Attempt>, k: nat)
    requires k < |sent|
    ensures LinesOf(sent)[k] == LineOf(sent[k])
  {
    if k < |sent| - 1 {
      LineAt(sent[..|sent| - 1], k);
    }
  }

  lemma LinesFitIff(sent: seq<Attempt>)
    ensures (forall k :: 0 <= k < |sent| ==> FitsLine(LineOf(sent[k])))
            <==> forall k :: 0 <= k < |LinesOf(sent)| ==> FitsLine(LinesOf(sent)[k])
  {
    if forall k :: 0 <= k < |LinesOf(sent)| ==> FitsLine(LinesOf(sent)[k]) {
      forall k | 0 <= k < |sent|
        ensures FitsLine(LineOf(sent[k]))
      {
        LineAt(sent, k);
      }
    }
    if forall k :: 0 <= k < |sent| ==> FitsLine(LineOf(sent[k])) {
      forall k | 0 <= k < |LinesOf(sent)|
        ensures FitsLine(LinesOf(sent)[k])
      {
        LineAt(sent, k);
      }
    }
  }

  /** The messages among what a debug build prints on its standard output, one after another. */
  function Trace(sent: seq<Attempt>): string { Flatten(EmitAll(LinesOf(sent))) }

  /** What one line says: nothing readable, a heartbeat, or the contents of an item. */
  type LineReader = string -> Option<Option<Parsed>>

  function ReadLine(line: string): Option<Option<Parsed>>
  {
    var frame :- ParseLine(line);
    if frame.body == "" then Some(None) else
      var item :- ParseOffset(frame.body);
      Some(Some(item))
  }

  /** The contents of the items read from lines, heartbeats dropped. */
  function ReadAll(reader: LineReader, lines: seq<string>): Option<seq<Parsed>>
  {
    if lines == [] then Some([]) else
      var front :- ReadAll(reader, lines[..|lines| - 1]);
      var last :- reader(lines[|lines| - 1]);
      Some(front + (if last.Some? then [last.value] else []))
  }

  /** A reader of that output. */
  function ReadTrace(trace: string): Option<seq<Parsed>>
  {
    var (lines, rest) := SplitLines(trace);
    if rest == "" then ReadAll(ReadLine, lines) else None
  }

  function Contents(items: seq<Item>): (ps: seq<Parsed>)
    ensures |ps| == |items|
    ensures forall i :: 0 <= i < |ps| ==> ps[i] == Parsed(items[i].lotNum, items[i].lineNum, items[i].fields)
  {
    if items == [] then [] else
      var item := items[|items| - 1];
      Contents(items[..|items| - 1]) + [Parsed(item.lotNum, item.lineNum, item.fields)]
  }

  ghost predicate Readable(env: Env) { ValidEnv(env) && WellFormed(env.cfg) && LineFeedFree(env.cfg) }

  /** Such environments exist. */
  lemma SomeEnvIsReadable() returns (env: Env)
    ensures Readable(env)
  {
    EscapeAllMeetsContract();
    env := Env(Config("h", "a", "t", 1, 1, 1), EscapeAll);
  }

  /** An element of this probe whose body does not disturb the line around it. */
  ghost predicate Sound(cfg: Config, e: SDElement)
  {
    e == MakeElement(cfg, e.afterOffset, e.time) && BodyStart(e.afterOffset) && Free(e.afterOffset, '\n')
  }

  lemma ImageOf(env: Env, e: SDElement) returns (item: Item)
    requires Genuine(env, e) && e != Heartbeat(env.cfg, e.time)
    ensures ValidItem(item) && e == FormatItem(env.cfg, env.esc, item)
  {
    item :| ValidItem(item) && Fits(env, item) && e == FormatItem(env.cfg, env.esc, item);
  }

  lemma ImageIsSound(env: Env, item: Item)
    requires Readable(env) && ValidItem(item)
    ensures Sound(env.cfg, FormatItem(env.cfg, env.esc, item))
  {
    OffsetTextFree(env.esc, item, '\n');
    OffsetStart(env.esc, item);
  }

  lemma ImageBodyReads(env: Env, item: Item)
    requires ValidEnv(env) && ValidItem(item)
    ensures BodyReads(FormatItem(env.cfg, env.esc, item))
  {
    ParsePrintedItem(env.esc, item);
  }

  /** Heartbeats and images of items are sound, and their bodies can be read. */
  lemma GenuineIsSound(env: Env, e: SDElement)
    requires Readable(env) && Genuine(env, e)
    ensures Sound(env.cfg, e) && BodyReads(e)
  {
    if e != Heartbeat(env.cfg, e.time) {
      var item := ImageOf(env, e);
      ImageIsSound(env, item);
      ImageBodyReads(env, item);
    }
  }

  lemma OffsetStart(esc: Escaper, item: Item)
    ensures BodyStart(OffsetText(esc, item))
  {
    assert OffsetText(esc, item)[0] == ' ';
  }

  lemma BuiltAttempt(env: Env, a: Attempt, body: string, time: int)
    requires a.element == MakeElement(env.cfg, body, time)
    ensures LineOf(a) == FullLine(a.timeVal, MakeElement(env.cfg, body, time), a.id, a.now)
  {
  }

  lemma SoundLineIsLine(cfg: Config, e: SDElement, timeVal: string, id: nat, now: int, line: string)
    requires LineFeedFree(cfg) && IsTimeStamp(timeVal) && Sound(cfg, e)
    requires line == FullLine(timeVal, MakeElement(cfg, e.afterOffset, e.time), id, now)
    ensures IsLine(line)
  {
    FullLineIsLine(cfg, timeVal, e.afterOffset, e.time, id, now);
  }

  lemma SoundLineReads(cfg: Config, a: Attempt, line: string)
    requires WellFormed(cfg) && IsTimeStamp(a.timeVal) && Sound(cfg, a.element)
    requires line == FullLine(a.timeVal, MakeElement(cfg, a.element.afterOffset, a.element.time), a.id, a.now)
    ensures ReadsAs(line, cfg, a.timeVal, a.id, a.now - a.element.time, a.element.afterOffset)
  {
    ParsePrintedLine(cfg, a.timeVal, a.element.afterOffset, a.element.time, a.id, a.now);
  }

  /** Every attempt of a sound element is one line. */
  lemma AttemptIsLine(env: Env, a: Attempt)
    requires Readable(env) && Sound(env.cfg, a.element) && IsTimeStamp(a.timeVal)
    ensures IsLine(LineOf(a))
  {
    BuiltAttempt(env, a, a.element.afterOffset, a.element.time);
    SoundLineIsLine(env.cfg, a.element, a.timeVal, a.id, a.now, LineOf(a));
  }

  /** Reading that line gives back the identifier, the configuration, the age and the body. */
  lemma AttemptRoundTrip(env: Env, a: Attempt)
    requires Readable(env) && Sound(env.cfg, a.element) && IsTimeStamp(a.timeVal)
    ensures ReadsAs(LineOf(a), env.cfg, a.timeVal, a.id, a.now - a.element.time, a.element.afterOffset)
  {
    BuiltAttempt(env, a, a.element.afterOffset, a.element.time);
    SoundLineReads(env.cfg, a, LineOf(a));
  }

  ghost predicate GoodAttempts(env: Env, sent: seq<Attempt>)
  {
    forall k :: 0 <= k < |sent| ==>
      Sound(env.cfg, sent[k].element) && BodyReads(sent[k].element) && IsTimeStamp(sent[k].timeVal)
  }

  /** The item contents carried by an element. */
  function ContentOf(e: SDElement): Parsed
  {
    var p := ParseOffset(e.afterOffset);
    if p.Some? then p.value else Parsed(0, 0, [])
  }

  /** Can the body be read back, if there is one? */
  predicate BodyReads(e: SDElement) { IsData(e) ==> ParseOffset(e.afterOffset).Some? }

  lemma ReadAttempt(env: Env, a: Attempt)
    requires Readable(env) && Sound(env.cfg, a.element) && BodyReads(a.element) && IsTimeStamp(a.timeVal)
    ensures ReadLine(LineOf(a)) == Some(if IsData(a.element) then Some(ContentOf(a.element)) else None)
  {
    AttemptRoundTrip(env, a);
    ReadFrame(LineOf(a), a.element, FrameFor(env.cfg, a.timeVal, a.id, a.now - a.element.time, a.element.afterOffset));
  }

  lemma ReadFrame(line: string, e: SDElement, frame: Frame)
    requires ParseLine(line) == Some(frame) && frame.body == e.afterOffset && BodyReads(e)
    ensures ReadLine(line) == Some(if IsData(e) then Some(ContentOf(e)) else None)
  {
  }

  function Mapped(content: SDElement -> Parsed, es: seq<SDElement>): (ps: seq<Parsed>)
    ensures |ps| == |es|
    ensures forall i :: 0 <= i < |es| ==> ps[i] == content(es[i])
  {
    if es == [] then [] else Mapped(content, es[..|es| - 1]) + [content(es[|es| - 1])]
  }

  lemma MappedSnoc(content: SDElement -> Parsed, es: seq<SDElement>, e: SDElement)
    ensures Mapped(content, es + [e]) == Mapped(content, es) + [content(e)]
  {
    assert (es + [e])[..|es|] == es;
  }

  /** Reading line by line yields the contents of the data elements, in order. */
  lemma {:induction false} ReadElements(reader: LineReader, lines: seq<string>, es: seq<SDElement>,
                                        content: SDElement -> Parsed)
    requires |lines| == |es|
    requires forall k :: 0 <= k < |es| ==>
      reader(lines[k]) == Some(if IsData(es[k]) then Some(content(es[k])) else None)
    ensures ReadAll(reader, lines) == Some(Mapped(content, DataOf(es)))
  {
    if es != [] {
      var n := |es| - 1;
      var front := DataOf(es[..n]);
      ReadElements(reader, lines[..n], es[..n], content);
      if IsData(es[n]) {
        MappedSnoc(content, front, es[n]);
        assert DataOf(es) == front + [es[n]];
      } else {
        assert DataOf(es) == front;
        assert Mapped(content, front) + [] == Mapped(content, front);
      }
    }
  }

  lemma ContentOfImage(env: Env, item: Item)
    requires ValidEnv(env) && ValidItem(item)
    ensures ContentOf(FormatItem(env.cfg, env.esc, item)) == Parsed(item.lotNum, item.lineNum, item.fields)
  {
    ParsePrintedItem(env.esc, item);
  }

  lemma ContentsOfImages(env: Env, items: seq<Item>)
    requires ValidEnv(env) && forall i :: 0 <= i < |items| ==> ValidItem(items[i])
    ensures Mapped(ContentOf, Images(env, items)) == Contents(items)
  {
    forall i | 0 <= i < |items|
      ensures ContentOf(FormatItem(env.cfg, env.esc, items[i]))
           == Parsed(items[i].lotNum, items[i].lineNum, items[i].fields)
    {
      ContentOfImage(env, items[i]);
    }
  }

  lemma ReadPrintedItems(env: Env, sent: seq<Attempt>, items: seq<Item>)
    requires Readable(env) && GoodAttempts(env, sent)
    requires forall i :: 0 <= i < |items| ==> ValidItem(items[i])
    requires DataOf(Elements(sent)) == Images(env, items)
    ensures ReadAll(ReadLine, LinesOf(sent)) == Some(Contents(items))
  {
    var es := Elements(sent);
    forall k | 0 <= k < |sent|
      ensures ReadLine(LinesOf(sent)[k]) == Some(if IsData(es[k]) then Some(ContentOf(es[k])) else None)
    {
      LineAt(sent, k);
      ElementAt(sent, k);
      ReadAttempt(env, sent[k]);
    }
    ReadElements(ReadLine, LinesOf(sent), es, ContentOf);
    ContentsOfImages(env, items);
  }

  /** What was handed to the network is the image of the first collected items. */
  lemma SentArePrefix(env: Env, s: State) returns (m: nat)
    requires Reachable(env, s)
    ensures m == |DataOf(Elements(s.attempts))| <= |s.collected|
    ensures DataOf(Elements(s.attempts)) == Images(env, s.collected[..m])
  {
    var removed, unsent := AbstractOrder(env, s);
    DataOfPrefix(Elements(s.attempts), unsent);
    m := |DataOf(Elements(s.attempts))|;
    ImagesPrefix(env, removed, m);
    assert removed[..m] == s.collected[..m];
  }

  lemma AbstractOrder(env: Env, s: State) returns (removed: seq<Item>, unsent: seq<SDElement>)
    requires Reachable(env, s)
    ensures removed <= s.collected
    ensures DataOf(Elements(s.attempts) + unsent) == Images(env, removed)
  {
    ReachableOrder(env, s);
    removed, unsent := Removed(Abs(s)), Abs(s).queued;
  }

  lemma SentAreGood(env: Env, s: State)
    requires Readable(env) && Reachable(env, s)
    ensures forall i :: 0 <= i < |s.collected| ==> ValidItem(s.collected[i])
    ensures GoodAttempts(env, s.attempts)
  {
    ReachableInv(env, s);
    var p := Abs(s);
    forall k | 0 <= k < |s.attempts|
      ensures Sound(env.cfg, s.attempts[k].element) && BodyReads(s.attempts[k].element)
    {
      ElementAt(s.attempts, k);
      assert Pushed(p)[k] == s.attempts[k].element;
      GenuineIsSound(env, s.attempts[k].element);
    }
  }

  lemma {:induction false} ImagesPrefix(env: Env, items: seq<Item>, m: nat)
    requires m <= |items|
    ensures Images(env, items[..m]) == Images(env, items)[..m]
  {
    if m == |items| {
      assert items[..m] == items;
    } else {
      var front := items[..|items| - 1];
      ImagesPrefix(env, front, m);
      assert front[..m] == items[..m];
    }
  }

  lemma LinesAreLines(env: Env, sent: seq<Attempt>)
    requires Readable(env) && GoodAttempts(env, sent)
    ensures forall k :: 0 <= k < |sent| ==> IsLine(LinesOf(sent)[k])
  {
    forall k | 0 <= k < |sent|
      ensures IsLine(LinesOf(sent)[k])
    {
      AttemptIsLine(env, sent[k]);
      LineAt(sent, k);
    }
  }

  /** Whatever the interleaving, a reader of the uncut trace reconstructs exactly the contents of the
      first collected items, in order, as many as data messages were sent. */
  lemma TraceCarriesCollectedPrefix(env: Env, s: State)
    requires Readable(env) && Reachable(env, s)
    requires forall k :: 0 <= k < |s.attempts| ==> FitsLine(LineOf(s.attempts[k]))
    ensures var m := |DataOf(Elements(s.attempts))|;
            m <= |s.collected| && ReadTrace(Trace(s.attempts)) == Some(Contents(s.collected[..m]))
  {
    var m := SentArePrefix(env, s);
    SentAreGood(env, s);
    LinesAreLines(env, s.attempts);
    LinesFitIff(s.attempts);
    StreamFraming(LinesOf(s.attempts));
    ReadPrintedItems(env, s.attempts, s.collected[..m]);
  }

  /** The lines can be told apart in the trace exactly when none of them was cut. */
  lemma TraceIsFramed(env: Env, s: State)
    requires Readable(env) && Reachable(env, s)
    ensures SplitLines(Trace(s.attempts)) == (LinesOf(s.attempts), "")
            <==> forall k :: 0 <= k < |s.attempts| ==> FitsLine(LineOf(s.attempts[k]))
  {
    SentAreGood(env, s);
    LinesAreLines(env, s.attempts);
    LinesFitIff(s.attempts);
    StreamFraming(LinesOf(s.attempts));
  }
}
