/** The line sent for one queue element: its assembly, its 479-character cut, the reader of such lines
    and the reader of a stream of them.  The header is that of section 6.2 of RFC 5424. */
module Message {
  import opened Text
  import opened UriEscape
  import opened Offset

  /** What the SD-element queue knows about the probe. */
  datatype Config = Config(hostname: string, appName: string, token: string,
                           probeID: nat, transportMsgVersion: nat, pID: int)

  /** One element of the SD-element queue. */
  datatype SDElement = SDElement(beforeMsgID: string, afterMsgID: string, afterOffset: string, time: int)

  /** The probe identifier is unsigned but printed with `%d`. */
  function AsInt32(u: nat): int
  {
    var w := u % 0x1_0000_0000;
    if w < 0x8000_0000 then w else w - 0x1_0000_0000
  }

  /** Is n the 32-bit number that agrees with u modulo 2^32, and u itself below 2^31? */
  predicate Agrees32(n: int, u: nat)
  {
    Int32(n) && (n - u) % 0x1_0000_0000 == 0 && (u < 0x8000_0000 ==> n == u)
  }

  lemma AsInt32Is(u: nat)
    ensures Agrees32(AsInt32(u), u)
  {
  }

  function BeforeMsgID(cfg: Config): string
  {
    cfg.hostname + " " + cfg.appName + " " + Decimal(cfg.pID) + " ID"
  }

  function AfterMsgID(cfg: Config): string
  {
    "[prop@40311 ver=" + Decimal(cfg.transportMsgVersion)
    + " probe=" + Decimal(AsInt32(cfg.probeID))
    + " token=\"" + cfg.token + "\"][res1@40311 offset="
  }

  function MakeElement(cfg: Config, afterOffset: string, time: int): SDElement
  {
    SDElement(BeforeMsgID(cfg), AfterMsgID(cfg), afterOffset, time)
  }

  function FormatItem(cfg: Config, esc: Escaper, item: Item): SDElement
  {
    MakeElement(cfg, OffsetText(esc, item), item.time)
  }

  function Heartbeat(cfg: Config, time: int): SDElement { MakeElement(cfg, "", time) }

  predicate IsData(e: SDElement) { e.afterOffset != "" }

  /** The text handed to the bounded printer; `now` is read when the message is sent. */
  function FullLine(timeVal: string, e: SDElement, id: nat, now: int): string
  {
    "<118>1 " + timeVal + " " + e.beforeMsgID + Decimal(id) + " " + e.afterMsgID
    + Decimal(now - e.time) + e.afterOffset + "]\n"
  }

  /** The size of the line buffer, terminator included. */
  const LINE_SIZE := 480

  predicate FitsLine(full: string) { |full| < LINE_SIZE }

  function Emitted(full: string): (s: string)
  {
    if FitsLine(full) then full else full[..LINE_SIZE - 1]
  }

  // ----- reading one line -----

  datatype Frame = Frame(timeVal: string, hostname: string, appName: string, pID: int, id: int,
                         version: int, probe: int, token: string, offset: int, body: string)

  /** The frame that carries the given values and the probe's configuration. */
  function FrameFor(cfg: Config, timeVal: string, id: nat, offset: int, body: string): Frame
  {
    Frame(timeVal, cfg.hostname, cfg.appName, cfg.pID, id, cfg.transportMsgVersion, AsInt32(cfg.probeID),
          cfg.token, offset, body)
  }

  /** Header fields are blank-free and the token does not close its own quotes. */
  predicate WellFormed(cfg: Config)
  {
    Free(cfg.hostname, ' ') && Free(cfg.appName, ' ') && Free(cfg.token, '"')
  }

  function ParseHeader(s: string): Option<(string, string, int, string)>
  {
    var (hostname, s1) :- Until(s, ' ');
    var (appName, s2) :- Until(s1, ' ');
    var (pID, s3) :- ParseInt(s2);
    var rest :- Expect(s3, " ID");
    Some((hostname, appName, pID, rest))
  }

  function ParseProperties(s: string): Option<(int, int, string, string)>
  {
    var s1 :- Expect(s, "[prop@40311 ver=");
    var (version, s2) :- ParseInt(s1);
    var s3 :- Expect(s2, " probe=");
    var (probe, s4) :- ParseInt(s3);
    var s5 :- Expect(s4, " token=\"");
    var (token, s6) :- Until(s5, '"');
    var rest :- Expect(s6, "][res1@40311 offset=");
    Some((version, probe, token, rest))
  }

  /** Removes the closing bracket and line feed. */
  function ParseEnd(s: string): Option<string>
  {
    if |s| >= 2 && s[|s| - 2..] == "]\n" then Some(s[..|s| - 2]) else None
  }

  function ParseLine(s: string): Option<Frame>
  {
    var s1 :- Expect(s, "<118>1 ");
    var (timeVal, s2) :- Until(s1, ' ');
    var (hostname, appName, pID, s3) :- ParseHeader(s2);
    var (id, s4) :- ParseInt(s3);
    var s5 :- Expect(s4, " ");
    var (version, probe, token, s6) :- ParseProperties(s5);
    var (offset, s7) :- ParseInt(s6);
    var body :- ParseEnd(s7);
    Some(Frame(timeVal, hostname, appName, pID, id, version, probe, token, offset, body))
  }

  /** Does the reader get the given values, with the probe's configuration, from `line`? */
  predicate ReadsAs(line: string, cfg: Config, timeVal: string, id: nat, offset: int, body: string)
  {
    ParseLine(line) == Some(FrameFor(cfg, timeVal, id, offset, body))
  }

  lemma ParsePrintedHeader(cfg: Config, rest: string)
    requires WellFormed(cfg)
    ensures ParseHeader(BeforeMsgID(cfg) + rest) == Some((cfg.hostname, cfg.appName, cfg.pID, rest))
  {
    var s3 := " ID" + rest;
    var s2 := Decimal(cfg.pID) + s3;
    var s1 := cfg.appName + [' '] + s2;
    assert BeforeMsgID(cfg) + rest == cfg.hostname + [' '] + s1 by {
      Regroup5(cfg.appName, [' '], Decimal(cfg.pID), " ID", rest);
      Regroup4(cfg.appName, [' '], Decimal(cfg.pID), s3);
      RegroupHeader(cfg.hostname, [' '], cfg.appName, [' '], Decimal(cfg.pID), " ID", rest);
    }
    UntilIs(cfg.hostname, ' ', s1);
    UntilIs(cfg.appName, ' ', s2);
    ParseDecimal(cfg.pID, s3);
    ExpectIs(" ID", rest);
  }

  lemma RegroupHeader(a: string, b: string, c: string, d: string, e: string, f: string, rest: string)
    ensures a + b + c + d + e + f + rest == a + b + (c + d + (e + (f + rest)))
  {
  }

  lemma RegroupProperties(a: string, b: string, c: string, d: string, e: string, f: string,
                          g: string, h: string, i: string, rest: string)
    requires g == h + i
    ensures a + b + c + d + e + f + g + rest == a + (b + (c + (d + (e + (f + h + (i + rest))))))
  {
  }

  lemma ParsePrintedProperties(cfg: Config, rest: string)
    requires WellFormed(cfg)
    ensures ParseProperties(AfterMsgID(cfg) + rest)
         == Some((cfg.transportMsgVersion, AsInt32(cfg.probeID), cfg.token, rest))
  {
    var version, probe := Decimal(cfg.transportMsgVersion), Decimal(AsInt32(cfg.probeID));
    var s6 := "][res1@40311 offset=" + rest;
    var s5 := cfg.token + ['"'] + s6;
    var s4 := " token=\"" + s5;
    var s3 := probe + s4;
    var s2 := " probe=" + s3;
    var s1 := version + s2;
    assert "\"][res1@40311 offset=" == ['"'] + "][res1@40311 offset=";
    RegroupProperties("[prop@40311 ver=", version, " probe=", probe, " token=\"", cfg.token,
                      "\"][res1@40311 offset=", ['"'], "][res1@40311 offset=", rest);
    ExpectIs("[prop@40311 ver=", s1);
    ParseDecimal(cfg.transportMsgVersion, s2);
    ExpectIs(" probe=", s3);
    ParseDecimal(AsInt32(cfg.probeID), s4);
    ExpectIs(" token=\"", s5);
    UntilIs(cfg.token, '"', s6);
    ExpectIs("][res1@40311 offset=", rest);
  }

  lemma RegroupLine(a: string, b: string, c: string, d: string, e: string, f: string,
                    g: string, h: string, i: string, j: string)
    ensures a + b + c + d + e + f + g + h + i + j
         == a + (b + c + (d + (e + (f + (g + (h + (i + j)))))))
  {
  }

  /** Can `body` follow the printed time offset? */
  predicate BodyStart(body: string) { body == "" || !IsDigit(body[0]) }

  /** Reads an assembled line, whatever its two prefixes, given how they are read. */
  lemma ParseAssembled(timeVal: string, before: string, after: string, body: string, id: nat, offset: int,
                       hostname: string, appName: string, pID: int, version: int, probe: int, token: string)
    requires Free(timeVal, ' ') && BodyStart(body)
    requires forall rest :: ParseHeader(before + rest) == Some((hostname, appName, pID, rest))
    requires forall rest :: ParseProperties(after + rest) == Some((version, probe, token, rest))
    ensures ParseLine("<118>1 " + timeVal + " " + before + Decimal(id) + " " + after + Decimal(offset) + body + "]\n")
         == Some(Frame(timeVal, hostname, appName, pID, id, version, probe, token, offset, body))
  {
    var s7 := body + "]\n";
    var s6 := Decimal(offset) + s7;
    var s5 := after + s6;
    var s4 := " " + s5;
    var s3 := Decimal(id) + s4;
    var s2 := before + s3;
    var s1 := timeVal + [' '] + s2;
    RegroupLine("<118>1 ", timeVal, [' '], before, Decimal(id), " ", after, Decimal(offset), body, "]\n");
    ExpectIs("<118>1 ", s1);
    UntilIs(timeVal, ' ', s2);
    ParseDecimal(id, s4);
    ExpectIs(" ", s5);
    ParseDecimal(offset, s7);
    assert s7[|s7| - 2..] == "]\n" && s7[..|s7| - 2] == body;
  }

  lemma HeaderReads(cfg: Config)
    requires WellFormed(cfg)
    ensures forall rest :: ParseHeader(BeforeMsgID(cfg) + rest) == Some((cfg.hostname, cfg.appName, cfg.pID, rest))
  {
    forall rest
      ensures ParseHeader(BeforeMsgID(cfg) + rest) == Some((cfg.hostname, cfg.appName, cfg.pID, rest))
    {
      ParsePrintedHeader(cfg, rest);
    }
  }

  lemma PropertiesRead(cfg: Config)
    requires WellFormed(cfg)
    ensures forall rest :: ParseProperties(AfterMsgID(cfg) + rest)
                        == Some((cfg.transportMsgVersion, AsInt32(cfg.probeID), cfg.token, rest))
  {
    forall rest
      ensures ParseProperties(AfterMsgID(cfg) + rest)
           == Some((cfg.transportMsgVersion, AsInt32(cfg.probeID), cfg.token, rest))
    {
      ParsePrintedProperties(cfg, rest);
    }
  }

  lemma AssembledReads(line: string, cfg: Config, timeVal: string, before: string, after: string, body: string,
                       id: nat, offset: int)
    requires Free(timeVal, ' ') && BodyStart(body)
    requires forall rest :: ParseHeader(before + rest) == Some((cfg.hostname, cfg.appName, cfg.pID, rest))
    requires forall rest :: ParseProperties(after + rest)
                         == Some((cfg.transportMsgVersion, AsInt32(cfg.probeID), cfg.token, rest))
    requires line == "<118>1 " + timeVal + " " + before + Decimal(id) + " " + after + Decimal(offset) + body + "]\n"
    ensures ReadsAs(line, cfg, timeVal, id, offset, body)
  {
    ParseAssembled(timeVal, before, after, body, id, offset,
                   cfg.hostname, cfg.appName, cfg.pID, cfg.transportMsgVersion, AsInt32(cfg.probeID), cfg.token);
  }

  /** Round trip for a whole line: every field of the message is read back. */
  lemma ParsePrintedLine(cfg: Config, timeVal: string, body: string, time: int, id: nat, now: int)
    requires WellFormed(cfg) && Free(timeVal, ' ') && BodyStart(body)
    ensures ReadsAs(FullLine(timeVal, MakeElement(cfg, body, time), id, now), cfg, timeVal, id, now - time, body)
  {
    HeaderReads(cfg);
    PropertiesRead(cfg);
    AssembledReads(FullLine(timeVal, MakeElement(cfg, body, time), id, now), cfg, timeVal,
                   BeforeMsgID(cfg), AfterMsgID(cfg), body, id, now - time);
  }

  /** The frame that is read back names the probe, as far as 32 bits can. */
  lemma FrameNamesProbe(cfg: Config, timeVal: string, id: nat, offset: int, body: string)
    ensures Agrees32(FrameFor(cfg, timeVal, id, offset, body).probe, cfg.probeID)
  {
    AsInt32Is(cfg.probeID);
  }

  // ----- what the reader makes of a cut line -----

  lemma BehindIsFree(front: string, rest: string, c: char)
    requires Free(front + rest, c)
    ensures Free(rest, c)
  {
    forall i | 0 <= i < |rest|
      ensures rest[i] != c
    {
      assert (front + rest)[|front| + i] == rest[i];
    }
  }

  lemma ExpectRest(s: string, prefix: string, c: char)
    requires Free(s, c) && Expect(s, prefix).Some?
    ensures Free(Expect(s, prefix).value, c)
  {
    BehindIsFree(prefix, Expect(s, prefix).value, c);
  }

  lemma UntilRest(s: string, d: char, c: char)
    requires Free(s, c) && Until(s, d).Some?
    ensures Free(Until(s, d).value.1, c)
  {
    BehindIsFree(Until(s, d).value.0 + [d], Until(s, d).value.1, c);
  }

  lemma IntRest(s: string, c: char)
    requires Free(s, c) && ParseInt(s).Some?
    ensures Free(ParseInt(s).value.1, c)
  {
  }

  lemma HeaderRest(s: string, c: char)
    requires Free(s, c) && ParseHeader(s).Some?
    ensures Free(ParseHeader(s).value.3, c)
  {
    UntilRest(s, ' ', c);
    var s1 := Until(s, ' ').value.1;
    UntilRest(s1, ' ', c);
    var s2 := Until(s1, ' ').value.1;
    IntRest(s2, c);
    ExpectRest(ParseInt(s2).value.1, " ID", c);
  }

  lemma PropertiesRest(s: string, c: char)
    requires Free(s, c) && ParseProperties(s).Some?
    ensures Free(ParseProperties(s).value.3, c)
  {
    ExpectRest(s, "[prop@40311 ver=", c);
    var s1 := Expect(s, "[prop@40311 ver=").value;
    IntRest(s1, c);
    var s2 := ParseInt(s1).value.1;
    ExpectRest(s2, " probe=", c);
    var s3 := Expect(s2, " probe=").value;
    IntRest(s3, c);
    var s4 := ParseInt(s3).value.1;
    ExpectRest(s4, " token=\"", c);
    var s5 := Expect(s4, " token=\"").value;
    UntilRest(s5, '"', c);
    ExpectRest(Until(s5, '"').value.1, "][res1@40311 offset=", c);
  }

  /** A text without line feed is no line. */
  lemma LineNeedsLineFeed(s: string)
    requires Free(s, '\n')
    ensures ParseLine(s) == None
  {
    if ParseLine(s).Some? {
      ExpectRest(s, "<118>1 ", '\n');
      var s1 := Expect(s, "<118>1 ").value;
      UntilRest(s1, ' ', '\n');
      var s2 := Until(s1, ' ').value.1;
      HeaderRest(s2, '\n');
      var s3 := ParseHeader(s2).value.3;
      IntRest(s3, '\n');
      var s4 := ParseInt(s3).value.1;
      ExpectRest(s4, " ", '\n');
      var s5 := Expect(s4, " ").value;
      PropertiesRest(s5, '\n');
      var s6 := ParseProperties(s5).value.3;
      IntRest(s6, '\n');
      EndNeedsLineFeed(ParseInt(s6).value.1);
    }
  }

  lemma EndNeedsLineFeed(s: string)
    requires Free(s, '\n')
    ensures ParseEnd(s) == None
  {
    assert |s| >= 2 ==> s[|s| - 2..][1] == s[|s| - 1];
  }

  // ----- a stream of lines -----

  /** Text that ends with its only line feed. */
  predicate IsLine(l: string) { l != "" && l[|l| - 1] == '\n' && Free(l[..|l| - 1], '\n') }

  /** A reader of the stream: the complete lines, and the incomplete rest. */
  function SplitLines(s: string): (seq<string>, string)
    decreases |s|
  {
    var k := IndexOf(s, '\n');
    if k == |s| then ([], s) else
      var (more, rest) := SplitLines(s[k + 1..]);
      ([s[..k + 1]] + more, rest)
  }

  lemma {:induction false} SplitIsLossless(s: string)
    ensures Flatten(SplitLines(s).0) + SplitLines(s).1 == s
    decreases |s|
  {
    var k := IndexOf(s, '\n');
    if k < |s| {
      SplitIsLossless(s[k + 1..]);
      var (more, rest) := SplitLines(s[k + 1..]);
      assert SplitLines(s).0[1..] == more;
      assert s == s[..k + 1] + s[k + 1..];
    }
  }

  lemma {:induction false} SplitFlattened(ls: seq<string>)
    requires forall i :: 0 <= i < |ls| ==> IsLine(ls[i])
    ensures SplitLines(Flatten(ls)) == (ls, "")
  {
    if ls != [] {
      var l, more := ls[0], Flatten(ls[1..]);
      var body := l[..|l| - 1];
      assert l + more == body + ['\n'] + more;
      IndexOfIs(body, '\n', more);
      SplitFlattened(ls[1..]);
      var s := Flatten(ls);
      assert s[..|body| + 1] == l && s[|body| + 1..] == more;
      assert ls == [l] + ls[1..];
    }
  }

  function EmitAll(fulls: seq<string>): (ls: seq<string>)
    ensures |ls| == |fulls|
    ensures forall i :: 0 <= i < |ls| ==> ls[i] == Emitted(fulls[i])
  {
    if fulls == [] then [] else [Emitted(fulls[0])] + EmitAll(fulls[1..])
  }

  lemma {:induction false} EmittedLength(fulls: seq<string>)
    ensures |Flatten(EmitAll(fulls))| <= |Flatten(fulls)|
    ensures |Flatten(EmitAll(fulls))| == |Flatten(fulls)|
            <==> forall i :: 0 <= i < |fulls| ==> FitsLine(fulls[i])
  {
    if fulls != [] {
      EmittedLength(fulls[1..]);
      assert EmitAll(fulls)[1..] == EmitAll(fulls[1..]);
      assert (forall i :: 0 <= i < |fulls| ==> FitsLine(fulls[i]))
        <==> FitsLine(fulls[0]) && (forall i :: 0 <= i < |fulls[1..]| ==> FitsLine(fulls[1..][i])) by {
        forall i |
          0 < i < |fulls| && FitsLine(fulls[0]) && forall j :: 0 <= j < |fulls[1..]| ==> FitsLine(fulls[1..][j])
          ensures FitsLine(fulls[i])
        {
          assert fulls[i] == fulls[1..][i - 1];
        }
      }
    }
  }

  /** Framing: a reader of the concatenated messages gets back exactly the full lines if and only if
      no line was cut. */
  lemma StreamFraming(fulls: seq<string>)
    requires forall i :: 0 <= i < |fulls| ==> IsLine(fulls[i])
    ensures SplitLines(Flatten(EmitAll(fulls))) == (fulls, "")
            <==> forall i :: 0 <= i < |fulls| ==> FitsLine(fulls[i])
  {
    var wire := Flatten(EmitAll(fulls));
    EmittedLength(fulls);
    if forall i :: 0 <= i < |fulls| ==> FitsLine(fulls[i]) {
      assert EmitAll(fulls) == fulls;
      SplitFlattened(fulls);
    } else {
      SplitIsLossless(wire);
    }
  }

  /** One emitted text: a prefix of the full line; a line when it fits, without any line feed when not. */
  lemma EmittedText(full: string)
    requires IsLine(full)
    ensures Emitted(full) <= full && |Emitted(full)| == if |full| < 479 then |full| else 479
    ensures FitsLine(full) ==> IsLine(Emitted(full))
    ensures !FitsLine(full) ==> Free(Emitted(full), '\n') && SplitLines(Emitted(full)) == ([], Emitted(full))
  {
    if !FitsLine(full) {
      var e := Emitted(full);
      assert forall i :: 0 <= i < |e| ==> e[i] == full[..|full| - 1][i];
      var k := IndexOf(e, '\n');
    }
  }

  /** A cut line cannot be read. */
  lemma CutLineIsUnreadable(full: string)
    requires IsLine(full) && !FitsLine(full)
    ensures ParseLine(Emitted(full)) == None
  {
    EmittedText(full);
    LineNeedsLineFeed(Emitted(full));
  }

  predicate LineFeedFree(cfg: Config)
  {
    Free(cfg.hostname, '\n') && Free(cfg.appName, '\n') && Free(cfg.token, '\n')
  }

  lemma BeforeMsgIDFree(cfg: Config)
    requires LineFeedFree(cfg)
    ensures Free(BeforeMsgID(cfg), '\n')
  {
    DecimalFree(cfg.pID, '\n');
  }

  lemma AfterMsgIDFree(cfg: Config)
    requires LineFeedFree(cfg)
    ensures Free(AfterMsgID(cfg), '\n')
  {
    DecimalFree(cfg.transportMsgVersion, '\n');
    DecimalFree(AsInt32(cfg.probeID), '\n');
  }

  lemma ConcatFree(a: string, b: string, c: string, d: string, e: string, f: string, g: string)
    requires Free(a, '\n') && Free(b, '\n') && Free(c, '\n') && Free(d, '\n')
    requires Free(e, '\n') && Free(f, '\n') && Free(g, '\n')
    ensures Free("<118>1 " + a + " " + b + c + d + e + f + g, '\n')
  {
  }

  /** Hostname, name, token, time stamp and body without line feed make a line closed by `]`. */
  lemma FullLineIsLine(cfg: Config, timeVal: string, body: string, time: int, id: nat, now: int)
    requires LineFeedFree(cfg) && Free(timeVal, '\n') && Free(body, '\n')
    ensures var full := FullLine(timeVal, MakeElement(cfg, body, time), id, now);
            IsLine(full) && |full| >= 2 && full[|full| - 2] == ']'
  {
    BeforeMsgIDFree(cfg);
    AfterMsgIDFree(cfg);
    DecimalFree(id, '\n');
    DecimalFree(now - time, '\n');
    ClosedLine(timeVal, BeforeMsgID(cfg), Decimal(id), AfterMsgID(cfg), Decimal(now - time), body);
  }

  lemma ClosedLine(timeVal: string, before: string, id: string, after: string, offset: string, body: string)
    requires Free(timeVal, '\n') && Free(before, '\n') && Free(id, '\n') && Free(after, '\n')
    requires Free(offset, '\n') && Free(body, '\n')
    ensures var full := "<118>1 " + timeVal + " " + before + id + " " + after + offset + body + "]\n";
            IsLine(full) && |full| >= 2 && full[|full| - 2] == ']'
  {
    ConcatFree(timeVal, before, id, " ", after, offset, body);
    var front := "<118>1 " + timeVal + " " + before + id + " " + after + offset + body;
    var full := front + "]\n";
    assert full[..|full| - 1] == front + "]";
  }

  // ----- lengths -----

  lemma HeaderLengths(cfg: Config)
    requires Int32(cfg.pID) && cfg.transportMsgVersion < 256
    ensures |BeforeMsgID(cfg)| <= |cfg.hostname| + |cfg.appName| + 16
    ensures |AfterMsgID(cfg)| <= 66 + |cfg.token|
  {
    DecimalLength32(cfg.pID);
    DecimalLength32(AsInt32(cfg.probeID));
    assert Pow10(3) == 1000;
    NaturalLength(cfg.transportMsgVersion, 3);
    assert |"[prop@40311 ver="| == 16 && |"\"][res1@40311 offset="| == 21;
  }

  /** Condition on the configuration under which the header arrays of an element are large enough. */
  lemma HeadersFit(cfg: Config)
    requires Int32(cfg.pID) && cfg.transportMsgVersion < 256
    ensures |cfg.hostname| + |cfg.appName| <= 9983 ==> |BeforeMsgID(cfg)| < BUFFER_SIZE
    ensures |cfg.token| <= 9933 ==> |AfterMsgID(cfg)| < BUFFER_SIZE
  {
    HeaderLengths(cfg);
  }

  /** Header and body lengths of a line, and the condition under which it is not cut. */
  lemma LineLength(cfg: Config, timeVal: string, body: string, time: int, id: nat, now: int)
    requires Int32(cfg.pID) && cfg.transportMsgVersion < 256 && id <= 65535 && Int32(now - time)
    ensures var full := FullLine(timeVal, MakeElement(cfg, body, time), id, now);
            var free := |timeVal| + |cfg.hostname| + |cfg.appName| + |cfg.token| + |body|;
            |full| <= 109 + free && (free <= 370 ==> FitsLine(full))
  {
    HeaderLengths(cfg);
    DecimalLength32(now - time);
    assert Pow10(5) == 100000;
    NaturalLength(id, 5);
  }

  /** Condition on an item, the configuration and the time stamp under which the item's line is not cut. */
  lemma ItemLineFits(cfg: Config, esc: Escaper, item: Item, timeVal: string, id: nat, now: int)
    requires MeetsContract(esc) && CStringFields(item.fields)
    requires Int32(item.lotNum) && Int32(item.lineNum) && Int32Fields(item.fields)
    requires Int32(cfg.pID) && cfg.transportMsgVersion < 256 && id <= 65535 && Int32(now - item.time)
    requires |timeVal| + |cfg.hostname| + |cfg.appName| + |cfg.token|
             + 15 * |item.fields| + 3 * RawBytes(item.fields) <= 331
    ensures FitsLine(FullLine(timeVal, FormatItem(cfg, esc, item), id, now))
  {
    OffsetTextLength(esc, item);
    LineLength(cfg, timeVal, OffsetText(esc, item), item.time, id, now);
  }
}
