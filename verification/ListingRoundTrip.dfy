/** The installer reads back what the listing printer wrote: the splitter cuts one chunk per package, and
    the extraction commands return the printed fields exactly when no field is named like a key. */
module ListingRoundTrip {
  import opened Text
  import opened Words
  import opened Splitter
  import opened Extraction
  import opened ListingText
  import opened MockListing

  // ----- what the printed lines are -----

  predicate AllWell(ts: seq<Tabbed>) { forall i :: 0 <= i < |ts| ==> WellFormed(ts[i].line) }

  lemma NameKey() ensures Clean("name") {}

  lemma VersionKey() ensures Clean("version") && Clean("1") {}

  lemma PackageKey() ensures Clean("package") && Clean("id") {}

  lemma FilenameKey() ensures Clean("filename") {}

  lemma ContentKey() ensures Clean("content") {}

  lemma HeadWell(p: Pkg)
    requires Printable(p)
    ensures AllWell(HeadLines(p)) && AllWell(IdLines(p))
  {
    NameKey();
    VersionKey();
    PackageKey();
  }

  lemma FileWell(p: Pkg)
    requires Printable(p)
    ensures AllWell(FileLines(p))
  {
    FilenameKey();
    ContentKey();
    VersionKey();
  }

  lemma BracesWell(e: Entry)
    requires PrintableEntry(e)
    ensures WellFormed(Bare("{")) && WellFormed(Bare("}")) && WellFormed(Bare(e.close))
    ensures WellFormed(Open("package", "{"))
  {
    PackageKey();
  }

  lemma EntryWell(e: Entry)
    requires PrintableEntry(e)
    ensures AllWell(EntryLines(e))
  {
    HeadWell(e.pkg);
    FileWell(e.pkg);
    BracesWell(e);
  }

  function Texts(ts: seq<Tabbed>): (r: seq<string>)
    ensures |r| == |ts| && forall i :: 0 <= i < |ts| ==> r[i] == TextOf(ts[i].line)
  {
    TextsOf(Untabbed(ts))
  }

  /** The chunk that the splitter is to cut for a package. */
  function ChunkOf(e: Entry): seq<string> { Texts(EntryLines(e)) }

  lemma TextsConcat(a: seq<Tabbed>, b: seq<Tabbed>)
    ensures Texts(a + b) == Texts(a) + Texts(b) && Printed(a + b) == Printed(a) + Printed(b)
  {
  }

  // ----- blanks -----

  lemma NormaliseLine(n: nat, l: Line)
    requires WellFormed(l)
    ensures Normalise(Tabs(n) + TextOf(l)) == TextOf(l)
  {
    Indented(n, TextOf(l));
    match l {
      case Pair(key, value, tail) => TwoWords(Quoted(key) + ":", Quoted(value) + tail);
      case Open(key, rest) => TwoWords(Quoted(key) + ":", rest);
      case Bare(text) => OneWord(text);
    }
  }

  /** Reading the printed lines removes the tabs and nothing else. */
  lemma NormalisePrinted(ts: seq<Tabbed>)
    requires AllWell(ts)
    ensures NormaliseAll(Printed(ts)) == Texts(ts)
  {
    forall i | 0 <= i < |ts|
      ensures NormaliseAll(Printed(ts))[i] == Texts(ts)[i]
    {
      NormaliseLine(ts[i].tabs, ts[i].line);
    }
  }

  // ----- braces -----

  lemma {:induction false} CountConcat(a: string, b: string, c: char)
    ensures Count(a + b, c) == Count(a, c) + Count(b, c)
  {
    if a == "" {
      assert a + b == b;
    } else {
      assert (a + b)[1..] == a[1..] + b;
      CountConcat(a[1..], b, c);
    }
  }

  lemma {:induction false} CountFree(s: string, c: char)
    requires Free(s, c)
    ensures Count(s, c) == 0
  {
    if s != "" {
      CountFree(s[1..], c);
    }
  }

  lemma NetFree(s: string)
    requires Free(s, '{') && Free(s, '}')
    ensures Net(s) == 0
  {
    CountFree(s, '{');
    CountFree(s, '}');
  }

  lemma NetConcat(a: string, b: string)
    ensures Net(a + b) == Net(a) + Net(b)
  {
    CountConcat(a, b, '{');
    CountConcat(a, b, '}');
  }

  lemma {:induction false} NetSumConcat(a: seq<string>, b: seq<string>)
    ensures NetSum(a + b) == NetSum(a) + NetSum(b)
  {
    if b == [] {
      assert a + b == a;
    } else {
      assert (a + b)[..|a + b| - 1] == a + b[..|b| - 1];
      NetSumConcat(a, b[..|b| - 1]);
    }
  }

  /** Every prefix opens at least as many braces as it closes, and the whole is even. */
  predicate Balanced(lines: seq<string>)
  {
    NetSum(lines) == 0 && forall k :: 0 <= k <= |lines| ==> NetSum(lines[..k]) >= 0
  }

  lemma BalancedLine(line: string)
    requires Net(line) == 0
    ensures Balanced([line])
  {
    assert [line][..0] == [] && [line][..1] == [line];
  }

  lemma BalancedConcat(a: seq<string>, b: seq<string>)
    requires Balanced(a) && Balanced(b)
    ensures Balanced(a + b)
  {
    NetSumConcat(a, b);
    forall k | 0 <= k <= |a + b|
      ensures NetSum((a + b)[..k]) >= 0
    {
      if k <= |a| {
        assert (a + b)[..k] == a[..k];
      } else {
        assert (a + b)[..k] == a + b[..k - |a|];
        NetSumConcat(a, b[..k - |a|]);
      }
    }
  }

  lemma BraceAround(open: string, body: seq<string>, close: string, k: nat)
    requires Net(open) == 1 && Balanced(body) && k <= |body|
    ensures NetSum(([open] + body + [close])[..1 + k]) == 1 + NetSum(body[..k]) >= 1
  {
    assert ([open] + body + [close])[..1 + k] == [open] + body[..k];
    NetSumConcat([open], body[..k]);
    assert [open][..0] == [];
  }

  /** Balanced lines in a pair of braces stay balanced, and are a whole chunk. */
  lemma BalancedWrap(open: string, body: seq<string>, close: string)
    requires Net(open) == 1 && Net(close) == -1 && Balanced(body)
    ensures Balanced([open] + body + [close]) && Irreducible([open] + body + [close])
  {
    var s := [open] + body + [close];
    BraceAround(open, body, close, |body|);
    assert body[..|body|] == body && s[..|s| - 1] == s[..1 + |body|];
    assert NetSum(s) == 0;
    forall k | 0 < k < |s|
      ensures NetSum(s[..k]) >= 1
    {
      BraceAround(open, body, close, k - 1);
    }
    assert s[..0] == [] && s[..|s|] == s;
    var front := s[..|s| - 1];
    forall k | 0 < k <= |front|
      ensures NetSum(front[..k]) != 0
    {
      assert front[..k] == s[..k];
    }
  }

  lemma PairNet(l: Line)
    requires WellFormed(l) && l.Pair?
    ensures Net(TextOf(l)) == 0
  {
    NetFree(TextOf(l));
  }

  lemma {:induction false} BalancedFlat(lines: seq<string>)
    requires forall i :: 0 <= i < |lines| ==> Net(lines[i]) == 0
    ensures Balanced(lines)
  {
    if lines != [] {
      var front, line := lines[..|lines| - 1], lines[|lines| - 1];
      BalancedFlat(front);
      BalancedLine(line);
      BalancedConcat(front, [line]);
      assert lines == front + [line];
    }
  }

  /** Pairs open and close no brace. */
  lemma BalancedPairs(ts: seq<Tabbed>)
    requires AllWell(ts) && forall i :: 0 <= i < |ts| ==> ts[i].line.Pair?
    ensures Balanced(Texts(ts))
  {
    forall i | 0 <= i < |ts|
      ensures Net(Texts(ts)[i]) == 0
    {
      PairNet(ts[i].line);
    }
    BalancedFlat(Texts(ts));
  }

  lemma OpenNet(key: string, rest: string)
    requires Clean(key)
    ensures Net(TextOf(Open(key, rest))) == Net(rest)
  {
    NetFree(Quoted(key) + ":" + " ");
    NetConcat(Quoted(key) + ":" + " ", rest);
  }

  lemma BraceNets()
    ensures Net("{") == 1 && Net("}") == -1 && Net("},") == -1
    ensures !HasBracket("{") && HasBracket("[") && HasBracket("]")
  {
    assert "{"[1..] == "" && "}"[1..] == "" && "},"[1..] == "," && ","[1..] == "" && "["[1..] == "" && "]"[1..] == "";
  }

  /** Lines in a pair of braces are balanced, and are a whole chunk, when the lines between are balanced. */
  lemma Wrapped(open: Tabbed, body: seq<Tabbed>, close: Tabbed)
    requires Net(TextOf(open.line)) == 1 && Net(TextOf(close.line)) == -1 && Balanced(Texts(body))
    ensures Balanced(Texts([open] + body + [close])) && Irreducible(Texts([open] + body + [close]))
  {
    BalancedWrap(TextOf(open.line), Texts(body), TextOf(close.line));
    assert Texts([open] + body + [close]) == [TextOf(open.line)] + Texts(body) + [TextOf(close.line)];
  }

  lemma Joined(a: seq<Tabbed>, b: seq<Tabbed>)
    requires Balanced(Texts(a)) && Balanced(Texts(b))
    ensures Balanced(Texts(a + b))
  {
    BalancedConcat(Texts(a), Texts(b));
    TextsConcat(a, b);
  }

  lemma ContentBalanced(p: Pkg)
    requires Printable(p)
    ensures Balanced(Texts(ContentLines(p)))
  {
    HeadWell(p);
    FileWell(p);
    BalancedPairs(HeadLines(p));
    BalancedPairs(FileLines(p));
    PackageKey();
    OpenNet("package", "{");
    BraceNets();
    Wrapped(Tabbed(1, Open("package", "{")), FileLines(p), Tabbed(1, Bare("}")));
    Joined(HeadLines(p), [Tabbed(1, Open("package", "{"))] + FileLines(p) + [Tabbed(1, Bare("}"))]);
  }

  lemma IdBalanced(p: Pkg)
    requires Printable(p)
    ensures Balanced(Texts(IdLines(p)))
  {
    if p.id.Some? {
      PackageKey();
      OpenNet("id", p.id.value + ",");
      NetFree(p.id.value + ",");
      BalancedLine(TextOf(Open("id", p.id.value + ",")));
      assert Texts(IdLines(p)) == [TextOf(Open("id", p.id.value + ","))];
    }
  }

  /** A printed package is one chunk for the splitter. */
  lemma PackageIsChunk(e: Entry)
    requires PrintableEntry(e)
    ensures Irreducible(ChunkOf(e)) && !HasBracket(ChunkOf(e)[0])
  {
    BraceNets();
    IdBalanced(e.pkg);
    ContentBalanced(e.pkg);
    Joined(IdLines(e.pkg), ContentLines(e.pkg));
    Wrapped(Tabbed(0, Bare("{")), IdLines(e.pkg) + ContentLines(e.pkg), Tabbed(0, Bare(e.close)));
  }

  // ----- the splitter on the printed listing -----

  predicate PrintableEntries(es: seq<Entry>) { forall i :: 0 <= i < |es| ==> PrintableEntry(es[i]) }

  function ChunksOf(es: seq<Entry>): (cs: seq<seq<string>>)
    ensures |cs| == |es| && forall i :: 0 <= i < |es| ==> cs[i] == ChunkOf(es[i])
  {
    seq(|es|, i requires 0 <= i < |es| => ChunkOf(es[i]))
  }

  lemma {:induction false} EntriesWell(es: seq<Entry>)
    requires PrintableEntries(es)
    ensures AllWell(EntriesLines(es))
  {
    if es != [] {
      EntriesWell(es[..|es| - 1]);
      EntryWell(es[|es| - 1]);
    }
  }

  lemma {:induction false} EntriesTexts(es: seq<Entry>)
    ensures Texts(EntriesLines(es)) == Flatten(ChunksOf(es))
  {
    if es != [] {
      var front, e := es[..|es| - 1], es[|es| - 1];
      EntriesTexts(front);
      TextsConcat(EntriesLines(front), EntryLines(e));
      FlattenSnoc(ChunksOf(front), ChunkOf(e));
      assert ChunksOf(es) == ChunksOf(front) + [ChunkOf(e)];
    }
  }

  lemma EntriesSplit(es: seq<Entry>)
    requires PrintableEntries(es)
    ensures CutAll(START, NormaliseAll(Printed(EntriesLines(es)))) == Cut(0, [], ChunksOf(es))
  {
    EntriesWell(es);
    NormalisePrinted(EntriesLines(es));
    EntriesTexts(es);
    forall i | 0 <= i < |es|
      ensures Irreducible(ChunksOf(es)[i]) && !HasBracket(ChunksOf(es)[i][0])
    {
      PackageIsChunk(es[i]);
    }
    AbsorbChunks(ChunksOf(es));
  }

  lemma BracketSkipped(st: Cut, bracket: string)
    requires st.count == 0 && (bracket == "[" || bracket == "]")
    ensures CutAll(st, NormaliseAll([bracket])) == st
  {
    BraceNets();
    OneWord(bracket);
    assert NormaliseAll([bracket]) == [bracket] && [bracket][1..] == [];
    assert CutLine(st, bracket) == st;
  }

  /** Splitter round trip: a printed listing is cut into one chunk per package, in order, and nothing is
      left over. */
  lemma ListingSplits(es: seq<Entry>)
    requires PrintableEntries(es)
    ensures CutAll(START, NormaliseAll(RawListing(es))) == Cut(0, [], ChunksOf(es))
  {
    var raw := Printed(EntriesLines(es));
    NormaliseConcat(["["] + raw, ["]"]);
    NormaliseConcat(["["], raw);
    CutConcat(START, NormaliseAll(["["]) + NormaliseAll(raw), NormaliseAll(["]"]));
    CutConcat(START, NormaliseAll(["["]), NormaliseAll(raw));
    BracketSkipped(START, "[");
    EntriesSplit(es);
    BracketSkipped(Cut(0, [], ChunksOf(es)), "]");
  }

  // ----- field extraction -----

  predicate AllAre(xs: seq<string>, w: string) { forall i :: 0 <= i < |xs| ==> xs[i] == w }

  /** Lines found beside the wanted one spoil the extracted value. */
  lemma OnlyAlone(a: seq<string>, v: string, b: seq<string>, w: string)
    requires AllAre(a, w) && AllAre(b, w) && w != "" && Free(w, '\n') && Free(v, '\n')
    ensures var r := Substituted(Output(a + [v] + b));
            && (r == v <==> a == [] && b == [])
            && (r == "" <==> v == "" && a == [] && b == [])
  {
    if b != [] {
      assert a + [v] + b == (a + [v]) + [b[0]] + b[1..];
      LongOutput(a + [v], b[0], b[1..]);
      OutputConcat(a, [v]);
      assert [v][1..] == [];
    } else if a != [] {
      if v == "" {
        assert a + [v] + b == [] + [a[0]] + (a[1..] + [v] + b);
        LongOutput([], a[0], a[1..] + [v] + b);
      } else {
        LongOutput(a, v, b);
      }
    } else {
      assert a + [v] + b == [v];
      SingleOutput(v);
    }
  }

  function When(b: bool, w: string): seq<string> { if b then [w] else [] }

  lemma {:induction false} MatchedConcat(a: seq<Tabbed>, b: seq<Tabbed>, w: string)
    ensures Matched(Untabbed(a + b), w) == Matched(Untabbed(a), w) + Matched(Untabbed(b), w)
  {
    if a == [] {
      assert a + b == b;
    } else {
      assert Untabbed(a + b)[1..] == Untabbed(a[1..] + b);
      assert Untabbed(a)[1..] == Untabbed(a[1..]);
      MatchedConcat(a[1..], b, w);
    }
  }

  lemma MatchedOne(t: Tabbed, w: string)
    ensures Matched(Untabbed([t]), w)
         == if t.line.Pair? && (t.line.key == w || t.line.value == w) then [t.line.value] else []
  {
    assert Untabbed([t]) == [t.line] && [t.line][1..] == [];
  }

  lemma KeysDiffer(w: string)
    requires w == "filename" || w == "content"
    ensures w != "name" && w != "version" && w != "package" && w != "id" && w != "1" && w != "" && w != ": "
    ensures Free(w, QUOTE) && Free(w, '\n')
  {
    assert w[0] == 'f' || w[0] == 'c';
  }

  lemma MatchedHead(p: Pkg, w: string)
    requires w == "filename" || w == "content"
    ensures Matched(Untabbed(HeadLines(p)), w) == When(p.name == w, w) + When(p.version == w, w)
  {
    KeysDiffer(w);
    var a, b := HeadLines(p)[0], HeadLines(p)[1];
    assert HeadLines(p) == [a] + [b];
    MatchedConcat([a], [b], w);
    MatchedOne(a, w);
    MatchedOne(b, w);
  }

  lemma MatchedFile(p: Pkg, w: string)
    requires w == "filename" || w == "content"
    ensures Matched(Untabbed(FileLines(p)), w)
         == if w == "filename" then [p.filename] + When(p.content == w, w) else When(p.filename == w, w) + [p.content]
  {
    KeysDiffer(w);
    var a, b, c := FileLines(p)[0], FileLines(p)[1], FileLines(p)[2];
    assert FileLines(p) == [a] + ([b] + [c]);
    MatchedConcat([a], [b] + [c], w);
    MatchedConcat([b], [c], w);
    MatchedOne(a, w);
    MatchedOne(b, w);
    MatchedOne(c, w);
  }

  lemma Bracketed(open: Tabbed, body: seq<Tabbed>, close: Tabbed, w: string)
    requires !open.line.Pair? && !close.line.Pair?
    ensures Matched(Untabbed([open] + body + [close]), w) == Matched(Untabbed(body), w)
  {
    MatchedConcat([open] + body, [close], w);
    MatchedConcat([open], body, w);
    MatchedOne(open, w);
    MatchedOne(close, w);
  }

  lemma MatchedId(p: Pkg, w: string)
    ensures Matched(Untabbed(IdLines(p)), w) == []
  {
    if p.id.Some? {
      MatchedOne(IdLines(p)[0], w);
      assert IdLines(p) == [IdLines(p)[0]];
    }
  }

  /** The field that a key stands for, and the matching values in front of it and behind it. */
  function FieldUnder(p: Pkg, w: string): string { if w == "filename" then p.filename else p.content }

  function Before(p: Pkg, w: string): seq<string>
  {
    When(p.name == w, w) + When(p.version == w, w) + When(w == "content" && p.filename == w, w)
  }

  function After(p: Pkg, w: string): seq<string> { When(w == "filename" && p.content == w, w) }

  lemma Around(h: seq<string>, f: seq<string>, v: seq<string>, c: seq<string>)
    ensures h + (v + c) == h + [] + v + c && h + (f + v) == h + f + v + []
  {
  }

  lemma HeadAndFile(p: Pkg, w: string)
    requires w == "filename" || w == "content"
    ensures Matched(Untabbed(HeadLines(p)), w) + Matched(Untabbed(FileLines(p)), w)
         == Before(p, w) + [FieldUnder(p, w)] + After(p, w)
  {
    KeysDiffer(w);
    MatchedHead(p, w);
    MatchedFile(p, w);
    Around(When(p.name == w, w) + When(p.version == w, w), When(p.filename == w, w), [FieldUnder(p, w)],
           When(p.content == w, w));
  }

  /** The values that the search for a key finds in a package. */
  lemma MatchedEntry(e: Entry, w: string)
    requires w == "filename" || w == "content"
    ensures Matched(Untabbed(EntryLines(e)), w) == Before(e.pkg, w) + [FieldUnder(e.pkg, w)] + After(e.pkg, w)
  {
    var p := e.pkg;
    var open, close := Tabbed(1, Open("package", "{")), Tabbed(1, Bare("}"));
    Bracketed(Tabbed(0, Bare("{")), IdLines(p) + ContentLines(p), Tabbed(0, Bare(e.close)), w);
    MatchedConcat(IdLines(p), ContentLines(p), w);
    MatchedId(p, w);
    MatchedConcat(HeadLines(p), [open] + FileLines(p) + [close], w);
    Bracketed(open, FileLines(p), close, w);
    HeadAndFile(p, w);
  }

  lemma OpenKeys(e: Entry, w: string)
    requires PrintableEntry(e) && (w == "filename" || w == "content")
    ensures forall i :: 0 <= i < |EntryLines(e)| ==> EntryLines(e)[i].line.Open? ==> EntryLines(e)[i].line.key != w
  {
    KeysDiffer(w);
  }

  /** The temporary file starts with a blank line, which matches nothing. */
  lemma BlankLineFirst(lines: seq<string>, w: string)
    ensures Grep([""] + lines, w) == Grep(lines, w)
  {
    assert ([""] + lines)[1..] == lines;
  }

  lemma ExtractedMatches(e: Entry, w: string)
    requires PrintableEntry(e) && (w == "filename" || w == "content")
    ensures Extract(ChunkOf(e), w) == Substituted(Output(Before(e.pkg, w) + [FieldUnder(e.pkg, w)] + After(e.pkg, w)))
  {
    KeysDiffer(w);
    EntryWell(e);
    OpenKeys(e, w);
    BlankLineFirst(ChunkOf(e), w);
    GrepLines(Untabbed(EntryLines(e)), w);
    MatchedEntry(e, w);
  }

  lemma FieldIsLine(p: Pkg, w: string)
    requires Printable(p)
    ensures Free(FieldUnder(p, w), '\n')
  {
  }

  lemma AroundAre(p: Pkg, w: string)
    ensures AllAre(Before(p, w), w) && AllAre(After(p, w), w)
  {
  }

  lemma FieldComesBack(e: Entry, w: string)
    requires PrintableEntry(e) && (w == "filename" || w == "content")
    ensures var r, v := Extract(ChunkOf(e), w), FieldUnder(e.pkg, w);
            && (r == v <==> Before(e.pkg, w) == [] && After(e.pkg, w) == [])
            && (r == "" <==> v == "" && Before(e.pkg, w) == [] && After(e.pkg, w) == [])
  {
    KeysDiffer(w);
    FieldIsLine(e.pkg, w);
    ExtractedMatches(e, w);
    AroundAre(e.pkg, w);
    OnlyAlone(Before(e.pkg, w), FieldUnder(e.pkg, w), After(e.pkg, w), w);
  }

  /** No other field reads like the key of the file name. */
  predicate FilenameIsClear(p: Pkg) { p.name != "filename" && p.version != "filename" && p.content != "filename" }

  /** No other field reads like the key of the content. */
  predicate ContentIsClear(p: Pkg) { p.name != "content" && p.version != "content" && p.filename != "content" }

  lemma ClearMeans(p: Pkg)
    ensures FilenameIsClear(p) <==> Before(p, "filename") == [] && After(p, "filename") == []
    ensures ContentIsClear(p) <==> Before(p, "content") == [] && After(p, "content") == []
  {
    assert "filename" != "content";
  }

  /** Field round trip: the printed file name comes back exactly when no other field reads `filename`. */
  lemma FilenameComesBack(e: Entry)
    requires PrintableEntry(e)
    ensures Extract(ChunkOf(e), "filename") == e.pkg.filename <==> FilenameIsClear(e.pkg)
  {
    FieldComesBack(e, "filename");
    ClearMeans(e.pkg);
  }

  /** Field round trip: the printed content comes back exactly when no other field reads `content`; it is
      taken for missing exactly when it is empty and no other field reads `content`. */
  lemma ContentComesBack(e: Entry)
    requires PrintableEntry(e)
    ensures Extract(ChunkOf(e), "content") == e.pkg.content <==> ContentIsClear(e.pkg)
    ensures Supported(ChunkOf(e)) <==> e.pkg.content != "" || !ContentIsClear(e.pkg)
  {
    FieldComesBack(e, "content");
    ClearMeans(e.pkg);
  }

  lemma TwoLines(x: string, y: string)
    requires y != "" && Free(y, '\n')
    ensures Substituted(Output([x, y])) == x + "\n" + y
  {
    OutputConcat([x], [y]);
    assert [x] + [y] == [x, y] && [x][1..] == [] && [y][1..] == [];
    assert Output([x]) == x + "\n" && Output([y]) == y + "\n";
    assert x + "\n" + (y + "\n") == (x + "\n" + y) + "\n";
    assert ((x + "\n" + y) + "\n")[..|x + "\n" + y|] == x + "\n" + y;
    assert (x + "\n" + y)[|x + "\n" + y| - 1] == y[|y| - 1];
  }

  lemma EchoedTogether(x: string, y: string)
    requires AreWords([x, y])
    ensures Normalise(x + "\n" + y) == x + " " + y
  {
    assert [x, y][0] == x && [x, y][1] == y;
    assert x + "\n" + y == x + ("\n" + y) && ("\n" + y)[1..] == y;
    WordThen(x, "\n" + y);
    OneWord(y);
    assert WordsOf(x + "\n" + y) == [x, y] && [x, y][1..] == [y];
  }

  /** The file name of a package named `filename` comes back behind the name, and so does its type. */
  lemma NameFoundToo(e: Entry)
    requires PrintableEntry(e) && ContentIsClear(e.pkg) && AreWords([e.pkg.filename])
    requires e.pkg.name == "filename" && e.pkg.version != "filename" && e.pkg.content != "filename"
    ensures Extract(ChunkOf(e), "filename") == "filename\n" + e.pkg.filename
    ensures Normalise(Extract(ChunkOf(e), "filename")) == "filename " + e.pkg.filename
    ensures Extract(ChunkOf(e), "content") == e.pkg.content
  {
    assert [e.pkg.filename][0] == e.pkg.filename;
    FilenameKey();
    ContentComesBack(e);
    ExtractedMatches(e, "filename");
    assert Before(e.pkg, "filename") + [e.pkg.filename] + After(e.pkg, "filename") == ["filename", e.pkg.filename];
    TwoLines("filename", e.pkg.filename);
    EchoedTogether("filename", e.pkg.filename);
  }

  /** A package named `filename` is not read back: the search for its file name also finds its name. */
  lemma NamedLikeAKey()
    ensures var e := Entry(Pkg(None, "filename", "1", "a", "b"), "}");
            PrintableEntry(e) && Extract(ChunkOf(e), "filename") != e.pkg.filename
  {
    var e := Entry(Pkg(None, "filename", "1", "a", "b"), "}");
    FilenameKey();
    FilenameComesBack(e);
  }

  // ----- the whole installation -----

  /** The package as it should be installed. */
  function Wanted(e: Entry): Package { Package(e.pkg.filename, Extension(e.pkg.filename), e.pkg.content) }

  predicate Clear(es: seq<Entry>)
  {
    forall i :: 0 <= i < |es| ==> FilenameIsClear(es[i].pkg) && ContentIsClear(es[i].pkg)
  }

  function WantedAll(es: seq<Entry>): (r: seq<Package>)
    ensures |r| == |es| && forall i :: 0 <= i < |es| ==> r[i] == Wanted(es[i])
  {
    seq(|es|, i requires 0 <= i < |es| => Wanted(es[i]))
  }

  lemma FilenameIsEchoed(p: Pkg)
    requires Printable(p)
    ensures Normalise(p.filename) == p.filename
  {
    EchoedAsIs(p.filename);
  }

  lemma PackageComesBack(e: Entry)
    requires PrintableEntry(e) && FilenameIsClear(e.pkg) && ContentIsClear(e.pkg)
    ensures PackageOf(ChunkOf(e)) == Wanted(e)
  {
    FilenameComesBack(e);
    FilenameIsEchoed(e.pkg);
    ContentComesBack(e);
  }

  lemma PackagesComeBack(es: seq<Entry>)
    requires PrintableEntries(es) && Clear(es)
    ensures PackagesOf(ChunksOf(es)) == WantedAll(es)
  {
    forall i | 0 <= i < |es|
      ensures PackagesOf(ChunksOf(es))[i] == WantedAll(es)[i]
    {
      PackageComesBack(es[i]);
    }
  }

  /** Has the package content, and is there a tool for the type in its file name? */
  predicate Installable(tools: Tools, e: Entry)
  {
    e.pkg.content != "" && CanInstall(tools, Extension(e.pkg.filename))
  }

  /** Number of packages before the first one that cannot be installed. */
  function InstallablePrefix(tools: Tools, es: seq<Entry>): (n: nat)
    ensures n <= |es|
  {
    PrefixWhile(e => Installable(tools, e), es)
  }

  /** How the installation of the packages should end. */
  function OutcomeFor(tools: Tools, es: seq<Entry>): Outcome
  {
    var n := InstallablePrefix(tools, es);
    if n == |es| then Completed else if es[n].pkg.content != "" then NotInstallable else NotSupported
  }

  lemma AcceptedIff(tools: Tools, e: Entry)
    requires PrintableEntry(e) && FilenameIsClear(e.pkg) && ContentIsClear(e.pkg)
    ensures Accepted(tools, ChunkOf(e)) <==> Installable(tools, e)
    ensures Supported(ChunkOf(e)) <==> e.pkg.content != ""
  {
    PackageComesBack(e);
    ContentComesBack(e);
  }

  lemma OutcomesAgree(tools: Tools, es: seq<Entry>)
    requires PrintableEntries(es) && Clear(es)
    ensures AcceptedPrefix(tools, ChunksOf(es)) == InstallablePrefix(tools, es)
    ensures OutcomeAt(tools, ChunksOf(es)) == OutcomeFor(tools, es)
  {
    forall i | 0 <= i < |es|
      ensures Accepted(tools, ChunksOf(es)[i]) <==> Installable(tools, es[i])
      ensures Supported(ChunksOf(es)[i]) <==> es[i].pkg.content != ""
    {
      AcceptedIff(tools, es[i]);
    }
    PrefixSize(tools, ChunksOf(es), InstallablePrefix(tools, es));
  }

  lemma PrefixesAgree(es: seq<Entry>, n: nat)
    requires n <= |es| && PackagesOf(ChunksOf(es)) == WantedAll(es)
    ensures PackagesOf(ChunksOf(es)[..n]) == WantedAll(es[..n])
  {
    assert PackagesOf(ChunksOf(es)[..n]) == PackagesOf(ChunksOf(es))[..n];
    assert WantedAll(es[..n]) == WantedAll(es)[..n];
  }

  /** Installer round trip: for every printed listing whose fields do not read like keys, the installer
      takes the printed packages in order, up to the first one without content or without a tool. */
  lemma InstallsWhatWasPrinted(tools: Tools, es: seq<Entry>)
    requires PrintableEntries(es) && Clear(es)
    ensures var chunks := CutAll(START, NormaliseAll(RawListing(es))).chunks;
            && |chunks| == |es| && AcceptedPrefix(tools, chunks) == InstallablePrefix(tools, es)
            && OutcomeAt(tools, chunks) == OutcomeFor(tools, es)
            && PackagesOf(chunks[..InstallablePrefix(tools, es)]) == WantedAll(es[..InstallablePrefix(tools, es)])
  {
    ListingSplits(es);
    OutcomesAgree(tools, es);
    PackagesComeBack(es);
    PrefixesAgree(es, InstallablePrefix(tools, es));
  }

  /** Can the host install a file of this name? */
  predicate HostTakes(tools: Tools, filename: string)
  {
    (tools.dpkg && tools.aptGet && IsFileOf(filename, "deb")) || (tools.yum && IsFileOf(filename, "rpm"))
  }

  /** Has every package content and a file name that the host can install? */
  predicate HostTakesAll(tools: Tools, es: seq<Entry>)
  {
    forall i :: 0 <= i < |es| ==> es[i].pkg.content != "" && HostTakes(tools, es[i].pkg.filename)
  }

  lemma InstallableIff(tools: Tools, e: Entry)
    ensures Installable(tools, e) <==> e.pkg.content != "" && HostTakes(tools, e.pkg.filename)
  {
    ExtensionIff(e.pkg.filename, "deb");
    ExtensionIff(e.pkg.filename, "rpm");
    assert "deb"[0] != "rpm"[0];
  }

  /** The installation of a printed listing is completed if and only if every package has content and a file
      name that ends in `.deb`, on a host with dpkg and apt-get, or in `.rpm`, on one with yum. */
  lemma CompletesIff(tools: Tools, es: seq<Entry>)
    requires PrintableEntries(es) && Clear(es)
    ensures OutcomeAt(tools, CutAll(START, NormaliseAll(RawListing(es))).chunks) == Completed
            <==> HostTakesAll(tools, es)
  {
    InstallsWhatWasPrinted(tools, es);
    forall i | 0 <= i < |es|
      ensures Installable(tools, es[i]) <==> es[i].pkg.content != "" && HostTakes(tools, es[i].pkg.filename)
    {
      InstallableIff(tools, es[i]);
    }
    PrefixWhileAll(e => Installable(tools, e), es);
  }

  /** Without dpkg or apt-get, and without yum, nothing is installed. */
  lemma NothingWithoutTools(tools: Tools, es: seq<Entry>)
    requires PrintableEntries(es) && Clear(es) && !(tools.dpkg && tools.aptGet) && !tools.yum
    ensures AcceptedPrefix(tools, CutAll(START, NormaliseAll(RawListing(es))).chunks) == 0
  {
    InstallsWhatWasPrinted(tools, es);
  }

  /** Are these the files of the common package, the probe and the addons, in this order? */
  predicate AllInstalled(installed: seq<Package>, common: Pkg, probe: Pkg, addons: seq<Pkg>)
  {
    && |installed| == 2 + |addons|
    && installed[0].filename == common.filename && installed[0].content == common.content
    && installed[1].filename == probe.filename && installed[1].content == probe.content
    && forall i :: 0 <= i < |addons| ==>
         installed[2 + i].filename == addons[i].filename && installed[2 + i].content == addons[i].content
  }

  lemma MockOrder(common: Pkg, probe: Pkg, addons: seq<Pkg>)
    ensures AllInstalled(WantedAll(MockEntries(common, probe, addons)), common, probe, addons)
  {
  }

  lemma CompletedIsAll(tools: Tools, es: seq<Entry>)
    requires OutcomeFor(tools, es) == Completed
    ensures es[..InstallablePrefix(tools, es)] == es
  {
  }

  /** The mock server's listing, printed and then installed. */
  method PrintAndInstall(common: Pkg, probe: Pkg, addons: seq<Pkg>, tools: Tools)
    returns (installed: seq<Package>, outcome: Outcome)
    requires PrintableEntries(MockEntries(common, probe, addons)) && Clear(MockEntries(common, probe, addons))
    ensures var es := MockEntries(common, probe, addons);
            installed == WantedAll(es[..InstallablePrefix(tools, es)]) && outcome == OutcomeFor(tools, es)
    ensures outcome == Completed <==> HostTakesAll(tools, MockEntries(common, probe, addons))
    ensures outcome == Completed ==> AllInstalled(installed, common, probe, addons)
  {
    ghost var es := MockEntries(common, probe, addons);
    var file := Get(common, probe, addons);
    installed, outcome := Install(file, tools);
    InstallsWhatWasPrinted(tools, es);
    CompletesIff(tools, es);
    if outcome == Completed {
      CompletedIsAll(tools, es);
      MockOrder(common, probe, addons);
    }
  }
}
