/** The printer of the package listing. */
module MockListing {
  import opened Text
  import opened ListingText
  import opened Words

  /** A package as the mock server prints it; only addons and the probe carry an identifier. */
  datatype Pkg = Pkg(id: Option<string>, name: string, version: string, filename: string, content: string)

  /** A package with what follows it: its closing brace, and in some places a comma. */
  datatype Entry = Entry(pkg: Pkg, close: string)

  /** A line and the number of tabs before it. */
  datatype Tabbed = Tabbed(tabs: nat, line: Line)

  predicate Printable(p: Pkg)
  {
    (p.id.Some? ==> Clean(p.id.value)) && Clean(p.name) && Clean(p.version) && Clean(p.filename) && Clean(p.content)
  }

  predicate PrintableEntry(e: Entry) { Printable(e.pkg) && (e.close == "}," || e.close == "}") }

  // ----- the lines of a package -----

  function IdLines(p: Pkg): seq<Tabbed>
  {
    if p.id.Some? then [Tabbed(1, Open("id", p.id.value + ","))] else []
  }

  function HeadLines(p: Pkg): seq<Tabbed>
  {
    [Tabbed(1, Pair("name", p.name, ",")), Tabbed(1, Pair("version", p.version, ","))]
  }

  function FileLines(p: Pkg): seq<Tabbed>
  {
    [Tabbed(2, Pair("filename", p.filename, ",")), Tabbed(2, Pair("content", p.content, ",")),
     Tabbed(2, Pair("version", "1", ""))]
  }

  function ContentLines(p: Pkg): seq<Tabbed>
  {
    HeadLines(p) + ([Tabbed(1, Open("package", "{"))] + FileLines(p) + [Tabbed(1, Bare("}"))])
  }

  function EntryLines(e: Entry): seq<Tabbed>
  {
    [Tabbed(0, Bare("{"))] + (IdLines(e.pkg) + ContentLines(e.pkg)) + [Tabbed(0, Bare(e.close))]
  }

  function Printed(ts: seq<Tabbed>): (r: seq<string>)
    ensures |r| == |ts| && forall i :: 0 <= i < |ts| ==> r[i] == Tabs(ts[i].tabs) + TextOf(ts[i].line)
  {
    seq(|ts|, i requires 0 <= i < |ts| => Tabs(ts[i].tabs) + TextOf(ts[i].line))
  }

  function Untabbed(ts: seq<Tabbed>): (r: seq<Line>)
    ensures |r| == |ts| && forall i :: 0 <= i < |ts| ==> r[i] == ts[i].line
  {
    seq(|ts|, i requires 0 <= i < |ts| => ts[i].line)
  }

  /** The lines of the listing, without its brackets. */
  function EntriesLines(es: seq<Entry>): seq<Tabbed>
  {
    if es == [] then [] else EntriesLines(es[..|es| - 1]) + EntryLines(es[|es| - 1])
  }

  /** The printed listing. */
  function RawListing(es: seq<Entry>): seq<string> { ["["] + Printed(EntriesLines(es)) + ["]"] }

  function AddonEntries(addons: seq<Pkg>): seq<Entry>
  {
    seq(|addons|, i requires 0 <= i < |addons| => Entry(addons[i], "}"))
  }

  /** The entries of the mock: the common package and the probe are followed by a comma, addons are not. */
  function MockEntries(common: Pkg, probe: Pkg, addons: seq<Pkg>): seq<Entry>
  {
    [Entry(common, "},"), Entry(probe, "},")] + AddonEntries(addons)
  }

  /** The lines of a package, one by one. */
  lemma EntryLinesAre(e: Entry)
    ensures var p, ls, n := e.pkg, EntryLines(e), if e.pkg.id.Some? then 1 else 0;
            && |ls| == 9 + n
            && ls[0] == Tabbed(0, Bare("{"))
            && (p.id.Some? ==> ls[1] == Tabbed(1, Open("id", p.id.value + ",")))
            && ls[1 + n] == Tabbed(1, Pair("name", p.name, ","))
            && ls[2 + n] == Tabbed(1, Pair("version", p.version, ","))
            && ls[3 + n] == Tabbed(1, Open("package", "{"))
            && ls[4 + n] == Tabbed(2, Pair("filename", p.filename, ","))
            && ls[5 + n] == Tabbed(2, Pair("content", p.content, ","))
            && ls[6 + n] == Tabbed(2, Pair("version", "1", ""))
            && ls[7 + n] == Tabbed(1, Bare("}"))
            && ls[8 + n] == Tabbed(0, Bare(e.close))
  {
  }

  // ----- printing line by line -----

  /** Appends a line to the file that holds `base` and the lines `done`. */
  method Echo(file: seq<string>, ghost base: seq<string>, ghost done: seq<Tabbed>, t: Tabbed)
    returns (longer: seq<string>)
    requires file == base + Printed(done)
    ensures longer == base + Printed(done + [t])
  {
    longer := file + [Tabs(t.tabs) + TextOf(t.line)];
  }

  method Head(file: seq<string>, ghost base: seq<string>, ghost done: seq<Tabbed>, p: Pkg) returns (longer: seq<string>)
    requires file == base + Printed(done)
    ensures longer == base + Printed(done + HeadLines(p))
  {
    var a, b := Tabbed(1, Pair("name", p.name, ",")), Tabbed(1, Pair("version", p.version, ","));
    longer := Echo(file, base, done, a);
    longer := Echo(longer, base, done + [a], b);
    assert done + [a] + [b] == done + HeadLines(p);
  }

  /** The lines common to all packages. */
  method JsonContent(file: seq<string>, ghost base: seq<string>, ghost done: seq<Tabbed>, p: Pkg)
    returns (longer: seq<string>)
    requires file == base + Printed(done)
    ensures longer == base + Printed(done + ContentLines(p))
  {
    longer := Head(file, base, done, p);
    ghost var sofar := done + HeadLines(p);
    var a, b := Tabbed(1, Open("package", "{")), Tabbed(2, Pair("filename", p.filename, ","));
    var c, d := Tabbed(2, Pair("content", p.content, ",")), Tabbed(2, Pair("version", "1", ""));
    var e := Tabbed(1, Bare("}"));
    longer := Echo(longer, base, sofar, a);
    longer := Echo(longer, base, sofar + [a], b);
    longer := Echo(longer, base, sofar + [a] + [b], c);
    longer := Echo(longer, base, sofar + [a] + [b] + [c], d);
    longer := Echo(longer, base, sofar + [a] + [b] + [c] + [d], e);
    assert sofar + [a] + [b] + [c] + [d] + [e] == done + ContentLines(p);
  }

  /** A package between its braces. */
  method PrintEntry(file: seq<string>, ghost base: seq<string>, ghost done: seq<Tabbed>, e: Entry)
    returns (longer: seq<string>)
    requires file == base + Printed(done)
    ensures longer == base + Printed(done + EntryLines(e))
  {
    var open, close := Tabbed(0, Bare("{")), Tabbed(0, Bare(e.close));
    longer := Echo(file, base, done, open);
    ghost var sofar := done + [open];
    if e.pkg.id.Some? {
      longer := Echo(longer, base, sofar, Tabbed(1, Open("id", e.pkg.id.value + ",")));
      sofar := sofar + IdLines(e.pkg);
    }
    assert sofar == done + [open] + IdLines(e.pkg);
    longer := JsonContent(longer, base, sofar, e.pkg);
    longer := Echo(longer, base, sofar + ContentLines(e.pkg), close);
    Regrouped(done, [open], IdLines(e.pkg), ContentLines(e.pkg), [close]);
  }

  lemma Regrouped(a: seq<Tabbed>, b: seq<Tabbed>, c: seq<Tabbed>, d: seq<Tabbed>, e: seq<Tabbed>)
    ensures a + b + c + d + e == a + (b + (c + d) + e)
  {
    Regroup5(a, b, c, d, e);
    Regroup4(b, c, d, e);
    Regroup3(b, c, d);
  }

  lemma EntriesSnoc(es: seq<Entry>, e: Entry)
    ensures EntriesLines(es + [e]) == EntriesLines(es) + EntryLines(e)
  {
    assert (es + [e])[..|es|] == es;
  }

  lemma AddonsSnoc(front: seq<Entry>, addons: seq<Pkg>, i: nat)
    requires i < |addons|
    ensures front + AddonEntries(addons[..i]) + [Entry(addons[i], "}")] == front + AddonEntries(addons[..i + 1])
  {
  }

  /** The same, for a file that holds the entries of `es` so far. */
  method PrintNext(file: seq<string>, ghost base: seq<string>, ghost es: seq<Entry>, e: Entry)
    returns (longer: seq<string>)
    requires file == base + Printed(EntriesLines(es))
    ensures longer == base + Printed(EntriesLines(es + [e]))
  {
    longer := PrintEntry(file, base, EntriesLines(es), e);
    EntriesSnoc(es, e);
  }

  /** The loop over the addons. */
  method PrintAddons(file: seq<string>, ghost base: seq<string>, ghost front: seq<Entry>, addons: seq<Pkg>)
    returns (longer: seq<string>)
    requires file == base + Printed(EntriesLines(front))
    ensures longer == base + Printed(EntriesLines(front + AddonEntries(addons)))
  {
    longer := file;
    ghost var es := front;
    for i := 0 to |addons|
      invariant es == front + AddonEntries(addons[..i])
      invariant longer == base + Printed(EntriesLines(es))
    {
      longer := PrintNext(longer, base, es, Entry(addons[i], "}"));
      AddonsSnoc(front, addons, i);
      es := es + [Entry(addons[i], "}")];
    }
    assert addons[..|addons|] == addons;
  }

  method PrintFirstTwo(file: seq<string>, ghost base: seq<string>, first: Entry, second: Entry)
    returns (longer: seq<string>)
    requires file == base
    ensures longer == base + Printed(EntriesLines([first, second]))
  {
    ghost var es: seq<Entry> := [];
    assert file == base + Printed(EntriesLines(es));
    longer := PrintNext(file, base, es, first);
    longer := PrintNext(longer, base, es + [first], second);
    assert es + [first] + [second] == [first, second];
  }

  /** The listing, printed line by line. */
  method Get(common: Pkg, probe: Pkg, addons: seq<Pkg>) returns (file: seq<string>)
    ensures file == RawListing(MockEntries(common, probe, addons))
  {
    var base := ["["];
    file := PrintFirstTwo(base, base, Entry(common, "},"), Entry(probe, "},"));
    file := PrintAddons(file, base, [Entry(common, "},"), Entry(probe, "},")], addons);
    file := file + ["]"];
  }
}
