/** The text commands that read a package's fields from its chunk, and the installer loop around them. */
module Extraction {
  import opened Text
  import opened Splitter
  import opened Words

  /** Is `pattern` a substring? */
  predicate Contains(s: string, pattern: string)
  {
    pattern <= s || (s != "" && Contains(s[1..], pattern))
  }

  /** It is one exactly when it is the beginning of some rest. */
  lemma {:induction false} ContainsIff(s: string, pattern: string)
    ensures Contains(s, pattern) <==> exists i :: 0 <= i <= |s| && pattern <= s[i..]
  {
    if s != "" {
      ContainsIff(s[1..], pattern);
      assert s[0..] == s;
      forall i | 0 <= i < |s|
        ensures s[1..][i..] == s[i + 1..]
      {
      }
      if Contains(s[1..], pattern) {
        var i :| 0 <= i <= |s[1..]| && pattern <= s[1..][i..];
        assert s[1..][i..] == s[i + 1..];
      }
      if i :| 0 < i <= |s| && pattern <= s[i..] {
        assert s[1..][i - 1..] == s[i..];
      }
    } else {
      assert s[0..] == s;
    }
  }

  function Quoted(s: string): string { ['"'] + s + ['"'] }

  /** The lines that contain the key in quotes. */
  function Grep(lines: seq<string>, key: string): seq<string>
  {
    if lines == [] then []
    else (if Contains(lines[0], Quoted(key)) then [lines[0]] else []) + Grep(lines[1..], key)
  }

  /** `s/c//g`. */
  function Strip(s: string, c: char): string
  {
    if s == "" then "" else (if s[0] == c then "" else [s[0]]) + Strip(s[1..], c)
  }

  /** `cut -f 1`: everything before the first delimiter. */
  function CutFirst(s: string, d: char): string { s[..IndexOf(s, d)] }

  /** `cut -f 2`: what stands between the first two delimiters; a line without delimiter is kept. */
  function CutSecond(s: string, d: char): string
  {
    var k := IndexOf(s, d);
    if k == |s| then s else CutFirst(s[k + 1..], d)
  }

  /** The second of any number of fields, whatever follows it. */
  lemma SecondField(a: string, d: char, b: string, more: string)
    requires Free(a, d) && Free(b, d)
    ensures CutSecond(a + [d] + b, d) == b == CutSecond(a + [d] + (b + [d] + more), d)
    ensures CutFirst(a + [d] + b, d) == a == CutSecond(a, d)
  {
    IndexOfIs(a, d, b);
    IndexOfIs(a, d, b + [d] + more);
    IndexOfIs(b, d, more);
    assert (a + [d] + b)[|a| + 1..] == b && (a + [d] + b)[..|a|] == a;
    assert (a + [d] + (b + [d] + more))[|a| + 1..] == b + [d] + more;
    assert (b + [d] + more)[..|b|] == b;
  }

  /** The pipe of commands behind `grep`, on one line. */
  function FieldOf(line: string): string
  {
    Strip(CutFirst(CutSecond(Strip(line, ' '), ':'), ','), '"')
  }

  function FieldsOf(lines: seq<string>): seq<string>
  {
    if lines == [] then [] else [FieldOf(lines[0])] + FieldsOf(lines[1..])
  }

  /** What the commands print. */
  function Output(xs: seq<string>): string
  {
    if xs == [] then "" else xs[0] + "\n" + Output(xs[1..])
  }

  /** Command substitution drops trailing line feeds. */
  function Substituted(s: string): string
  {
    if s != "" && s[|s| - 1] == '\n' then Substituted(s[..|s| - 1]) else s
  }

  /** All of them, and nothing else. */
  lemma {:induction false} SubstitutedIs(s: string, n: nat)
    requires s == "" || s[|s| - 1] != '\n'
    ensures Substituted(s + seq(n, _ => '\n')) == s
  {
    var feeds := seq(n, _ => '\n');
    if n == 0 {
      assert s + feeds == s;
    } else {
      SubstitutedIs(s, n - 1);
      assert (s + feeds)[|s| + n - 1] == '\n';
      assert (s + feeds)[..|s| + n - 1] == s + seq(n - 1, _ => '\n');
    }
  }

  /** The value extracted from the temporary file, whose first line is blank. */
  function Extract(chunk: seq<string>, key: string): string
  {
    Substituted(Output(FieldsOf(Grep([""] + chunk, key))))
  }

  /** What follows the last dot; a name without dot is kept. */
  function Extension(name: string): string
  {
    if Free(name, '.') then name else AfterLastDot(name)
  }

  function AfterLastDot(name: string): string
  {
    if Free(name, '.') then name else AfterLastDot(name[IndexOf(name, '.') + 1..])
  }

  /** The type of a file is what stands behind its last dot, or the whole name when there is none. */
  lemma {:induction false} ExtensionIs(stem: string, ext: string)
    requires Free(ext, '.')
    ensures Extension(stem + "." + ext) == ext == Extension(ext)
    decreases |stem|
  {
    var name := stem + "." + ext;
    assert name[|stem|] == '.';
    if Free(stem, '.') {
      IndexOfIs(stem, '.', ext);
      assert name == stem + ['.'] + ext && name[|stem| + 1..] == ext;
      assert AfterLastDot(ext) == ext;
    } else {
      var k := IndexOf(stem, '.');
      IndexOfIs(stem[..k], '.', stem[k + 1..] + "." + ext);
      assert name == stem[..k] + "." + (stem[k + 1..] + "." + ext);
      assert name[k + 1..] == stem[k + 1..] + "." + ext;
      ExtensionIs(stem[k + 1..], ext);
      assert (stem[k + 1..] + "." + ext)[|stem[k + 1..]|] == '.';
    }
  }

  /** Is it the extension itself, or does it end with a dot and the extension? */
  predicate IsFileOf(name: string, ext: string)
  {
    name == ext || (|name| > |ext| && name[|name| - |ext| - 1..] == "." + ext)
  }

  lemma {:induction false} AfterLastDotIs(name: string)
    requires !Free(name, '.')
    ensures var ext := AfterLastDot(name);
            Free(ext, '.') && |name| > |ext| && name[|name| - |ext| - 1..] == "." + ext
    decreases |name|
  {
    var k := IndexOf(name, '.');
    var rest := name[k + 1..];
    assert name[..|name|] == name && k < |name|;
    if Free(rest, '.') {
      assert name[k..] == "." + rest;
    } else {
      AfterLastDotIs(rest);
      var n := |rest| - |AfterLastDot(rest)| - 1;
      assert rest[n..] == name[k + 1 + n..];
    }
  }

  lemma ExtensionIff(name: string, ext: string)
    requires Free(ext, '.')
    ensures Extension(name) == ext <==> IsFileOf(name, ext)
  {
    if !Free(name, '.') {
      AfterLastDotIs(name);
    }
    if name != ext && IsFileOf(name, ext) {
      var stem := name[..|name| - |ext| - 1];
      assert name == stem + ("." + ext) == stem + "." + ext;
      ExtensionIs(stem, ext);
    }
  }

  datatype Package = Package(filename: string, kind: string, content: string)

  /** The type is cut from the echoed name, in which line feeds have become blanks. */
  function PackageOf(chunk: seq<string>): Package
  {
    var name := Extract(chunk, "filename");
    Package(name, Extension(Normalise(name)), Extract(chunk, "content"))
  }

  function PackagesOf(chunks: seq<seq<string>>): (ps: seq<Package>)
    ensures |ps| == |chunks| && forall i :: 0 <= i < |chunks| ==> ps[i] == PackageOf(chunks[i])
  {
    seq(|chunks|, i requires 0 <= i < |chunks| => PackageOf(chunks[i]))
  }

  predicate Supported(chunk: seq<string>) { Extract(chunk, "content") != "" }

  /** The package tools of the host. */
  datatype Tools = Tools(dpkg: bool, aptGet: bool, yum: bool)

  /** Is there a tool for packages of this type? */
  predicate CanInstall(tools: Tools, kind: string)
  {
    (kind == "deb" && tools.dpkg && tools.aptGet) || (kind == "rpm" && tools.yum)
  }

  predicate Accepted(tools: Tools, chunk: seq<string>)
  {
    Supported(chunk) && CanInstall(tools, PackageOf(chunk).kind)
  }

  /** Number of chunks before the first one that ends the installation. */
  function AcceptedPrefix(tools: Tools, chunks: seq<seq<string>>): (k: nat)
    ensures k <= |chunks|
  {
    PrefixWhile(c => Accepted(tools, c), chunks)
  }

  lemma PrefixSize(tools: Tools, chunks: seq<seq<string>>, k: nat)
    requires k <= |chunks| && (forall i :: 0 <= i < k ==> Accepted(tools, chunks[i]))
    requires k < |chunks| ==> !Accepted(tools, chunks[k])
    ensures AcceptedPrefix(tools, chunks) == k
  {
    PrefixWhileIs(c => Accepted(tools, c), chunks, k);
  }

  lemma PackagesSnoc(chunks: seq<seq<string>>, c: seq<string>)
    ensures PackagesOf(chunks + [c]) == PackagesOf(chunks) + [PackageOf(c)]
  {
  }

  /** One line of the loop, for a line that is not skipped. */
  lemma CutOne(st: Cut, lines: seq<string>, i: nat)
    requires i < |lines|
    ensures CutAll(st, lines[..i + 1]) == CutLine(CutAll(st, lines[..i]), lines[i])
  {
    assert lines[..i + 1] == lines[..i] + [lines[i]];
    CutConcat(st, lines[..i], [lines[i]]);
    assert CutAll(CutLine(CutAll(st, lines[..i]), lines[i]), []) == CutLine(CutAll(st, lines[..i]), lines[i]);
    assert [lines[i]][1..] == [];
  }

  lemma PrefixOfChunks(lines: seq<string>, i: nat)
    requires i <= |lines|
    ensures CutAll(START, lines[..i]).chunks <= CutAll(START, lines).chunks
  {
    assert lines == lines[..i] + lines[i..];
    CutConcat(START, lines[..i], lines[i..]);
    ChunksGrow(CutAll(START, lines[..i]), lines[i..]);
  }

  /** Reads a package from the temporary file that holds a complete chunk. */
  method ReadPackage(jsonPackage: seq<string>, ghost chunk: seq<string>) returns (package: Option<Package>)
    requires jsonPackage == [""] + chunk
    ensures package == if Supported(chunk) then Some(PackageOf(chunk)) else None
  {
    var name := Substituted(Output(FieldsOf(Grep(jsonPackage, "filename"))));
    var kind := Extension(Normalise(name));
    var content := Substituted(Output(FieldsOf(Grep(jsonPackage, "content"))));
    package := if content == "" then None else Some(Package(name, kind, content));
  }

  /** Hands a package to the tool for its type, if there is one. */
  method InstallPackage(tools: Tools, package: Package) returns (done: bool)
    ensures done <==> CanInstall(tools, package.kind)
  {
    if package.kind == "deb" {
      done := tools.dpkg && tools.aptGet;
    } else if package.kind == "rpm" {
      done := tools.yum;
    } else {
      done := false;
    }
  }

  /** How the installation ends: after the last line, at a package without content, or at one for which
      there is no tool. */
  datatype Outcome = Completed | NotSupported | NotInstallable

  function OutcomeAt(tools: Tools, chunks: seq<seq<string>>): Outcome
  {
    var n := AcceptedPrefix(tools, chunks);
    if n == |chunks| then Completed else if Supported(chunks[n]) then NotInstallable else NotSupported
  }

  /** At the first chunk that is not accepted the loop ends, and what was cut before is what was installed. */
  lemma StopsHere(tools: Tools, lines: seq<string>, i: nat, cs: seq<seq<string>>, chunk: seq<string>)
    requires i <= |lines| && CutAll(START, lines[..i]).chunks == cs + [chunk]
    requires AllAccepted(tools, cs) && !Accepted(tools, chunk)
    ensures var chunks := CutAll(START, lines).chunks;
            && chunks[..AcceptedPrefix(tools, chunks)] == cs
            && OutcomeAt(tools, chunks) == (if Supported(chunk) then NotInstallable else NotSupported)
  {
    PrefixOfChunks(lines, i);
    var chunks := CutAll(START, lines).chunks;
    assert (cs + [chunk])[|cs|] == chunk && cs == (cs + [chunk])[..|cs|];
    PrefixSize(tools, chunks, |cs|);
  }

  predicate AllAccepted(tools: Tools, chunks: seq<seq<string>>)
  {
    forall i :: 0 <= i < |chunks| ==> Accepted(tools, chunks[i])
  }

  lemma EndsHere(tools: Tools, chunks: seq<seq<string>>)
    requires AllAccepted(tools, chunks)
    ensures AcceptedPrefix(tools, chunks) == |chunks| && chunks[..|chunks|] == chunks
  {
    PrefixSize(tools, chunks, |chunks|);
  }

  lemma OneMoreAccepted(tools: Tools, chunks: seq<seq<string>>, c: seq<string>)
    requires AllAccepted(tools, chunks) && Accepted(tools, c)
    ensures AllAccepted(tools, chunks + [c])
  {
  }

  /** The installer loop: gathers lines in a temporary file, counts braces, and at depth 0 installs the
      package read from the file, or ends when it has no content or there is no tool for it. */
  method Install(raw: seq<string>, tools: Tools) returns (installed: seq<Package>, outcome: Outcome)
    ensures var chunks := CutAll(START, NormaliseAll(raw)).chunks;
            && installed == PackagesOf(chunks[..AcceptedPrefix(tools, chunks)])
            && outcome == OutcomeAt(tools, chunks)
  {
    installed, outcome := [], Completed;
    var jsonPackage := [""];
    var count := 0;
    ghost var lines := NormaliseAll(raw);
    ghost var st := START;
    var i := 0;
    while i < |raw|
      invariant 0 <= i <= |raw| && st == CutAll(START, lines[..i])
      invariant count == st.count && jsonPackage == [""] + st.pending && outcome == Completed
      invariant AllAccepted(tools, st.chunks) && installed == PackagesOf(st.chunks)
    {
      var line := Normalise(raw[i]);
      CutOne(START, lines, i);
      i := i + 1;
      if count == 0 && Count(line, '[') + Count(line, ']') != 0 {
        continue;
      }
      ghost var pending := st.pending + [line];
      jsonPackage := jsonPackage + [line];
      assert jsonPackage == [""] + pending;
      count := count + Count(line, '{') - Count(line, '}');
      if count == 0 {
        var package := ReadPackage(jsonPackage, pending);
        if package.None? {
          StopsHere(tools, lines, i, st.chunks, pending);
          return installed, NotSupported;
        }
        var done := InstallPackage(tools, package.value);
        if !done {
          StopsHere(tools, lines, i, st.chunks, pending);
          return installed, NotInstallable;
        }
        PackagesSnoc(st.chunks, pending);
        OneMoreAccepted(tools, st.chunks, pending);
        installed := installed + [package.value];
        jsonPackage := [""];
      }
      st := CutLine(st, line);
    }
    assert lines[..i] == lines;
    EndsHere(tools, st.chunks);
  }
}
