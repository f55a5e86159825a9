/** The installer loop that cuts the package listing into packages by counting braces. */
module Splitter {
  import opened Text

  function Count(s: string, c: char): nat
  {
    if s == "" then 0 else (if s[0] == c then 1 else 0) + Count(s[1..], c)
  }

  /** Opening minus closing braces of a line. */
  function Net(line: string): int { Count(line, '{') - Count(line, '}') }

  predicate HasBracket(line: string) { Count(line, '[') + Count(line, ']') != 0 }

  lemma {:induction false} CountIs(s: string, c: char)
    ensures Count(s, c) == multiset(s)[c]
  {
    if s != "" {
      CountIs(s[1..], c);
      assert s == [s[0]] + s[1..];
    }
  }

  /** The net of a line is what its characters say, and so is the test for a bracket. */
  lemma LineCounts(line: string)
    ensures Net(line) + multiset(line)['}'] == multiset(line)['{']
    ensures HasBracket(line) <==> '[' in line || ']' in line
  {
    CountIs(line, '{');
    CountIs(line, '}');
    CountIs(line, '[');
    CountIs(line, ']');
  }

  /** The loop's variables: the brace count, the lines gathered since the last package, and the packages
      cut so far. */
  datatype Cut = Cut(count: int, pending: seq<string>, chunks: seq<seq<string>>)

  const START := Cut(0, [], [])

  function CutLine(st: Cut, line: string): Cut
  {
    if st.count == 0 && HasBracket(line) then st else
      var count, pending := st.count + Net(line), st.pending + [line];
      if count == 0 then Cut(0, [], st.chunks + [pending]) else Cut(count, pending, st.chunks)
  }

  function CutAll(st: Cut, lines: seq<string>): Cut
    decreases |lines|
  {
    if lines == [] then st else CutAll(CutLine(st, lines[0]), lines[1..])
  }

  lemma {:induction false} CutConcat(st: Cut, a: seq<string>, b: seq<string>)
    ensures CutAll(st, a + b) == CutAll(CutAll(st, a), b)
    decreases |a|
  {
    if a == [] {
      assert a + b == b;
    } else {
      assert (a + b)[1..] == a[1..] + b;
      CutConcat(CutLine(st, a[0]), a[1..], b);
    }
  }

  lemma {:induction false} ChunksGrow(st: Cut, lines: seq<string>)
    ensures st.chunks <= CutAll(st, lines).chunks
    decreases |lines|
  {
    if lines != [] {
      ChunksGrow(CutLine(st, lines[0]), lines[1..]);
    }
  }

  // ----- what the chunks are -----

  function NetSum(lines: seq<string>): int
  {
    if lines == [] then 0 else NetSum(lines[..|lines| - 1]) + Net(lines[|lines| - 1])
  }

  /** The input without the bracket-bearing lines met at depth 0. */
  function Kept(lines: seq<string>, depth: int): seq<string>
    decreases |lines|
  {
    if lines == [] then []
    else if depth == 0 && HasBracket(lines[0]) then Kept(lines[1..], 0)
    else [lines[0]] + Kept(lines[1..], depth + Net(lines[0]))
  }

  /** No non-empty prefix is balanced. */
  predicate Unbalanced(lines: seq<string>)
  {
    forall k :: 0 < k <= |lines| ==> NetSum(lines[..k]) != 0
  }

  /** Balanced, and cannot be cut into smaller balanced pieces from the front. */
  predicate Irreducible(chunk: seq<string>)
  {
    chunk != [] && NetSum(chunk) == 0 && Unbalanced(chunk[..|chunk| - 1])
  }

  predicate CutInv(st: Cut)
  {
    && st.count == NetSum(st.pending) && Unbalanced(st.pending)
    && (forall i :: 0 <= i < |st.chunks| ==> Irreducible(st.chunks[i]) && !HasBracket(st.chunks[i][0]))
    && (st.pending != [] ==> !HasBracket(st.pending[0]))
  }

  lemma UnbalancedCount(st: Cut)
    requires CutInv(st)
    ensures st.count == 0 <==> st.pending == []
  {
    assert st.pending[..|st.pending|] == st.pending;
  }

  lemma CutLineInv(st: Cut, line: string)
    requires CutInv(st)
    ensures CutInv(CutLine(st, line))
    ensures st.count == 0 && HasBracket(line) ==> CutLine(st, line) == st
    ensures !(st.count == 0 && HasBracket(line)) ==>
      CutLine(st, line).count == st.count + Net(line)
      && Flatten(CutLine(st, line).chunks) + CutLine(st, line).pending == Flatten(st.chunks) + st.pending + [line]
  {
    UnbalancedCount(st);
    var pending := st.pending + [line];
    assert pending[..|st.pending|] == st.pending;
    if !(st.count == 0 && HasBracket(line)) {
      assert NetSum(pending) == st.count + Net(line);
      if st.count + Net(line) == 0 {
        FlattenSnoc(st.chunks, pending);
        assert Irreducible(pending);
      } else {
        forall k | 0 < k <= |pending|
          ensures NetSum(pending[..k]) != 0
        {
          if k <= |st.pending| {
            assert pending[..k] == st.pending[..k];
          } else {
            assert pending[..k] == pending;
          }
        }
      }
    }
  }

  lemma {:induction false} CutAllInv(st: Cut, lines: seq<string>)
    requires CutInv(st)
    ensures CutInv(CutAll(st, lines))
    ensures var t := CutAll(st, lines);
            Flatten(t.chunks) + t.pending == Flatten(st.chunks) + st.pending + Kept(lines, st.count)
    decreases |lines|
  {
    if lines != [] {
      CutLineInv(st, lines[0]);
      CutAllInv(CutLine(st, lines[0]), lines[1..]);
      Regroup3(Flatten(st.chunks) + st.pending, [lines[0]], Kept(lines[1..], st.count + Net(lines[0])));
    }
  }

  /** Partition: for every listing, the chunks in order and then the pending lines are the input minus the
      bracket lines at depth 0; each chunk is irreducible and begins without a bracket. */
  lemma Partition(lines: seq<string>)
    ensures var t := CutAll(START, lines);
            && Flatten(t.chunks) + t.pending == Kept(lines, 0)
            && (forall i :: 0 <= i < |t.chunks| ==> Irreducible(t.chunks[i]) && !HasBracket(t.chunks[i][0]))
            && Unbalanced(t.pending) && t.count == NetSum(t.pending)
  {
    CutAllInv(START, lines);
  }

  /** A proper non-empty prefix of an irreducible chunk is not balanced. */
  lemma ProperPrefix(chunk: seq<string>, a: seq<string>)
    requires Irreducible(chunk) && a < chunk && a != []
    ensures NetSum(a) != 0
  {
    assert a == chunk[..|chunk| - 1][..|a|];
  }

  lemma PrefixOf(a: seq<string>, restA: seq<string>, b: seq<string>, restB: seq<string>)
    requires a + restA == b + restB && |a| <= |b|
    ensures a <= b
  {
    assert forall i :: 0 <= i < |a| ==> (a + restA)[i] == a[i] && (b + restB)[i] == b[i];
  }

  lemma FirstChunkSize(a: seq<string>, b: seq<string>, restA: seq<string>, restB: seq<string>)
    requires Irreducible(a) && Irreducible(b) && a + restA == b + restB
    ensures a == b && restA == restB
  {
    if |a| <= |b| {
      PrefixOf(a, restA, b, restB);
    } else {
      PrefixOf(b, restB, a, restA);
    }
    if a < b {
      ProperPrefix(b, a);
    } else if b < a {
      ProperPrefix(a, b);
    } else {
      assert (a + restA)[|a|..] == restA && (b + restB)[|b|..] == restB;
    }
  }

  lemma UnbalancedHasNoChunk(p: seq<string>, a: seq<string>, rest: seq<string>)
    requires Irreducible(a) && p == a + rest
    ensures !Unbalanced(p)
  {
    assert p[..|a|] == a;
  }

  /** The decomposition is the only one: irreducible chunks followed by an unbalanced rest are determined
      by their concatenation. */
  lemma {:induction false} UniqueDecomposition(cs: seq<seq<string>>, p: seq<string>,
                                               ds: seq<seq<string>>, q: seq<string>)
    requires forall i :: 0 <= i < |cs| ==> Irreducible(cs[i])
    requires forall i :: 0 <= i < |ds| ==> Irreducible(ds[i])
    requires Unbalanced(p) && Unbalanced(q) && Flatten(cs) + p == Flatten(ds) + q
    ensures cs == ds && p == q
    decreases |cs|
  {
    if cs != [] && ds != [] {
      assert Flatten(cs) + p == cs[0] + (Flatten(cs[1..]) + p);
      assert Flatten(ds) + q == ds[0] + (Flatten(ds[1..]) + q);
      FirstChunkSize(cs[0], ds[0], Flatten(cs[1..]) + p, Flatten(ds[1..]) + q);
      UniqueDecomposition(cs[1..], p, ds[1..], q);
      assert cs == [cs[0]] + cs[1..] && ds == [ds[0]] + ds[1..];
    } else if cs != [] {
      assert Flatten(ds) + q == q;
      assert Flatten(cs) + p == cs[0] + (Flatten(cs[1..]) + p);
      assert q == cs[0] + (Flatten(cs[1..]) + p);
      UnbalancedHasNoChunk(q, cs[0], Flatten(cs[1..]) + p);
    } else if ds != [] {
      assert Flatten(cs) + p == p;
      assert Flatten(ds) + q == ds[0] + (Flatten(ds[1..]) + q);
      assert p == ds[0] + (Flatten(ds[1..]) + q);
      UnbalancedHasNoChunk(p, ds[0], Flatten(ds[1..]) + q);
    } else {
      assert p == Flatten(cs) + p && q == Flatten(ds) + q;
    }
  }

  lemma {:induction false} AbsorbPrefix(cs: seq<seq<string>>, chunk: seq<string>, k: nat)
    requires Irreducible(chunk) && !HasBracket(chunk[0]) && 0 < k < |chunk|
    ensures CutAll(Cut(0, [], cs), chunk[..k]) == Cut(NetSum(chunk[..k]), chunk[..k], cs)
  {
    var front, line := chunk[..k - 1], chunk[k - 1];
    assert chunk[..k] == front + [line] && chunk[..k][..k - 1] == front;
    CutConcat(Cut(0, [], cs), front, [line]);
    var st := CutAll(Cut(0, [], cs), front);
    assert CutAll(st, [line]) == CutLine(st, line);
    assert chunk[..|chunk| - 1][..k] == chunk[..k];
    if k == 1 {
      assert front == [] && NetSum(front) == 0;
    } else {
      AbsorbPrefix(cs, chunk, k - 1);
      assert chunk[..|chunk| - 1][..k - 1] == front;
    }
  }

  /** Reading an irreducible chunk at depth 0 cuts off exactly that chunk. */
  lemma AbsorbChunk(cs: seq<seq<string>>, chunk: seq<string>)
    requires Irreducible(chunk) && !HasBracket(chunk[0])
    ensures CutAll(Cut(0, [], cs), chunk) == Cut(0, [], cs + [chunk])
  {
    var n := |chunk| - 1;
    var st := CutAll(Cut(0, [], cs), chunk[..n]);
    assert chunk == chunk[..n] + [chunk[n]];
    CutConcat(Cut(0, [], cs), chunk[..n], [chunk[n]]);
    assert CutAll(st, [chunk[n]]) == CutLine(st, chunk[n]);
    assert NetSum(chunk) == NetSum(chunk[..n]) + Net(chunk[n]);
    if n > 0 {
      AbsorbPrefix(cs, chunk, n);
      assert chunk[..n][..n] == chunk[..n] && NetSum(chunk[..n]) != 0;
    } else {
      assert chunk[..n] == [];
      assert st == Cut(0, [], cs);
    }
  }

  /** Reading irreducible chunks one after the other cuts off exactly those chunks. */
  lemma {:induction false} AbsorbChunks(chunks: seq<seq<string>>)
    requires forall i :: 0 <= i < |chunks| ==> Irreducible(chunks[i]) && !HasBracket(chunks[i][0])
    ensures CutAll(START, Flatten(chunks)) == Cut(0, [], chunks)
  {
    if chunks != [] {
      var front, chunk := chunks[..|chunks| - 1], chunks[|chunks| - 1];
      assert chunks == front + [chunk];
      FlattenSnoc(front, chunk);
      AbsorbChunks(front);
      CutConcat(START, Flatten(front), chunk);
      AbsorbChunk(front, chunk);
    }
  }
}
