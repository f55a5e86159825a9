/** The lines of a package listing, and what the extraction commands see in them. */
module ListingText {
  import opened Text
  import opened Extraction

  const QUOTE := '"'

  /** A printed value that cannot disturb the text around it. */
  predicate Clean(s: string)
  {
    && Free(s, ' ') && Free(s, '\t') && Free(s, '\n') && Free(s, QUOTE) && Free(s, ':') && Free(s, ',')
    && Free(s, '{') && Free(s, '}') && Free(s, '\\')
  }

  /** A line, once its blanks are normalised: `"key": "value"` with a tail, `"key": rest`, or no quotes. */
  datatype Line = Pair(key: string, value: string, tail: string) | Open(key: string, rest: string) | Bare(text: string)

  /** One word. */
  predicate Solid(s: string) { Free(s, ' ') && Free(s, '\t') && Free(s, '\n') && s != "" }

  predicate WellFormed(l: Line)
  {
    match l
    case Pair(key, value, tail) => Clean(key) && Clean(value) && (tail == "" || tail == ",")
    case Open(key, rest) => Clean(key) && Free(rest, QUOTE) && Solid(rest)
    case Bare(text) => Free(text, QUOTE) && Solid(text)
  }

  function TextOf(l: Line): string
  {
    match l
    case Pair(key, value, tail) => Quoted(key) + ":" + " " + (Quoted(value) + tail)
    case Open(key, rest) => Quoted(key) + ":" + " " + rest
    case Bare(text) => text
  }

  function TextsOf(ls: seq<Line>): (ts: seq<string>)
    ensures |ts| == |ls|
    ensures forall i :: 0 <= i < |ls| ==> ts[i] == TextOf(ls[i])
  {
    seq(|ls|, i requires 0 <= i < |ls| => TextOf(ls[i]))
  }

  // ----- grep -----

  lemma {:induction false} SkipQuoteFree(a: string, rest: string, w: string)
    requires Free(a, QUOTE)
    ensures Contains(a + rest, Quoted(w)) == Contains(rest, Quoted(w))
  {
    if a == "" {
      assert a + rest == rest;
    } else {
      assert (a + rest)[1..] == a[1..] + rest;
      SkipQuoteFree(a[1..], rest, w);
      assert Quoted(w)[0] == QUOTE;
    }
  }

  lemma NoQuoteNoMatch(a: string, w: string)
    requires Free(a, QUOTE)
    ensures !Contains(a, Quoted(w))
    ensures !Contains([QUOTE] + a, Quoted(w))
  {
    assert a + "" == a;
    SkipQuoteFree(a, "", w);
    var s := [QUOTE] + a;
    assert s[1..] == a;
    assert Quoted(w)[|w| + 1] == QUOTE;
    assert forall i :: 0 < i < |s| ==> s[i] == a[i - 1];
  }

  lemma PrefixQuoted(v: string, rest: string, w: string)
    requires Free(v, QUOTE) && Free(w, QUOTE)
    ensures Quoted(w) <= Quoted(v) + rest <==> v == w
  {
    var s := Quoted(v) + rest;
    assert s[|v| + 1] == QUOTE && Quoted(w)[|w| + 1] == QUOTE;
    assert forall i :: 0 <= i < |v| ==> s[i + 1] == v[i];
    assert forall i :: 0 <= i < |w| ==> Quoted(w)[i + 1] == w[i];
    if Quoted(w) <= s {
      assert forall i :: 0 <= i < |w| + 2 ==> s[i] == Quoted(w)[i];
      assert forall i :: 0 <= i < |v| && i < |w| ==> v[i] == w[i];
      if |v| < |w| {
        assert false;
      }
    }
  }

  /** Past an opening quote, either the quoted text is the one searched for or the search goes on at the
      closing quote. */
  lemma MatchQuoted(v: string, rest: string, w: string)
    requires Free(v, QUOTE) && Free(w, QUOTE)
    ensures Contains(Quoted(v) + rest, Quoted(w)) == (v == w || Contains([QUOTE] + rest, Quoted(w)))
  {
    PrefixQuoted(v, rest, w);
    var s := Quoted(v) + rest;
    assert s[1..] == v + ([QUOTE] + rest);
    SkipQuoteFree(v, [QUOTE] + rest, w);
  }

  /** `grep` finds a quoted key in a line exactly when it is the line's key or its value. */
  lemma LineMatches(l: Line, w: string)
    requires WellFormed(l) && Free(w, QUOTE) && w != ": "
    ensures Contains(TextOf(l), Quoted(w))
         <==> (l.Pair? && (l.key == w || l.value == w)) || (l.Open? && l.key == w)
  {
    match l {
      case Bare(text) => NoQuoteNoMatch(text, w);
      case Open(key, rest) =>
        assert TextOf(l) == Quoted(key) + (": " + rest);
        MatchQuoted(key, ": " + rest, w);
        NoQuoteNoMatch(": " + rest, w);
      case Pair(key, value, tail) =>
        var after := Quoted(value) + tail;
        assert TextOf(l) == Quoted(key) + (": " + after);
        MatchQuoted(key, ": " + after, w);
        assert [QUOTE] + (": " + after) == Quoted(": ") + (value + [QUOTE] + tail);
        MatchQuoted(": ", value + [QUOTE] + tail, w);
        assert [QUOTE] + (value + [QUOTE] + tail) == Quoted(value) + tail;
        MatchQuoted(value, tail, w);
        NoQuoteNoMatch(tail, w);
    }
  }

  // ----- the field commands -----

  lemma {:induction false} StripConcat(a: string, b: string, c: char)
    ensures Strip(a + b, c) == Strip(a, c) + Strip(b, c)
  {
    if a == "" {
      assert a + b == b;
    } else {
      assert (a + b)[1..] == a[1..] + b;
      StripConcat(a[1..], b, c);
    }
  }

  lemma {:induction false} StripFree(a: string, c: char)
    requires Free(a, c)
    ensures Strip(a, c) == a
  {
    if a != "" {
      StripFree(a[1..], c);
    }
  }

  lemma CutFree(a: string, c: char)
    requires Free(a, c)
    ensures IndexOf(a, c) == |a| && CutFirst(a, c) == a
  {
  }

  lemma CutAt(a: string, c: char, b: string)
    requires Free(a, c)
    ensures CutFirst(a + [c] + b, c) == a
    ensures Free(b, c) ==> CutSecond(a + [c] + b, c) == b
  {
    IndexOfIs(a, c, b);
    assert (a + [c] + b)[..|a|] == a && (a + [c] + b)[|a| + 1..] == b;
    if Free(b, c) {
      CutFree(b, c);
    }
  }

  lemma StripBlank(left: string, right: string)
    requires Free(left, ' ') && Free(right, ' ')
    ensures Strip(left + " " + right, ' ') == left + right
  {
    StripConcat(left + " ", right, ' ');
    StripConcat(left, " ", ' ');
    StripFree(left, ' ');
    StripFree(right, ' ');
    assert " "[1..] == "" && left + "" == left;
  }

  lemma StripQuotes(value: string)
    requires Free(value, QUOTE)
    ensures Strip(Quoted(value), QUOTE) == value
  {
    StripConcat([QUOTE] + value, [QUOTE], QUOTE);
    StripConcat([QUOTE], value, QUOTE);
    StripFree(value, QUOTE);
    assert [QUOTE][1..] == "" && "" + value + "" == value;
  }

  lemma CutTail(quoted: string, tail: string)
    requires Free(quoted, ',') && (tail == "" || tail == ",")
    ensures CutFirst(quoted + tail, ',') == quoted
  {
    if tail == "," {
      assert quoted + tail == quoted + [','] + "";
      CutAt(quoted, ',', "");
    } else {
      assert quoted + tail == quoted;
      CutFree(quoted, ',');
    }
  }

  lemma QuotedFree(s: string, c: char)
    requires Free(s, c) && c != QUOTE
    ensures Free(Quoted(s), c)
  {
  }

  lemma FieldAfterColon(left: string, value: string, tail: string)
    requires Free(left, ' ') && Free(left, ':') && (tail == "" || tail == ",")
    requires Free(value, ' ') && Free(value, ':') && Free(value, ',') && Free(value, QUOTE)
    ensures FieldOf(left + ":" + " " + (Quoted(value) + tail)) == value
  {
    QuotedFree(value, ' ');
    QuotedFree(value, ':');
    QuotedFree(value, ',');
    var right := Quoted(value) + tail;
    StripBlank(left + ":", right);
    CutAt(left, ':', right);
    CutTail(Quoted(value), tail);
    StripQuotes(value);
  }

  /** The field commands return the value of a pair. */
  lemma FieldOfPair(key: string, value: string, tail: string)
    requires WellFormed(Pair(key, value, tail))
    ensures FieldOf(TextOf(Pair(key, value, tail))) == value
  {
    QuotedFree(key, ' ');
    QuotedFree(key, ':');
    FieldAfterColon(Quoted(key), value, tail);
  }

  /** The values of the pairs in which the key occurs, as key or as value. */
  function Matched(ls: seq<Line>, w: string): seq<string>
  {
    if ls == [] then []
    else (if ls[0].Pair? && (ls[0].key == w || ls[0].value == w) then [ls[0].value] else []) + Matched(ls[1..], w)
  }

  lemma GrepStep(text: string, texts: seq<string>, w: string, hit: bool, value: string)
    requires Contains(text, Quoted(w)) == hit && (hit ==> FieldOf(text) == value)
    ensures FieldsOf(Grep([text] + texts, w)) == (if hit then [value] else []) + FieldsOf(Grep(texts, w))
  {
    assert ([text] + texts)[1..] == texts;
    if hit {
      assert ([text] + Grep(texts, w))[1..] == Grep(texts, w);
    } else {
      assert [] + Grep(texts, w) == Grep(texts, w);
    }
  }

  lemma {:induction false} GrepLines(ls: seq<Line>, w: string)
    requires forall i :: 0 <= i < |ls| ==> WellFormed(ls[i]) && (ls[i].Open? ==> ls[i].key != w)
    requires Free(w, QUOTE) && w != ": "
    ensures FieldsOf(Grep(TextsOf(ls), w)) == Matched(ls, w)
  {
    if ls != [] {
      assert TextsOf(ls) == [TextOf(ls[0])] + TextsOf(ls[1..]);
      GrepLines(ls[1..], w);
      LineMatches(ls[0], w);
      var hit := ls[0].Pair? && (ls[0].key == w || ls[0].value == w);
      if hit {
        FieldOfPair(ls[0].key, ls[0].value, ls[0].tail);
      }
      GrepStep(TextOf(ls[0]), TextsOf(ls[1..]), w, hit, if hit then ls[0].value else "");
    }
  }

  // ----- command output -----

  lemma {:induction false} SubstitutedKeeps(s: string, k: nat)
    requires k < |s| && s[k] != '\n'
    ensures |Substituted(s)| > k
    decreases |s|
  {
    if s[|s| - 1] == '\n' {
      SubstitutedKeeps(s[..|s| - 1], k);
    }
  }

  /** One line of output is the extracted value. */
  lemma SingleOutput(x: string)
    requires Free(x, '\n')
    ensures Substituted(Output([x])) == x
  {
    assert [x][1..] == [] && Output([x]) == x + "\n";
    assert (x + "\n")[..|x|] == x;
  }

  /** Several lines of output are longer than any one of them, when another one is not empty. */
  lemma {:induction false} LongOutput(before: seq<string>, x: string, after: seq<string>)
    requires x != "" && Free(x, '\n')
    ensures |Substituted(Output(before + [x] + after))| >= |Output(before)| + |x|
  {
    OutputConcat(before + [x], after);
    OutputConcat(before, [x]);
    assert [x][1..] == [] && Output([x]) == x + "\n";
    var s := Output(before + [x] + after);
    assert s == Output(before) + (x + "\n") + Output(after);
    assert s[|Output(before)| + |x| - 1] == x[|x| - 1];
    SubstitutedKeeps(s, |Output(before)| + |x| - 1);
  }

  lemma {:induction false} OutputConcat(a: seq<string>, b: seq<string>)
    ensures Output(a + b) == Output(a) + Output(b)
  {
    if a == [] {
      assert a + b == b;
    } else {
      assert (a + b)[1..] == a[1..] + b;
      OutputConcat(a[1..], b);
    }
  }
}
