/** What reading a line into a variable and echoing it unquoted does to its blanks. */
module Words {
  /** The characters at which the shell splits an unquoted variable. */
  predicate IsBlank(c: char) { c == ' ' || c == '\t' || c == '\n' }

  predicate BlankFree(s: string) { forall i :: 0 <= i < |s| ==> !IsBlank(s[i]) }

  function WordEnd(s: string): (k: nat)
    ensures k <= |s| && BlankFree(s[..k]) && (k < |s| ==> IsBlank(s[k]))
  {
    if s == "" || IsBlank(s[0]) then 0 else
      var k := WordEnd(s[1..]);
      assert forall i :: 0 < i < 1 + k ==> s[i] == s[1..][..k][i - 1];
      1 + k
  }

  function WordsOf(s: string): seq<string>
    decreases |s|
  {
    if s == "" then []
    else if IsBlank(s[0]) then WordsOf(s[1..])
    else
      var k := WordEnd(s);
      assert k > 0;
      [s[..k]] + WordsOf(s[k..])
  }

  function Spaced(words: seq<string>): string
  {
    if words == [] then ""
    else if |words| == 1 then words[0]
    else words[0] + " " + Spaced(words[1..])
  }

  /** The words of the line, one space apart. */
  function Normalise(line: string): string { Spaced(WordsOf(line)) }

  function NormaliseAll(lines: seq<string>): (r: seq<string>)
    ensures |r| == |lines| && forall i :: 0 <= i < |lines| ==> r[i] == Normalise(lines[i])
  {
    seq(|lines|, i requires 0 <= i < |lines| => Normalise(lines[i]))
  }

  lemma NormaliseConcat(a: seq<string>, b: seq<string>)
    ensures NormaliseAll(a + b) == NormaliseAll(a) + NormaliseAll(b)
  {
  }

  lemma {:induction false} WordEndIs(w: string, rest: string)
    requires BlankFree(w) && (rest != "" ==> IsBlank(rest[0]))
    ensures WordEnd(w + rest) == |w|
  {
    if w == "" {
      assert w + rest == rest;
    } else {
      assert (w + rest)[1..] == w[1..] + rest;
      WordEndIs(w[1..], rest);
    }
  }

  lemma WordThen(w: string, rest: string)
    requires BlankFree(w) && w != "" && (rest != "" ==> IsBlank(rest[0]))
    ensures WordsOf(w + rest) == [w] + WordsOf(rest)
  {
    WordEndIs(w, rest);
    assert (w + rest)[..|w|] == w && (w + rest)[|w|..] == rest;
  }

  lemma OneWord(w: string)
    requires BlankFree(w) && w != ""
    ensures WordsOf(w) == [w] && Normalise(w) == w
  {
    WordThen(w, "");
    assert w + "" == w;
  }

  /** A text without blanks is echoed as it is. */
  lemma EchoedAsIs(w: string)
    requires BlankFree(w)
    ensures Normalise(w) == w
  {
    if w != "" {
      OneWord(w);
    }
  }

  lemma TwoWords(v: string, w: string)
    requires BlankFree(v) && v != "" && BlankFree(w) && w != ""
    ensures Normalise(v + " " + w) == v + " " + w
  {
    WordThen(v, " " + w);
    assert (" " + w)[1..] == w;
    OneWord(w);
    assert v + " " + w == v + (" " + w);
    assert WordsOf(v + " " + w) == [v, w];
    assert [v, w][1..] == [w];
  }

  predicate AreWords(words: seq<string>)
  {
    forall i :: 0 <= i < |words| ==> words[i] != "" && BlankFree(words[i])
  }

  lemma {:induction false} WordsAreWords(s: string)
    ensures AreWords(WordsOf(s))
    decreases |s|
  {
    if s != "" {
      if IsBlank(s[0]) {
        WordsAreWords(s[1..]);
      } else {
        assert WordEnd(s) > 0;
        WordsAreWords(s[WordEnd(s)..]);
      }
    }
  }

  function TotalLength(words: seq<string>): nat
  {
    if words == [] then 0 else |words[0]| + TotalLength(words[1..])
  }

  lemma {:induction false} SpacedWords(words: seq<string>)
    requires AreWords(words)
    ensures WordsOf(Spaced(words)) == words
    ensures |Spaced(words)| == TotalLength(words) + (if words == [] then 0 else |words| - 1)
    ensures forall i :: 0 <= i < |Spaced(words)| ==> IsBlank(Spaced(words)[i]) ==> Spaced(words)[i] == ' '
  {
    if |words| == 1 {
      OneWord(words[0]);
    } else if |words| > 1 {
      var more := Spaced(words[1..]);
      SpacedWords(words[1..]);
      WordThen(words[0], " " + more);
      assert (" " + more)[1..] == more && words[0] + " " + more == words[0] + (" " + more);
      assert words == [words[0]] + words[1..];
    }
  }

  /** Echoing keeps the words and their order, and leaves one space between any two and no other blank. */
  lemma NormaliseIs(s: string)
    ensures var r := Normalise(s);
            && WordsOf(r) == WordsOf(s)
            && |r| == TotalLength(WordsOf(s)) + (if WordsOf(s) == [] then 0 else |WordsOf(s)| - 1)
            && forall i :: 0 <= i < |r| ==> IsBlank(r[i]) ==> r[i] == ' '
  {
    WordsAreWords(s);
    SpacedWords(WordsOf(s));
  }

  function Tabs(n: nat): (r: string)
    ensures |r| == n && forall i :: 0 <= i < n ==> r[i] == '\t'
  {
    seq(n, _ => '\t')
  }

  /** Indentation does not change the words. */
  lemma {:induction false} Indented(n: nat, s: string)
    ensures Normalise(Tabs(n) + s) == Normalise(s)
  {
    if n == 0 {
      assert Tabs(n) + s == s;
    } else {
      assert (Tabs(n) + s)[1..] == Tabs(n - 1) + s;
      Indented(n - 1, s);
    }
  }
}
