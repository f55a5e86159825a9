/** The installer's `encode_url`: a list of global substitutions applied one after another. */
module EncodeUrls {
  import opened UriEscape

  /** `s/pattern/replacement/g` for a single literal character. */
  datatype Rule = Rule(pattern: char, replacement: string)

  function ReplaceAll(s: string, r: Rule): string
  {
    if s == "" then "" else (if s[0] == r.pattern then r.replacement else [s[0]]) + ReplaceAll(s[1..], r)
  }

  /** The rules one after another, each on the result of the previous one. */
  function Sequential(rules: seq<Rule>, s: string): string
  {
    if rules == [] then s else Sequential(rules[1..], ReplaceAll(s, rules[0]))
  }

  function EncodeChar(rules: seq<Rule>, c: char): string
  {
    if rules == [] then [c] else if rules[0].pattern == c then rules[0].replacement else EncodeChar(rules[1..], c)
  }

  /** Every original character replaced once. */
  function Simultaneous(rules: seq<Rule>, s: string): string
  {
    if s == "" then "" else EncodeChar(rules, s[0]) + Simultaneous(rules, s[1..])
  }

  predicate Distinct(rules: seq<Rule>)
  {
    forall i, j :: 0 <= i < j < |rules| ==> rules[i].pattern != rules[j].pattern
  }

  /** No rule rewrites what an earlier one produced. */
  predicate NonInterfering(rules: seq<Rule>)
  {
    forall i, j :: 0 <= i < j < |rules| ==> rules[j].pattern !in rules[i].replacement
  }

  lemma {:induction false} SimultaneousConcat(rules: seq<Rule>, a: string, b: string)
    ensures Simultaneous(rules, a + b) == Simultaneous(rules, a) + Simultaneous(rules, b)
  {
    if a == "" {
      assert a + b == b;
    } else {
      assert (a + b)[1..] == a[1..] + b;
      SimultaneousConcat(rules, a[1..], b);
    }
  }

  lemma {:induction false} Untouched(rules: seq<Rule>, s: string)
    requires forall j :: 0 <= j < |rules| ==> rules[j].pattern !in s
    ensures Simultaneous(rules, s) == s
  {
    if s != "" {
      CharUntouched(rules, s[0]);
      Untouched(rules, s[1..]);
    }
  }

  lemma {:induction false} CharUntouched(rules: seq<Rule>, c: char)
    requires forall j :: 0 <= j < |rules| ==> rules[j].pattern != c
    ensures EncodeChar(rules, c) == [c]
  {
    if rules != [] {
      CharUntouched(rules[1..], c);
    }
  }

  /** Doing the first rule first makes no difference to the simultaneous result. */
  lemma {:induction false} FirstRuleFirst(rules: seq<Rule>, s: string)
    requires rules != [] && forall j :: 0 < j < |rules| ==> rules[j].pattern !in rules[0].replacement
    ensures Simultaneous(rules[1..], ReplaceAll(s, rules[0])) == Simultaneous(rules, s)
  {
    if s != "" {
      var head := if s[0] == rules[0].pattern then rules[0].replacement else [s[0]];
      FirstRuleFirst(rules, s[1..]);
      SimultaneousConcat(rules[1..], head, ReplaceAll(s[1..], rules[0]));
      if s[0] == rules[0].pattern {
        Untouched(rules[1..], head);
      } else {
        assert Simultaneous(rules[1..], head) == EncodeChar(rules[1..], s[0]) + Simultaneous(rules[1..], head[1..]);
      }
    }
  }

  lemma {:induction false} NonInterferingSuffices(rules: seq<Rule>, s: string)
    requires NonInterfering(rules)
    ensures Sequential(rules, s) == Simultaneous(rules, s)
    decreases |rules|
  {
    if rules == [] {
      Untouched(rules, s);
    } else {
      NonInterferingSuffices(rules[1..], ReplaceAll(s, rules[0]));
      FirstRuleFirst(rules, s);
    }
  }

  /** Every replacement is longer than the character it replaces. */
  predicate Lengthening(rules: seq<Rule>)
  {
    forall i :: 0 <= i < |rules| ==> |rules[i].replacement| > 1
  }

  lemma {:induction false} ReplaceGrows(s: string, r: Rule)
    requires |r.replacement| > 1
    ensures |ReplaceAll(s, r)| >= |s|
    ensures r.pattern in s ==> |ReplaceAll(s, r)| > |s|
    ensures forall c :: c in s && c != r.pattern ==> c in ReplaceAll(s, r)
  {
    if s != "" {
      ReplaceGrows(s[1..], r);
      assert forall c :: c in s ==> c == s[0] || c in s[1..];
    }
  }

  lemma {:induction false} SequentialGrows(rules: seq<Rule>, s: string, k: int)
    requires Distinct(rules) && Lengthening(rules)
    requires -1 <= k < |rules| && (k >= 0 ==> rules[k].pattern in s)
    ensures |Sequential(rules, s)| >= |s|
    ensures k >= 0 ==> |Sequential(rules, s)| > |s|
    decreases |rules|
  {
    if rules != [] {
      ReplaceGrows(s, rules[0]);
      SequentialGrows(rules[1..], ReplaceAll(s, rules[0]), if k <= 0 then -1 else k - 1);
    }
  }

  /** A rule that rewrites an earlier replacement spoils the one-character text of the earlier rule. */
  lemma {:induction false} InterferenceShows(rules: seq<Rule>, i: nat, j: nat)
    requires Distinct(rules) && Lengthening(rules)
    requires i < j < |rules| && rules[j].pattern in rules[i].replacement
    ensures Sequential(rules, [rules[i].pattern]) != Simultaneous(rules, [rules[i].pattern])
    decreases |rules|
  {
    var s := [rules[i].pattern];
    assert s[1..] == "";
    assert Simultaneous(rules, s) == EncodeChar(rules, s[0]);
    if i == 0 {
      assert ReplaceAll(s, rules[0]) == rules[0].replacement;
      SequentialGrows(rules[1..], rules[0].replacement, j - 1);
    } else {
      assert ReplaceAll(s, rules[0]) == s;
      InterferenceShows(rules[1..], i - 1, j - 1);
      assert Simultaneous(rules[1..], s) == EncodeChar(rules[1..], s[0]);
    }
  }

  /** For distinct patterns with lengthening replacements, applying the rules one after another is the
      simultaneous encoding of every text if and only if no rule rewrites an earlier replacement. */
  lemma SequentialIsSimultaneousIff(rules: seq<Rule>)
    requires Distinct(rules) && Lengthening(rules)
    ensures (forall s :: Sequential(rules, s) == Simultaneous(rules, s)) <==> NonInterfering(rules)
  {
    if NonInterfering(rules) {
      forall s
        ensures Sequential(rules, s) == Simultaneous(rules, s)
      {
        NonInterferingSuffices(rules, s);
      }
    } else {
      var i, j :| 0 <= i < j < |rules| && rules[j].pattern in rules[i].replacement;
      InterferenceShows(rules, i, j);
    }
  }

  // ----- the script's own rules -----

  const RULES: seq<Rule> := [
    Rule('%', "%25"), Rule(' ', "%20"), Rule('!', "%21"), Rule('\"', "%22"), Rule('#', "%23"), Rule('$', "%24"),
    Rule('&', "%26"), Rule('\'', "%27"), Rule('(', "%28"), Rule(')', "%29"), Rule('*', "%2A"), Rule('+', "%2B"),
    Rule(',', "%2C"), Rule('-', "%2D"), Rule('.', "%2E"), Rule('/', "%2F"), Rule(':', "%3A"), Rule(';', "%3B"),
    Rule('<', "%3C"), Rule('=', "%3D"), Rule('>', "%3E"), Rule('?', "%3F"), Rule('@', "%40"), Rule('[', "%5B"),
    Rule('\\', "%5C"), Rule(']', "%5D"), Rule('^', "%5E"), Rule('_', "%5F"), Rule('`', "%60"), Rule('{', "%7B"),
    Rule('|', "%7C"), Rule('}', "%7D"), Rule('~', "%7E")]

  function EncodeUrl(s: string): string { Sequential(RULES, s) }

  /** Space and ASCII punctuation. */
  predicate IsSpecial(c: char)
  {
    ' ' <= c <= '/' || ':' <= c <= '@' || '[' <= c <= '`' || '{' <= c <= '~'
  }

  /** The character code of the i-th pattern: `%` first, then the others in ascending order. */
  function PatternCode(i: nat): nat
  {
    if i == 0 then 37 else if i <= 5 then 31 + i else if i <= 15 then 32 + i
    else if i <= 22 then 42 + i else if i <= 28 then 68 + i else 94 + i
  }

  predicate RuleIs(r: Rule, code: nat)
  {
    code < 256 && r.pattern == code as char && r.replacement == PercentByte(r.pattern)
  }

  lemma RulesLow(i: nat)
    requires i < 11
    ensures RuleIs(RULES[i], PatternCode(i))
  {
  }

  lemma RulesMiddle(i: nat)
    requires 11 <= i < 22
    ensures RuleIs(RULES[i], PatternCode(i))
  {
  }

  lemma RulesHigh(i: nat)
    requires 22 <= i < 33
    ensures RuleIs(RULES[i], PatternCode(i))
  {
  }

  /** Every rule replaces one special character by its percent-encoding. */
  predicate IsTable(rules: seq<Rule>)
  {
    |rules| == 33 && forall i :: 0 <= i < 33 ==> RuleIs(rules[i], PatternCode(i))
  }

  lemma RulesAreTable()
    ensures IsTable(RULES)
  {
    forall i | 0 <= i < 33
      ensures RuleIs(RULES[i], PatternCode(i))
    {
      if i < 11 { RulesLow(i); } else if i < 22 { RulesMiddle(i); } else { RulesHigh(i); }
    }
  }

  /** The rule for a special character. */
  function RuleOf(c: char): nat
    requires IsSpecial(c)
  {
    var n := c as int;
    if n == 37 then 0 else if n < 37 then n - 31 else if n <= 47 then n - 32
    else if n <= 64 then n - 42 else if n <= 96 then n - 68 else n - 94
  }

  /** No pattern repeats, and none occurs in a replacement made before its turn: `%` goes first. */
  lemma TableShape(rules: seq<Rule>)
    requires IsTable(rules)
    ensures Distinct(rules) && Lengthening(rules) && NonInterfering(rules)
  {
    forall i, j | 0 <= i < j < |rules|
      ensures rules[j].pattern !in rules[i].replacement
    {
      assert RuleIs(rules[i], PatternCode(i)) && RuleIs(rules[j], PatternCode(j));
    }
  }

  lemma {:induction false} EncodeCharAt(rules: seq<Rule>, i: nat)
    requires Distinct(rules) && i < |rules|
    ensures EncodeChar(rules, rules[i].pattern) == rules[i].replacement
  {
    if i > 0 {
      EncodeCharAt(rules[1..], i - 1);
    }
  }

  lemma SpecialIsEncoded(rules: seq<Rule>, c: char)
    requires IsTable(rules) && Distinct(rules) && IsSpecial(c)
    ensures EncodeChar(rules, c) == PercentByte(c)
  {
    var i := RuleOf(c);
    assert RuleIs(rules[i], PatternCode(i));
    EncodeCharAt(rules, i);
  }

  /** The rules encode exactly space and ASCII punctuation. */
  lemma TableEncodesSpecials(rules: seq<Rule>, c: char)
    requires IsTable(rules)
    ensures EncodeChar(rules, c) == if IsSpecial(c) then PercentByte(c) else [c]
  {
    TableShape(rules);
    if IsSpecial(c) {
      SpecialIsEncoded(rules, c);
    } else {
      CharUntouched(rules, c);
    }
  }

  /** The 33 substitutions in sequence encode every original character once. */
  lemma EncodeUrlIsSimultaneous(s: string)
    ensures EncodeUrl(s) == Simultaneous(RULES, s)
  {
    RulesAreTable();
    TableShape(RULES);
    NonInterferingSuffices(RULES, s);
  }

  lemma {:induction false} DecodeSimultaneous(rules: seq<Rule>, s: string)
    requires IsTable(rules)
    ensures PercentDecode(Simultaneous(rules, s)) == s
  {
    if s != "" {
      var c, rest := s[0], Simultaneous(rules, s[1..]);
      TableEncodesSpecials(rules, c);
      DecodeSimultaneous(rules, s[1..]);
      DecodeStep(c, rest);
    }
  }

  lemma DecodeStep(c: char, rest: string)
    ensures IsSpecial(c) ==> PercentDecode(PercentByte(c) + rest) == [c] + PercentDecode(rest)
    ensures c != '%' ==> PercentDecode([c] + rest) == [c] + PercentDecode(rest)
  {
    assert ([c] + rest)[1..] == rest;
    if IsSpecial(c) {
      var s := PercentByte(c) + rest;
      assert s[3..] == rest && s[1] == HexChar(c as int / 16) && s[2] == HexChar(c as int % 16);
    }
  }

  /** `encode_url` is inverted by percent-decoding, on every text. */
  lemma DecodeInvertsEncodeUrl(s: string)
    ensures PercentDecode(EncodeUrl(s)) == s
  {
    EncodeUrlIsSimultaneous(s);
    RulesAreTable();
    DecodeSimultaneous(RULES, s);
  }

  /** At every position: no special character except a `%` that is followed by two upper-case digits. */
  predicate Encoded(s: string)
  {
    forall k :: 0 <= k < |s| && IsSpecial(s[k]) ==>
      s[k] == '%' && k + 2 < |s| && IsUpperHex(s[k + 1]) && IsUpperHex(s[k + 2])
  }

  lemma EncodedStep(c: char, rest: string)
    requires Encoded(rest)
    ensures Encoded((if IsSpecial(c) then PercentByte(c) else [c]) + rest)
  {
  }

  lemma {:induction false} SimultaneousIsEncoded(rules: seq<Rule>, s: string)
    requires IsTable(rules)
    ensures Encoded(Simultaneous(rules, s))
  {
    if s != "" {
      TableEncodesSpecials(rules, s[0]);
      SimultaneousIsEncoded(rules, s[1..]);
      EncodedStep(s[0], Simultaneous(rules, s[1..]));
    }
  }

  /** The output can be used as a value in a query string. */
  lemma EncodeUrlAlphabet(s: string)
    ensures Encoded(EncodeUrl(s))
  {
    EncodeUrlIsSimultaneous(s);
    RulesAreTable();
    SimultaneousIsEncoded(RULES, s);
  }
}
