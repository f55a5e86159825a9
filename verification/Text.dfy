/** Text primitives of the C and shell sources: `%d` printing, its inverse, and small scanning
    functions.  A C string is a `string` whose characters stand for its bytes. */
module Text {

  datatype Option<+T> = None | Some(value: T) {
    predicate IsFailure() { None? }
    function PropagateFailure<U>(): Option<U>
      requires None?
    {
      None
    }
    function Extract(): T
      requires Some?
    {
      value
    }
  }

  /** The pieces one after another. */
  function Flatten<T>(pieces: seq<seq<T>>): seq<T>
  {
    if pieces == [] then [] else pieces[0] + Flatten(pieces[1..])
  }

  lemma {:induction false} FlattenSnoc<T>(pieces: seq<seq<T>>, piece: seq<T>)
    ensures Flatten(pieces + [piece]) == Flatten(pieces) + piece
  {
    if pieces == [] {
      assert pieces + [piece] == [piece] && [piece][1..] == [];
    } else {
      assert (pieces + [piece])[1..] == pieces[1..] + [piece];
      FlattenSnoc(pieces[1..], piece);
    }
  }

  lemma Regroup3<T>(a: seq<T>, b: seq<T>, c: seq<T>)
    ensures a + b + c == a + (b + c)
  {
  }

  lemma Regroup4<T>(a: seq<T>, b: seq<T>, c: seq<T>, d: seq<T>)
    ensures a + b + c + d == a + (b + (c + d))
  {
  }

  lemma Regroup5<T>(a: seq<T>, b: seq<T>, c: seq<T>, d: seq<T>, e: seq<T>)
    ensures a + b + c + d + e == a + (b + (c + (d + e)))
  {
  }

  predicate IsDigit(c: char) { '0' <= c <= '9' }

  /** Does `c` not occur in `s`? */
  predicate Free(s: string, c: char) { forall i :: 0 <= i < |s| ==> s[i] != c }

  /** Do all characters stand for non-NUL bytes? */
  predicate IsCString(s: string) { forall i :: 0 <= i < |s| ==> 0 < s[i] as int < 256 }

  predicate All<T>(good: T -> bool, xs: seq<T>) { forall i :: 0 <= i < |xs| ==> good(xs[i]) }

  lemma AllSnoc<T>(good: T -> bool, xs: seq<T>, n: nat)
    requires n < |xs|
    ensures All(good, xs[..n + 1]) <==> All(good, xs[..n]) && good(xs[n])
  {
    var longer := xs[..n + 1];
    assert longer[n] == xs[n];
    assert forall i :: 0 <= i < n ==> xs[..n][i] == longer[i];
  }

  lemma AllConcat<T>(good: T -> bool, a: seq<T>, b: seq<T>)
    ensures All(good, a + b) <==> All(good, a) && All(good, b)
  {
    if All(good, a + b) {
      assert forall i :: 0 <= i < |a| ==> a[i] == (a + b)[i];
      assert forall i :: 0 <= i < |b| ==> b[i] == (a + b)[|a| + i];
    }
  }

  lemma AllFirst<T>(good: T -> bool, xs: seq<T>)
    requires xs != []
    ensures All(good, xs) <==> good(xs[0]) && All(good, xs[1..])
  {
    assert xs == [xs[0]] + xs[1..];
    AllConcat(good, [xs[0]], xs[1..]);
    assert [xs[0]][0] == xs[0];
  }

  lemma AllAt<T>(good: T -> bool, xs: seq<T>, n: nat, k: nat)
    requires k < n <= |xs| && All(good, xs[..n])
    ensures good(xs[k])
  {
    assert xs[..n][k] == xs[k];
  }

  lemma AllTake<T>(good: T -> bool, xs: seq<T>, n: nat, k: nat)
    requires k <= n <= |xs| && All(good, xs[..n])
    ensures All(good, xs[..k])
  {
    forall i | 0 <= i < k
      ensures good(xs[..k][i])
    {
      AllAt(good, xs, n, i);
    }
  }

  /** Number of elements before the first one that is not good. */
  function PrefixWhile<T>(good: T -> bool, xs: seq<T>): (n: nat)
    ensures n <= |xs| && (n < |xs| ==> !good(xs[n]))
    ensures forall i :: 0 <= i < n ==> good(xs[i])
  {
    if xs == [] || !good(xs[0]) then 0 else
      var n := PrefixWhile(good, xs[1..]);
      1 + n
  }

  lemma PrefixWhileTake<T>(good: T -> bool, xs: seq<T>)
    ensures All(good, xs[..PrefixWhile(good, xs)])
  {
  }

  lemma PrefixWhileIs<T>(good: T -> bool, xs: seq<T>, n: nat)
    requires n <= |xs| && (n < |xs| ==> !good(xs[n]))
    requires All(good, xs[..n])
    ensures PrefixWhile(good, xs) == n
  {
    var k := PrefixWhile(good, xs);
    if k < n {
      AllAt(good, xs, n, k);
    }
  }

  lemma PrefixWhileAll<T>(good: T -> bool, xs: seq<T>)
    ensures PrefixWhile(good, xs) == |xs| <==> All(good, xs)
  {
    assert xs[..|xs|] == xs;
    if All(good, xs) {
      PrefixWhileIs(good, xs, |xs|);
    }
  }

  // ----- printing integers -----

  function DigitChar(d: nat): char
    requires d < 10
  {
    ('0' as int + d) as char
  }

  function Natural(n: nat): string
  {
    if n < 10 then [DigitChar(n)] else Natural(n / 10) + [DigitChar(n % 10)]
  }

  /** What `%d` prints. */
  function Decimal(n: int): string
  {
    if n < 0 then "-" + Natural(-n) else Natural(n)
  }

  // ----- reading integers -----

  function NatValue(s: string): nat
    requires forall i :: 0 <= i < |s| ==> IsDigit(s[i])
  {
    if s == "" then 0 else
      assert IsDigit(s[|s| - 1]);
      10 * NatValue(s[..|s| - 1]) + (s[|s| - 1] as int - '0' as int)
  }

  /** Length of the longest prefix of digits. */
  function DigitRun(s: string): (k: nat)
    ensures k <= |s|
    ensures forall i :: 0 <= i < k ==> IsDigit(s[i])
    ensures k < |s| ==> !IsDigit(s[k])
  {
    if s == "" || !IsDigit(s[0]) then 0 else 1 + DigitRun(s[1..])
  }

  function ParseNat(s: string): (r: Option<(nat, string)>)
    ensures r.Some? ==> |r.value.1| < |s|
  {
    var k := DigitRun(s);
    if k == 0 then None else Some((NatValue(s[..k]), s[k..]))
  }

  /** Reads an optionally signed number greedily and returns it with the rest of the text. */
  function ParseInt(s: string): (r: Option<(int, string)>)
    ensures r.Some? ==> |r.value.1| < |s|
  {
    if s != "" && s[0] == '-' then
      var (n: int, rest) :- ParseNat(s[1..]);
      Some((-n, rest))
    else
      var (n, rest) :- ParseNat(s);
      Some((n as int, rest))
  }

  function Expect(s: string, prefix: string): (r: Option<string>)
    ensures r.Some? <==> prefix <= s
    ensures r.Some? ==> s == prefix + r.value
  {
    if prefix <= s then Some(s[|prefix|..]) else None
  }

  lemma ExpectIs(prefix: string, rest: string)
    ensures Expect(prefix + rest, prefix) == Some(rest)
  {
    assert (prefix + rest)[|prefix|..] == rest;
  }

  /** Position of the first `c`, or the length when there is none. */
  function IndexOf(s: string, c: char): (k: nat)
    ensures k <= |s|
    ensures Free(s[..k], c)
    ensures k < |s| ==> s[k] == c
  {
    if s == "" || s[0] == c then 0 else 1 + IndexOf(s[1..], c)
  }

  /** Splits at the first `c`, which must be present; `c` itself is dropped. */
  function Until(s: string, c: char): (r: Option<(string, string)>)
    ensures r.Some? ==> s == r.value.0 + [c] + r.value.1 && Free(r.value.0, c)
  {
    var k := IndexOf(s, c);
    if k == |s| then None else
      assert s == s[..k] + [c] + s[k + 1..];
      Some((s[..k], s[k + 1..]))
  }

  lemma NaturalIsDigits(n: nat)
    ensures |Natural(n)| > 0
    ensures forall i :: 0 <= i < |Natural(n)| ==> IsDigit(Natural(n)[i])
  {
  }

  lemma {:induction false} NaturalValue(n: nat)
    ensures |Natural(n)| > 0
    ensures forall i :: 0 <= i < |Natural(n)| ==> IsDigit(Natural(n)[i])
    ensures NatValue(Natural(n)) == n
  {
    NaturalIsDigits(n);
    var s := Natural(n);
    if n < 10 {
      assert s[..|s| - 1] == "";
    } else {
      NaturalValue(n / 10);
      assert s[..|s| - 1] == Natural(n / 10);
    }
  }

  lemma {:induction false} DigitRunIs(s: string, rest: string)
    requires forall i :: 0 <= i < |s| ==> IsDigit(s[i])
    requires rest == "" || !IsDigit(rest[0])
    ensures DigitRun(s + rest) == |s|
  {
    if s == "" {
      assert s + rest == rest;
    } else {
      assert (s + rest)[1..] == s[1..] + rest;
      DigitRunIs(s[1..], rest);
    }
  }

  lemma ParseNatural(n: nat, rest: string)
    requires rest == "" || !IsDigit(rest[0])
    ensures ParseNat(Natural(n) + rest) == Some((n, rest))
  {
    NaturalValue(n);
    DigitRunIs(Natural(n), rest);
    var s := Natural(n) + rest;
    assert s[..|Natural(n)|] == Natural(n) && s[|Natural(n)|..] == rest;
  }

  lemma ParseSigned(n: int, digits: string, rest: string)
    requires digits != "" && IsDigit(digits[0])
    requires var r := ParseNat(digits + rest);
             r.Some? && r.value.0 == (if n < 0 then -n else n) && r.value.1 == rest
    ensures ParseInt((if n < 0 then "-" + digits else digits) + rest) == Some((n, rest))
  {
    if n < 0 {
      assert ("-" + digits + rest)[1..] == digits + rest;
    } else {
      assert (digits + rest)[0] == digits[0];
    }
  }

  /** `ParseInt` inverts `%d` in front of any text that does not go on with a digit. */
  lemma ParseDecimal(n: int, rest: string)
    requires rest == "" || !IsDigit(rest[0])
    ensures ParseInt(Decimal(n) + rest) == Some((n, rest))
  {
    var m := if n < 0 then -n else n;
    ParseNatural(m, rest);
    NaturalIsDigits(m);
    ParseSigned(n, Natural(m), rest);
  }

  lemma {:induction false} IndexOfIs(a: string, c: char, b: string)
    requires Free(a, c)
    ensures IndexOf(a + [c] + b, c) == |a|
  {
    if a != "" {
      assert (a + [c] + b)[1..] == a[1..] + [c] + b;
      IndexOfIs(a[1..], c, b);
    }
  }

  lemma {:induction false} UntilIs(a: string, c: char, b: string)
    requires Free(a, c)
    ensures Until(a + [c] + b, c) == Some((a, b))
  {
    var s := a + [c] + b;
    IndexOfIs(a, c, b);
    assert s[..|a|] == a && s[|a| + 1..] == b;
  }

  // ----- lengths of printed integers -----

  predicate Int32(n: int) { -0x8000_0000 <= n < 0x8000_0000 }

  function Pow10(k: nat): nat { if k == 0 then 1 else 10 * Pow10(k - 1) }

  lemma {:induction false} NaturalLength(n: nat, k: nat)
    requires k > 0 && n < Pow10(k)
    ensures 0 < |Natural(n)| <= k
  {
    if n >= 10 {
      assert Pow10(0) == 1 && Pow10(k) == 10 * Pow10(k - 1);
      NaturalLength(n / 10, k - 1);
    }
  }

  lemma {:induction false} DecimalLength32(n: int)
    requires Int32(n)
    ensures 0 < |Decimal(n)| <= 11
  {
    assert Pow10(5) == 100000;
    assert Pow10(10) == 100000 * Pow10(5) by {
      assert Pow10(10) == 10 * Pow10(9) == 100 * Pow10(8) == 1000 * Pow10(7) == 10000 * Pow10(6);
    }
    NaturalLength(if n < 0 then -n else n, 10);
  }

  lemma {:induction false} DecimalFree(n: int, c: char)
    requires !IsDigit(c) && c != '-'
    ensures Free(Decimal(n), c)
  {
    NaturalIsDigits(if n < 0 then -n else n);
  }
}
