/** Percent-encoding (sections 2.1 and 2.3 of RFC 3986).  The library function that encodes a
    value is known by its contract only: unreserved bytes pass, other ASCII bytes become `%XX`, and a
    byte above 127 may do either (it passes when it belongs to valid UTF-8). */
module UriEscape {
  import opened Text

  predicate Unreserved(c: char)
  {
    'a' <= c <= 'z' || 'A' <= c <= 'Z' || IsDigit(c) || c == '-' || c == '.' || c == '_' || c == '~'
  }

  lemma UpperLetters(c: char)
    ensures 'A' <= c <= 'Z' <==> c in "ABCDEFGHIJKLMNOPQRSTUVWXYZ"
  {
    var upper := "ABCDEFGHIJKLMNOPQRSTUVWXYZ";
    if 'A' <= c <= 'Z' {
      assert upper[c as int - 'A' as int] == c;
    }
  }

  lemma LowerLetters(c: char)
    ensures 'a' <= c <= 'z' <==> c in "abcdefghijklmnopqrstuvwxyz"
  {
    var lower := "abcdefghijklmnopqrstuvwxyz";
    if 'a' <= c <= 'z' {
      assert lower[c as int - 'a' as int] == c;
    }
  }

  lemma Digits(c: char)
    ensures IsDigit(c) <==> c in "0123456789"
  {
    var digits := "0123456789";
    if IsDigit(c) {
      assert digits[c as int - '0' as int] == c;
    }
  }

  lemma Marks(c: char)
    ensures c == '-' || c == '.' || c == '_' || c == '~' <==> c in "-._~"
  {
    var marks := "-._~";
    assert marks[0] == '-' && marks[1] == '.' && marks[2] == '_' && marks[3] == '~';
  }

  /** The unreserved characters of section 2.3 of RFC 3986. */
  lemma UnreservedAre(c: char)
    ensures Unreserved(c) <==> c in "ABCDEFGHIJKLMNOPQRSTUVWXYZ" || c in "abcdefghijklmnopqrstuvwxyz"
                               || c in "0123456789" || c in "-._~"
  {
    UpperLetters(c);
    LowerLetters(c);
    Digits(c);
    Marks(c);
  }

  predicate IsHex(c: char) { IsDigit(c) || 'A' <= c <= 'F' || 'a' <= c <= 'f' }

  predicate IsUpperHex(c: char) { IsDigit(c) || 'A' <= c <= 'F' }

  function HexChar(d: nat): (c: char)
    requires d < 16
    ensures IsUpperHex(c) && HexValue(c) == d
  {
    if d < 10 then ('0' as int + d) as char else ('A' as int + d - 10) as char
  }

  function HexValue(c: char): (d: nat)
    requires IsHex(c)
    ensures d < 16
  {
    if IsDigit(c) then c as int - '0' as int
    else if 'A' <= c <= 'F' then c as int - 'A' as int + 10
    else c as int - 'a' as int + 10
  }

  /** Both cases of a hexadecimal letter have the value that its place in the alphabet gives. */
  lemma HexLetters(d: nat)
    requires 10 <= d < 16
    ensures var up, low := ('A' as int + d - 10) as char, ('a' as int + d - 10) as char;
            IsHex(up) && IsHex(low) && HexValue(up) == HexValue(low) == d
  {
  }

  function PercentByte(c: char): string
    requires c as int < 256
  {
    ['%', HexChar(c as int / 16), HexChar(c as int % 16)]
  }

  /** Standard decoding: `%XX` is one byte, everything else stands for itself. */
  function PercentDecode(s: string): string
  {
    if s == "" then ""
    else if s[0] == '%' && |s| >= 3 && IsHex(s[1]) && IsHex(s[2]) then
      [(16 * HexValue(s[1]) + HexValue(s[2])) as char] + PercentDecode(s[3..])
    else
      [s[0]] + PercentDecode(s[1..])
  }

  /** Is `enc` an encoding of `raw` that the contract allows? */
  ghost predicate IsEscapeOf(enc: string, raw: string)
    decreases |raw|
  {
    if raw == "" then enc == "" else
      var c := raw[0];
      || ((Unreserved(c) || c as int >= 128) && enc != "" && enc[0] == c && IsEscapeOf(enc[1..], raw[1..]))
      || (!Unreserved(c) && c as int < 256 && PercentByte(c) <= enc && IsEscapeOf(enc[3..], raw[1..]))
  }

  type Escaper = string -> string

  ghost predicate MeetsContract(esc: Escaper)
  {
    forall s :: IsCString(s) ==> IsEscapeOf(esc(s), s)
  }

  lemma {:induction false} DecodeInvertsEscape(enc: string, raw: string)
    requires IsEscapeOf(enc, raw)
    ensures PercentDecode(enc) == raw
    decreases |raw|
  {
    if raw != "" {
      var c := raw[0];
      if (Unreserved(c) || c as int >= 128) && enc != "" && enc[0] == c && IsEscapeOf(enc[1..], raw[1..]) {
        DecodeInvertsEscape(enc[1..], raw[1..]);
      } else {
        DecodeInvertsEscape(enc[3..], raw[1..]);
        assert PercentByte(c) == enc[..3];
        assert enc[0] == '%' && enc[1] == HexChar(c as int / 16) && enc[2] == HexChar(c as int % 16);
        assert 16 * HexValue(enc[1]) + HexValue(enc[2]) == c as int;
      }
      assert raw == [c] + raw[1..];
    }
  }

  /** The encoded text can neither close a quoted value nor break a line. */
  lemma {:induction false} EscapeAlphabet(enc: string, raw: string)
    requires IsEscapeOf(enc, raw)
    ensures forall i :: 0 <= i < |enc| ==> Unreserved(enc[i]) || enc[i] == '%' || enc[i] as int >= 128
    decreases |raw|
  {
    if raw != "" {
      var c := raw[0];
      if (Unreserved(c) || c as int >= 128) && enc != "" && enc[0] == c && IsEscapeOf(enc[1..], raw[1..]) {
        EscapeAlphabet(enc[1..], raw[1..]);
        assert enc == [c] + enc[1..];
      } else {
        EscapeAlphabet(enc[3..], raw[1..]);
        assert PercentByte(c) == enc[..3];
        assert enc == PercentByte(c) + enc[3..];
      }
    }
  }

  lemma {:induction false} EscapeLength(enc: string, raw: string)
    requires IsEscapeOf(enc, raw)
    ensures |raw| <= |enc| <= 3 * |raw|
    decreases |raw|
  {
    if raw != "" {
      var c := raw[0];
      if (Unreserved(c) || c as int >= 128) && enc != "" && enc[0] == c && IsEscapeOf(enc[1..], raw[1..]) {
        EscapeLength(enc[1..], raw[1..]);
      } else {
        assert |PercentByte(c)| == 3;
        EscapeLength(enc[3..], raw[1..]);
      }
    }
  }

  /** The encoder that escapes every byte above 127. */
  function EscapeAll(s: string): string
  {
    if s == "" then ""
    else (if Unreserved(s[0]) || s[0] as int >= 256 then [s[0]] else PercentByte(s[0])) + EscapeAll(s[1..])
  }

  lemma {:induction false} EscapeAllIsEscape(s: string)
    ensures IsEscapeOf(EscapeAll(s), s)
  {
    if s != "" {
      EscapeAllIsEscape(s[1..]);
      var e := EscapeAll(s);
      if Unreserved(s[0]) || s[0] as int >= 256 {
        assert e[1..] == EscapeAll(s[1..]);
      } else {
        assert e[3..] == EscapeAll(s[1..]) && PercentByte(s[0]) <= e;
      }
    }
  }

  /** The contract can be met. */
  lemma EscapeAllMeetsContract()
    ensures MeetsContract(EscapeAll)
  {
    forall s | IsCString(s)
      ensures IsEscapeOf(EscapeAll(s), s)
    {
      EscapeAllIsEscape(s);
    }
  }
}
