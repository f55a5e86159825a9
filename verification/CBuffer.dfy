/** Fixed-size character buffers that hold a terminated string.  A write that would leave the array is
    undefined in the original; here it is reported and not made.  The texts are taken to be C strings,
    without a terminator inside. */
module CBuffers {

  class CBuffer {
    const bytes: array<char>
    var len: nat
    ghost var Text: string      // the characters before the terminator

    ghost predicate Valid()
      reads this, bytes
    {
      len < bytes.Length && bytes[len] == '\0' && bytes[..len] == Text
    }

    constructor (size: nat)
      requires size > 0
      ensures Valid() && Text == "" && fresh(bytes) && bytes.Length == size
    {
      bytes := new char[size](_ => '\0');
      len, Text := 0, "";
    }

    /** Appends all of `s` behind the text; stays inside when both fit together with the terminator. */
    method Concat(s: string) returns (inside: bool)
      requires Valid()
      modifies this, bytes
      ensures inside <==> |old(Text)| + |s| < bytes.Length
      ensures Valid() && Text == if inside then old(Text) + s else old(Text)
    {
      inside := len + |s| < bytes.Length;
      if !inside {
        return;
      }
      var start := len;
      for i := 0 to |s|
        invariant len == start && Text == old(Text)
        invariant bytes[..start] == old(Text)
        invariant bytes[start..start + i] == s[..i]
      {
        bytes[start + i] := s[i];
        assert bytes[start..start + i + 1] == bytes[start..start + i] + [s[i]];
      }
      len := start + |s|;
      bytes[len] := '\0';
      assert bytes[..len] == bytes[..start] + bytes[start..start + |s|];
      Text := Text + s;
    }

    /** Replaces the text by `s`; stays inside when that fits together with the terminator. */
    method Print(s: string) returns (inside: bool)
      requires Valid()
      modifies this, bytes
      ensures inside <==> |s| < bytes.Length
      ensures Valid() && (inside ==> Text == s)
    {
      len, Text := 0, "";
      bytes[0] := '\0';
      inside := Concat(s);
    }

    /** Replaces the text by as much of `s` as fits. */
    method PrintBounded(s: string)
      requires Valid()
      modifies this, bytes
      ensures Valid() && Text == if |s| < bytes.Length then s else s[..bytes.Length - 1]
    {
      var inside := Print(if |s| < bytes.Length then s else s[..bytes.Length - 1]);
    }

    method Read() returns (s: string)
      requires Valid()
      ensures s == Text
    {
      s := bytes[..len];
    }
  }
}
