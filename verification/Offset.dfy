/** The text of one collected item: ` lotNum=L lineNum=N id="value" ...`, the parser that defines what
    it means, and the bounds on its length. */
module Offset {
  import opened Text
  import opened UriEscape

  datatype Field = Field(id: int, value: string)

  /** One element of the collect queue. */
  datatype Item = Item(lotNum: int, lineNum: int, fields: seq<Field>, time: int)

  ghost predicate CStringFields(fs: seq<Field>)
  {
    forall i :: 0 <= i < |fs| ==> IsCString(fs[i].value)
  }

  ghost predicate ValidItem(item: Item) { CStringFields(item.fields) }

  // ----- the printed text -----

  function FieldText(esc: Escaper, f: Field): string
  {
    " " + Decimal(f.id) + "=\"" + esc(f.value) + "\""
  }

  function FieldsText(esc: Escaper, fs: seq<Field>): string
  {
    if fs == [] then "" else FieldText(esc, fs[0]) + FieldsText(esc, fs[1..])
  }

  function NumbersText(lotNum: int, lineNum: int): string
  {
    " lotNum=" + Decimal(lotNum) + " lineNum=" + Decimal(lineNum)
  }

  function OffsetText(esc: Escaper, item: Item): string
  {
    NumbersText(item.lotNum, item.lineNum) + FieldsText(esc, item.fields)
  }

  // ----- the parser -----

  datatype Parsed = Parsed(lotNum: int, lineNum: int, fields: seq<Field>)

  function ParseField(s: string): (r: Option<(Field, string)>)
    ensures r.Some? ==> |r.value.1| < |s|
  {
    var s1 :- Expect(s, " ");
    var (id, s2) :- ParseInt(s1);
    var s3 :- Expect(s2, "=\"");
    var (text, rest) :- Until(s3, '"');
    Some((Field(id, PercentDecode(text)), rest))
  }

  function ParseFields(s: string): Option<seq<Field>>
    decreases |s|
  {
    if s == "" then Some([]) else
      var (f, rest) :- ParseField(s);
      var more :- ParseFields(rest);
      Some([f] + more)
  }

  function ParseNumbers(s: string): Option<(int, int, string)>
  {
    var s1 :- Expect(s, " lotNum=");
    var (lotNum, s2) :- ParseInt(s1);
    var s3 :- Expect(s2, " lineNum=");
    var (lineNum, s4) :- ParseInt(s3);
    Some((lotNum, lineNum, s4))
  }

  function ParseOffset(s: string): Option<Parsed>
  {
    var (lotNum, lineNum, rest) :- ParseNumbers(s);
    var fields :- ParseFields(rest);
    Some(Parsed(lotNum, lineNum, fields))
  }

  lemma {:induction false} EscapedIsFree(esc: Escaper, v: string, c: char)
    requires MeetsContract(esc) && IsCString(v)
    requires !Unreserved(c) && c != '%' && c as int < 128
    ensures Free(esc(v), c)
  {
    EscapeAlphabet(esc(v), v);
  }

  lemma ParsePrintedField(esc: Escaper, f: Field, rest: string)
    requires MeetsContract(esc) && IsCString(f.value)
    ensures ParseField(FieldText(esc, f) + rest) == Some((f, rest))
  {
    var v := esc(f.value);
    var s3 := v + ['"'] + rest;
    var s2 := "=\"" + s3;
    var s1 := Decimal(f.id) + s2;
    assert FieldText(esc, f) + rest == " " + s1 by {
      Regroup5(" ", Decimal(f.id), "=\"", v + ['"'], rest);
      assert FieldText(esc, f) == " " + Decimal(f.id) + "=\"" + (v + ['"']);
    }
    ExpectIs(" ", s1);
    ParseDecimal(f.id, s2);
    ExpectIs("=\"", s3);
    EscapedIsFree(esc, f.value, '"');
    UntilIs(v, '"', rest);
    DecodeInvertsEscape(v, f.value);
  }

  lemma ParseFieldsStep(s: string, f: Field, rest: string, more: seq<Field>)
    requires ParseField(s) == Some((f, rest)) && ParseFields(rest) == Some(more)
    ensures ParseFields(s) == Some([f] + more)
  {
  }

  lemma OneMoreField(esc: Escaper, f: Field, rest: string, more: seq<Field>)
    requires MeetsContract(esc) && IsCString(f.value) && ParseFields(rest) == Some(more)
    ensures ParseFields(FieldText(esc, f) + rest) == Some([f] + more)
  {
    ParsePrintedField(esc, f, rest);
    ParseFieldsStep(FieldText(esc, f) + rest, f, rest, more);
  }

  lemma {:induction false} ParsePrintedFields(esc: Escaper, fs: seq<Field>)
    requires MeetsContract(esc) && CStringFields(fs)
    ensures ParseFields(FieldsText(esc, fs)) == Some(fs)
  {
    if fs != [] {
      ParsePrintedFields(esc, fs[1..]);
      OneMoreField(esc, fs[0], FieldsText(esc, fs[1..]), fs[1..]);
      assert fs == [fs[0]] + fs[1..];
    }
  }

  lemma ParsePrintedNumbers(lotNum: int, lineNum: int, rest: string)
    requires rest == "" || !IsDigit(rest[0])
    ensures ParseNumbers(NumbersText(lotNum, lineNum) + rest) == Some((lotNum, lineNum, rest))
  {
    var s3 := Decimal(lineNum) + rest;
    var s2 := " lineNum=" + s3;
    var s1 := Decimal(lotNum) + s2;
    Regroup5(" lotNum=", Decimal(lotNum), " lineNum=", Decimal(lineNum), rest);
    ExpectIs(" lotNum=", s1);
    ParseDecimal(lotNum, s2);
    ExpectIs(" lineNum=", s3);
    ParseDecimal(lineNum, rest);
  }

  lemma {:induction false} FieldsTextStart(esc: Escaper, fs: seq<Field>)
    ensures fs == [] ==> FieldsText(esc, fs) == ""
    ensures fs != [] ==> FieldsText(esc, fs) != "" && FieldsText(esc, fs)[0] == ' '
  {
  }

  /** Round trip: parsing the printed text gives back the numbers, the ids and the decoded values, in
      order, for every item. */
  lemma ParsePrintedItem(esc: Escaper, item: Item)
    requires MeetsContract(esc) && CStringFields(item.fields)
    ensures ParseOffset(OffsetText(esc, item)) == Some(Parsed(item.lotNum, item.lineNum, item.fields))
  {
    FieldsTextStart(esc, item.fields);
    ParsePrintedNumbers(item.lotNum, item.lineNum, FieldsText(esc, item.fields));
    ParsePrintedFields(esc, item.fields);
  }

  /** Two items print alike exactly when they carry the same numbers and fields. */
  lemma PrintedItemIsInjective(esc: Escaper, a: Item, b: Item)
    requires MeetsContract(esc) && CStringFields(a.fields) && CStringFields(b.fields)
    ensures OffsetText(esc, a) == OffsetText(esc, b)
            <==> a.lotNum == b.lotNum && a.lineNum == b.lineNum && a.fields == b.fields
  {
    ParsePrintedItem(esc, a);
    ParsePrintedItem(esc, b);
  }

  /** The empty text of a heartbeat is the text of no item. */
  lemma NoItemPrintsEmpty(esc: Escaper, item: Item)
    ensures OffsetText(esc, item) != ""
    ensures ParseOffset("") == None
  {
    assert |NumbersText(item.lotNum, item.lineNum)| >= |" lotNum="|;
  }

  /** No printed item contains a quote that is not a delimiter, a bracket or a line feed. */
  lemma {:induction false} FieldsTextFree(esc: Escaper, fs: seq<Field>, c: char)
    requires MeetsContract(esc) && CStringFields(fs)
    requires !Unreserved(c) && c !in " =\"%" && c as int < 128
    ensures Free(FieldsText(esc, fs), c)
  {
    if fs != [] {
      EscapedIsFree(esc, fs[0].value, c);
      DecimalFree(fs[0].id, c);
      FieldsTextFree(esc, fs[1..], c);
    }
  }

  lemma OffsetTextFree(esc: Escaper, item: Item, c: char)
    requires MeetsContract(esc) && CStringFields(item.fields)
    requires !Unreserved(c) && c !in " =\"%" && c as int < 128
    ensures Free(OffsetText(esc, item), c)
  {
    FieldsTextFree(esc, item.fields, c);
    DecimalFree(item.lotNum, c);
    DecimalFree(item.lineNum, c);
  }

  // ----- lengths -----

  /** Total number of raw value bytes. */
  function RawBytes(fs: seq<Field>): nat
  {
    if fs == [] then 0 else |fs[0].value| + RawBytes(fs[1..])
  }

  ghost predicate Int32Fields(fs: seq<Field>)
  {
    forall i :: 0 <= i < |fs| ==> Int32(fs[i].id)
  }

  lemma {:induction false} FieldsTextLength(esc: Escaper, fs: seq<Field>)
    requires MeetsContract(esc) && CStringFields(fs) && Int32Fields(fs)
    ensures |FieldsText(esc, fs)| <= 15 * |fs| + 3 * RawBytes(fs)
  {
    if fs != [] {
      EscapeLength(esc(fs[0].value), fs[0].value);
      DecimalLength32(fs[0].id);
      FieldsTextLength(esc, fs[1..]);
    }
  }

  /** The size of the local buffers that receive the text and its terminator. */
  const BUFFER_SIZE := 10000

  /** What the values contribute to the text. */
  function FieldsSize(esc: Escaper, fs: seq<Field>): nat
  {
    if fs == [] then 0 else 4 + |Decimal(fs[0].id)| + |esc(fs[0].value)| + FieldsSize(esc, fs[1..])
  }

  /** Are the numbers and the values short enough, as a caller can sum them up? */
  ghost predicate FitsBuffer(esc: Escaper, item: Item)
  {
    17 + |Decimal(item.lotNum)| + |Decimal(item.lineNum)| + FieldsSize(esc, item.fields) < BUFFER_SIZE
  }

  lemma {:induction false} FieldsTextSize(esc: Escaper, fs: seq<Field>)
    ensures |FieldsText(esc, fs)| == FieldsSize(esc, fs)
  {
    if fs != [] {
      FieldsTextSize(esc, fs[1..]);
    }
  }

  /** The item fits exactly when its text and the terminator are not longer than the buffer. */
  lemma FitsBufferIff(esc: Escaper, item: Item)
    ensures FitsBuffer(esc, item) <==> |OffsetText(esc, item)| < BUFFER_SIZE
  {
    FieldsTextSize(esc, item.fields);
  }

  /** Length bound, and the caller-side condition under which the fixed buffer is large enough. */
  lemma OffsetTextLength(esc: Escaper, item: Item)
    requires MeetsContract(esc) && CStringFields(item.fields)
    requires Int32(item.lotNum) && Int32(item.lineNum) && Int32Fields(item.fields)
    ensures |OffsetText(esc, item)| <= 39 + 15 * |item.fields| + 3 * RawBytes(item.fields)
    ensures 15 * |item.fields| + 3 * RawBytes(item.fields) <= 9960 ==> FitsBuffer(esc, item)
  {
    FitsBufferIff(esc, item);
    DecimalLength32(item.lotNum);
    DecimalLength32(item.lineNum);
    FieldsTextLength(esc, item.fields);
  }

  /** A printed value takes five characters besides its own text. */
  lemma {:induction false} FieldsTextAtLeast(esc: Escaper, fs: seq<Field>)
    ensures |FieldsText(esc, fs)| >= 5 * |fs|
    ensures MeetsContract(esc) && CStringFields(fs) ==> |FieldsText(esc, fs)| >= 5 * |fs| + RawBytes(fs)
  {
    if fs != [] {
      NaturalIsDigits(if fs[0].id < 0 then -fs[0].id else fs[0].id);
      FieldsTextAtLeast(esc, fs[1..]);
      if MeetsContract(esc) && CStringFields(fs) {
        EscapeLength(esc(fs[0].value), fs[0].value);
      }
    }
  }

  lemma NumbersTextAtLeast(lotNum: int, lineNum: int)
    ensures |NumbersText(lotNum, lineNum)| >= 19
  {
    NaturalIsDigits(if lotNum < 0 then -lotNum else lotNum);
    NaturalIsDigits(if lineNum < 0 then -lineNum else lineNum);
  }

  /** The text is never shorter than this. */
  lemma OffsetTextAtLeast(esc: Escaper, item: Item)
    requires MeetsContract(esc) && ValidItem(item)
    ensures |OffsetText(esc, item)| >= 19 + 5 * |item.fields| + RawBytes(item.fields)
  {
    NumbersTextAtLeast(item.lotNum, item.lineNum);
    FieldsTextAtLeast(esc, item.fields);
  }

  /** An item that fits the buffer has at most 1996 values, so that a 16-bit counter walks all of them. */
  lemma FittingItemIsShort(esc: Escaper, item: Item)
    requires FitsBuffer(esc, item)
    ensures |item.fields| <= 1996
  {
    FitsBufferIff(esc, item);
    NumbersTextAtLeast(item.lotNum, item.lineNum);
    FieldsTextAtLeast(esc, item.fields);
  }

  /** An item with n empty values. */
  function EmptyValues(n: nat): Item { Item(0, 0, seq(n, _ => Field(0, "")), 0) }

  lemma EmptyFieldText(esc: Escaper)
    requires MeetsContract(esc)
    ensures |FieldText(esc, Field(0, ""))| == 5
  {
    assert IsEscapeOf(esc(""), "");
  }

  lemma {:induction false} EmptyValuesLength(esc: Escaper, n: nat)
    requires MeetsContract(esc)
    ensures |FieldsText(esc, EmptyValues(n).fields)| == 5 * n
  {
    if n > 0 {
      EmptyFieldText(esc);
      assert EmptyValues(n).fields[1..] == EmptyValues(n - 1).fields;
      EmptyValuesLength(esc, n - 1);
    }
  }

  /** The bound is attained: 1996 empty values fit, 1997 do not. */
  lemma EmptyValuesFitIff(esc: Escaper, n: nat)
    requires MeetsContract(esc)
    ensures ValidItem(EmptyValues(n))
    ensures FitsBuffer(esc, EmptyValues(n)) <==> n <= 1996
  {
    FitsBufferIff(esc, EmptyValues(n));
    EmptyValuesLength(esc, n);
    assert Natural(0) == "0";
    assert |NumbersText(0, 0)| == 19;
  }

  /** Every write of the print loop into its two buffers stays inside, the terminator included. */
  ghost predicate WritesInBounds(esc: Escaper, item: Item)
  {
    var numbers := |NumbersText(item.lotNum, item.lineNum)|;
    && numbers < BUFFER_SIZE
    && forall i :: 0 <= i < |item.fields| ==>
         && |FieldText(esc, item.fields[i])| < BUFFER_SIZE
         && numbers + |FieldsText(esc, item.fields[..i + 1])| < BUFFER_SIZE
  }

  lemma {:induction false} FieldsTextConcat(esc: Escaper, a: seq<Field>, b: seq<Field>)
    ensures FieldsText(esc, a + b) == FieldsText(esc, a) + FieldsText(esc, b)
  {
    if a == [] {
      assert a + b == b;
    } else {
      assert (a + b)[1..] == a[1..] + b;
      FieldsTextConcat(esc, a[1..], b);
    }
  }

  lemma FieldsTextSnoc(esc: Escaper, fs: seq<Field>, i: nat)
    requires i < |fs|
    ensures FieldsText(esc, fs[..i + 1]) == FieldsText(esc, fs[..i]) + FieldText(esc, fs[i])
  {
    assert fs[..i + 1] == fs[..i] + [fs[i]] && [fs[i]][1..] == [];
    FieldsTextConcat(esc, fs[..i], [fs[i]]);
    assert FieldsText(esc, [fs[i]]) == FieldText(esc, fs[i]) + "";
  }

  lemma FieldsTextPrefix(esc: Escaper, fs: seq<Field>, i: nat)
    requires i < |fs|
    ensures |FieldText(esc, fs[i])| <= |FieldsText(esc, fs[..i + 1])| <= |FieldsText(esc, fs)|
  {
    FieldsTextSnoc(esc, fs, i);
    assert fs == fs[..i + 1] + fs[i + 1..];
    FieldsTextConcat(esc, fs[..i + 1], fs[i + 1..]);
  }

  /** No write leaves the buffers if and only if the whole text fits. */
  lemma WritesInBoundsIff(esc: Escaper, item: Item)
    ensures WritesInBounds(esc, item) <==> FitsBuffer(esc, item)
  {
    FitsBufferIff(esc, item);
    if FitsBuffer(esc, item) {
      forall i | 0 <= i < |item.fields|
        ensures |FieldText(esc, item.fields[i])| <= |FieldsText(esc, item.fields[..i + 1])|
        ensures |FieldsText(esc, item.fields[..i + 1])| <= |FieldsText(esc, item.fields)|
      {
        FieldsTextPrefix(esc, item.fields, i);
      }
    }
    if item.fields != [] {
      var last := |item.fields| - 1;
      assert item.fields[..last + 1] == item.fields;
      assert FieldText(esc, item.fields[last]) != "";
    }
  }
}
