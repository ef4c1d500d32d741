/** Encoding text as UTF-8 (Unicode Standard, section 3.9, table 3-6), and reading it back. */
module Characters {
  import opened Utf8

  /** The bytes of one code point. */
  function EncodePoint(code: nat): (unit: seq<Byte>)
    requires code < 0x11_0000
    ensures unit != []
  {
    if code < 0x80 then [code]
    else if code < 0x800 then [0xC0 + code / 0x40, 0x80 + code % 0x40]
    else if code < 0x1_0000 then [0xE0 + code / 0x1000, 0x80 + code / 0x40 % 0x40, 0x80 + code % 0x40]
    else [0xF0 + code / 0x4_0000, 0x80 + code / 0x1000 % 0x40, 0x80 + code / 0x40 % 0x40, 0x80 + code % 0x40]
  }

  function EncodeText(text: string): seq<Byte> {
    if text == "" then [] else EncodePoint(text[0] as int) + EncodeText(text[1..])
  }

  lemma TwoBytes(code: nat)
    requires 0x80 <= code < 0x800
    ensures WellFormed(EncodePoint(code)) && CodePoint(EncodePoint(code)) == code
  {
    var unit := EncodePoint(code);
    assert 2 <= code / 0x40 < 0x20;
    assert Follows(unit[0], 1, unit[1]);
  }

  lemma Sixths(code: nat)
    ensures code / 0x40 == 0x40 * (code / 0x1000) + code / 0x40 % 0x40
    ensures code / 0x1000 == 0x40 * (code / 0x4_0000) + code / 0x1000 % 0x40
    ensures code == 0x40 * (code / 0x40) + code % 0x40
  {
    assert code / 0x1000 == code / 0x40 / 0x40;
    assert code / 0x4_0000 == code / 0x1000 / 0x40;
  }

  lemma ThreeBytes(code: nat)
    requires 0x800 <= code < 0xD800 || 0xE000 <= code < 0x1_0000
    ensures WellFormed(EncodePoint(code)) && CodePoint(EncodePoint(code)) == code
  {
    var unit := EncodePoint(code);
    Sixths(code);
    assert 0 <= code / 0x1000 < 0x10;
    assert Follows(unit[0], 1, unit[1]);
    assert Follows(unit[0], 2, unit[2]);
  }

  lemma FourBytes(code: nat)
    requires 0x1_0000 <= code < 0x11_0000
    ensures WellFormed(EncodePoint(code)) && CodePoint(EncodePoint(code)) == code
  {
    var unit := EncodePoint(code);
    Sixths(code);
    assert 0 <= code / 0x4_0000 < 5;
    assert Follows(unit[0], 1, unit[1]);
    assert Follows(unit[0], 2, unit[2]);
    assert Follows(unit[0], 3, unit[3]);
  }

  /** Every Unicode scalar value is encoded in a well-formed way, and decodes to itself. */
  lemma PointIsWellFormed(code: nat)
    requires code < 0xD800 || 0xE000 <= code < 0x11_0000
    ensures WellFormed(EncodePoint(code)) && CodePoint(EncodePoint(code)) == code
  {
    if code >= 0x1_0000 {
      FourBytes(code);
    } else if code >= 0x800 {
      ThreeBytes(code);
    } else if code >= 0x80 {
      TwoBytes(code);
    }
  }

  lemma {:induction false} MatchesWhole(unit: seq<Byte>, more: seq<Byte>, i: nat)
    requires WellFormed(unit) && 1 <= i <= |unit|
    ensures Matched(unit + more, i) == |unit| - i
    decreases |unit| - i
  {
    if i < |unit| {
      assert Follows(unit[0], i, unit[i]);
      MatchesWhole(unit, more, i + 1);
    }
  }

  /** Well-formed text is read back as it was written, whole or cut into chunks between characters: the
      replacement character stands only for bytes that no text encodes to. */
  lemma {:induction false} EncodedTextIsRead(text: string)
    ensures Lossy(EncodeText(text)) == text
    decreases |text|
  {
    if text == "" {
    } else {
      var unit, more := EncodePoint(text[0] as int), EncodeText(text[1..]);
      PointIsWellFormed(text[0] as int);
      MatchesWhole(unit, more, 1);
      LossyUnfolds(unit + more);
      assert (unit + more)[..|unit|] == unit && (unit + more)[|unit|..] == more;
      EncodedTextIsRead(text[1..]);
    }
  }

  lemma {:induction false} EncodingJoins(a: string, b: string)
    ensures EncodeText(a + b) == EncodeText(a) + EncodeText(b)
    decreases |a|
  {
    if a == "" {
      assert a + b == b;
    } else {
      assert (a + b)[1..] == a[1..] + b;
      EncodingJoins(a[1..], b);
      BytesReassociate(EncodePoint(a[0] as int), EncodeText(a[1..]), EncodeText(b));
    }
  }

  lemma BytesReassociate(first: seq<Byte>, middle: seq<Byte>, last: seq<Byte>)
    ensures (first + middle) + last == first + (middle + last)
  {
  }

  /** The end of one encoded text is a character boundary of the two together. */
  lemma TextsEndBetweenCharacters(a: string, b: string)
    ensures CharacterBoundary(EncodeText(a) + EncodeText(b), |EncodeText(a)|)
  {
    EncodingJoins(a, b);
    EncodedTextIsRead(a);
    EncodedTextIsRead(b);
    EncodedTextIsRead(a + b);
    SplitIsExact(EncodeText(a), EncodeText(b));
  }
}
