/** Lossy UTF-8 decoding as the stream's feed does it: each maximal well-formed prefix of a character that
    is not completed becomes one replacement character (Unicode Standard, section 3.9, table 3-7). */
module Utf8 {

  type Byte = b: int | 0 <= b < 256

  const REPLACEMENT: char := '\U{FFFD}'

  /** How many bytes must follow a lead byte. */
  function Need(lead: Byte): nat {
    if 0xC2 <= lead <= 0xDF then 1
    else if 0xE0 <= lead <= 0xEF then 2
    else if 0xF0 <= lead <= 0xF4 then 3
    else 0
  }

  predicate Continues(b: Byte) { 0x80 <= b <= 0xBF }

  /** Whether `b` may stand at position `i` of a character that starts with `lead`. */
  predicate Follows(lead: Byte, i: nat, b: Byte) {
    && Continues(b)
    && (i == 1 ==>
          && (lead == 0xE0 ==> b >= 0xA0) && (lead == 0xED ==> b <= 0x9F)
          && (lead == 0xF0 ==> b >= 0x90) && (lead == 0xF4 ==> b <= 0x8F))
  }

  /** How many bytes from position `i` on still belong to the character at the front. */
  function Matched(bytes: seq<Byte>, i: nat): (n: nat)
    requires 1 <= i <= |bytes|
    ensures i + n <= |bytes| && (n > 0 ==> i + n <= 1 + Need(bytes[0]))
    ensures forall k | i <= k < i + n :: Continues(bytes[k])
    decreases |bytes| - i
  {
    if i > Need(bytes[0]) || i == |bytes| || !Follows(bytes[0], i, bytes[i]) then 0 else 1 + Matched(bytes, i + 1)
  }

  /** The bytes that decode to the first character, replacement or not. */
  function UnitLength(bytes: seq<Byte>): (n: nat)
    requires bytes != []
    ensures 1 <= n <= |bytes| && n <= 1 + Need(bytes[0])
  {
    1 + Matched(bytes, 1)
  }

  /** A lead byte with all the bytes it needs. */
  predicate WellFormed(unit: seq<Byte>) {
    && unit != [] && |unit| == 1 + Need(unit[0]) && (unit[0] < 0x80 || Need(unit[0]) > 0)
    && forall i | 1 <= i < |unit| :: Follows(unit[0], i, unit[i])
  }

  function CodePoint(unit: seq<Byte>): (code: int)
    requires WellFormed(unit)
    ensures 0 <= code < 0xD800 || 0xE000 <= code < 0x11_0000
  {
    var lead: int := unit[0];
    if |unit| == 1 then lead
    else
      var second: int := unit[1];
      assert Follows(unit[0], 1, unit[1]);
      if |unit| == 2 then (lead - 0xC0) * 0x40 + (second - 0x80)
      else
        var third: int := unit[2];
        assert Follows(unit[0], 2, unit[2]);
        if |unit| == 3 then (lead - 0xE0) * 0x1000 + (second - 0x80) * 0x40 + (third - 0x80)
        else
          var fourth: int := unit[3];
          assert Follows(unit[0], 3, unit[3]);
          (lead - 0xF0) * 0x4_0000 + (second - 0x80) * 0x1000 + (third - 0x80) * 0x40 + (fourth - 0x80)
  }

  function CharOf(unit: seq<Byte>): char {
    if WellFormed(unit) then CodePoint(unit) as char else REPLACEMENT
  }

  function FirstChar(bytes: seq<Byte>): char
    requires bytes != []
  {
    CharOf(bytes[..UnitLength(bytes)])
  }

  function Lossy(bytes: seq<Byte>): (text: string)
    decreases |bytes|
  {
    if bytes == [] then "" else [FirstChar(bytes)] + Lossy(bytes[UnitLength(bytes)..])
  }

  /** No character of `bytes` spans position `at`. */
  predicate CharacterBoundary(bytes: seq<Byte>, at: nat)
    requires at <= |bytes|
    decreases |bytes|
  {
    at == 0 || (UnitLength(bytes) <= at && CharacterBoundary(bytes[UnitLength(bytes)..], at - UnitLength(bytes)))
  }

  // ---------------------------------------------------------------- decoding a split text

  lemma {:induction false} MatchedInPrefix(a: seq<Byte>, b: seq<Byte>, i: nat)
    requires 1 <= i <= |a|
    ensures Matched(a, i) == if Matched(a + b, i) <= |a| - i then Matched(a + b, i) else |a| - i
    decreases |a| - i
  {
    if i < |a| && i <= Need(a[0]) && Follows(a[0], i, a[i]) { MatchedInPrefix(a, b, i + 1); }
  }

  /** A character that ends within the prefix is the prefix's own; one that does not swallows it whole. */
  lemma UnitInPrefix(a: seq<Byte>, b: seq<Byte>)
    requires a != []
    ensures UnitLength(a) == if UnitLength(a + b) <= |a| then UnitLength(a + b) else |a|
    ensures UnitLength(a + b) <= |a| ==> FirstChar(a) == FirstChar(a + b)
    ensures UnitLength(a + b) > |a| ==> Lossy(a) == [REPLACEMENT]
  {
    MatchedInPrefix(a, b, 1);
    if UnitLength(a + b) <= |a| {
      assert a[..UnitLength(a)] == (a + b)[..UnitLength(a)];
    } else {
      CutShort(a);
    }
  }

  lemma CutShort(a: seq<Byte>)
    requires a != [] && UnitLength(a) == |a| <= Need(a[0])
    ensures Lossy(a) == [REPLACEMENT]
  {
    assert a[..|a|] == a && a[|a|..] == [];
    assert !WellFormed(a);
    assert Lossy(a) == [FirstChar(a)] + Lossy([]);
  }

  lemma {:induction false} ContinuationsStandAlone(b: seq<Byte>, m: nat)
    requires m <= |b| && forall k | 0 <= k < m :: Continues(b[k])
    ensures |Lossy(b)| == m + |Lossy(b[m..])|
    decreases m
  {
    if m > 0 {
      assert UnitLength(b) == 1;
      ContinuationsStandAlone(b[1..], m - 1);
      assert b[1..][m - 1..] == b[m..];
    } else {
      assert b[m..] == b;
    }
  }

  /** Decoding the two parts of a text alone gives the text's own decoding exactly when no character spans
      the split; otherwise it gives more characters. */
  lemma {:induction false} SplitIsExact(a: seq<Byte>, b: seq<Byte>)
    ensures Lossy(a) + Lossy(b) == Lossy(a + b) <==> CharacterBoundary(a + b, |a|)
    ensures |Lossy(a)| + |Lossy(b)| >= |Lossy(a + b)|
    ensures |Lossy(a)| + |Lossy(b)| == |Lossy(a + b)| <==> CharacterBoundary(a + b, |a|)
    decreases |a|
  {
    if a == [] {
      assert a + b == b && Lossy(a) + Lossy(b) == Lossy(b);
    } else if UnitLength(a + b) <= |a| {
      SplitIsExact(a[UnitLength(a + b)..], b);
      CharacterBeforeSplit(a, b);
    } else {
      CharacterAcrossSplit(a, b);
    }
  }

  lemma LossyUnfolds(bytes: seq<Byte>)
    requires bytes != []
    ensures Lossy(bytes) == [FirstChar(bytes)] + Lossy(bytes[UnitLength(bytes)..])
  {
  }

  lemma BoundaryUnfolds(bytes: seq<Byte>, at: nat)
    requires bytes != [] && UnitLength(bytes) <= at <= |bytes|
    ensures CharacterBoundary(bytes, at) <==> CharacterBoundary(bytes[UnitLength(bytes)..], at - UnitLength(bytes))
  {
  }

  lemma Reassociate(first: string, middle: string, last: string)
    ensures (first + middle) + last == first + (middle + last)
  {
  }

  lemma CharacterBeforeSplit(a: seq<Byte>, b: seq<Byte>)
    requires a != [] && UnitLength(a + b) <= |a|
    ensures var c := FirstChar(a + b); var rest := a[UnitLength(a + b)..];
      && Lossy(a + b) == [c] + Lossy(rest + b)
      && Lossy(a) + Lossy(b) == [c] + (Lossy(rest) + Lossy(b))
      && (CharacterBoundary(a + b, |a|) <==> CharacterBoundary(rest + b, |rest|))
  {
    UnitInPrefix(a, b);
    var n := UnitLength(a + b);
    assert (a + b)[n..] == a[n..] + b;
    LossyUnfolds(a);
    LossyUnfolds(a + b);
    Reassociate([FirstChar(a)], Lossy(a[n..]), Lossy(b));
    BoundaryUnfolds(a + b, |a|);
  }

  lemma CharacterAcrossSplit(a: seq<Byte>, b: seq<Byte>)
    requires a != [] && UnitLength(a + b) > |a|
    ensures |Lossy(a)| + |Lossy(b)| > |Lossy(a + b)| && !CharacterBoundary(a + b, |a|)
  {
    UnitInPrefix(a, b);
    var n := UnitLength(a + b);
    var m := n - |a|;
    assert forall k | 0 <= k < m :: b[k] == (a + b)[|a| + k];
    ContinuationsStandAlone(b, m);
    assert (a + b)[n..] == b[m..];
    assert |Lossy(a + b)| == 1 + |Lossy(b[m..])|;
  }

  function Whole(chunks: seq<seq<Byte>>): seq<Byte> {
    if chunks == [] then [] else chunks[0] + Whole(chunks[1..])
  }

  /** The text of chunks that are decoded one by one. */
  function Decoded(chunks: seq<seq<Byte>>): string {
    if chunks == [] then "" else Lossy(chunks[0]) + Decoded(chunks[1..])
  }

  /** Every chunk ends where a character of the rest of the text ends. */
  predicate SplitsCleanly(chunks: seq<seq<Byte>>) {
    chunks == [] || (CharacterBoundary(Whole(chunks), |chunks[0]|) && SplitsCleanly(chunks[1..]))
  }

  /** Decoding chunk by chunk gives the decoding of the whole exactly when no character spans a split. */
  lemma {:induction false} ChunksDecodeExactly(chunks: seq<seq<Byte>>)
    ensures Decoded(chunks) == Lossy(Whole(chunks)) <==> SplitsCleanly(chunks)
    ensures |Decoded(chunks)| >= |Lossy(Whole(chunks))|
    ensures |Decoded(chunks)| == |Lossy(Whole(chunks))| <==> SplitsCleanly(chunks)
    decreases |chunks|
  {
    if chunks == [] {
    } else {
      ChunksDecodeExactly(chunks[1..]);
      SplitIsExact(chunks[0], Whole(chunks[1..]));
    }
  }
}
