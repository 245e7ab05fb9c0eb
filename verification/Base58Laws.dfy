/** What the base58 codecs promise each other. */
module Base58Laws {
  import opened Numerals
  import opened UuidText
  import opened Base58

  // ---------------------------------------------------------------------
  // Bytes and text
  // ---------------------------------------------------------------------

  /** Every byte string of any length comes back from its text. */
  lemma BytesRoundTrip(b: seq<int>)
    requires InBase(256, b)
    ensures InAlphabet(Encoded(b)) && Convert(58, 256, Indices(Encoded(b))) == b
  {
    hide Symbol, Index;
    IndicesOfText(Convert(256, 58, b));
    ConvertBack(256, 58, b);
  }

  /** Every text over the alphabet comes back from its bytes. */
  lemma TextRoundTrip(s: string)
    requires InAlphabet(s)
    ensures Encoded(Convert(58, 256, Indices(s))) == s
  {
    hide Symbol, Index;
    ConvertBack(58, 256, Indices(s));
    TextOfIndices(s);
  }

  lemma {:induction false} AllGood(s: string)
    requires InAlphabet(s)
    ensures FirstBad(s) == |s|
  {
    hide Index, FirstBad;
    var f := FirstBad(s);
  }

  lemma AllGoodConverse(s: string)
    requires FirstBad(s) == |s|
    ensures InAlphabet(s)
  {
    hide Index, FirstBad;
  }

  // ---------------------------------------------------------------------
  // uuidToBase58 and base58ToUuid
  // ---------------------------------------------------------------------

  /** Decoding what was encoded gives the same UUID, written canonically. */
  lemma UuidRoundTrip(u: string)
    requires IsUuid(u)
    ensures UuidEncoded(u).Ok? && UuidDecoded(UuidEncoded(u).value) == Ok(Canonical(u))
  {
    hide Symbol, Index, FirstBad, Convert, Text, Dashed, HexText, NibblesOf;
    var b := BytesOf(Nibbles(u));
    BytesRoundTrip(b);
    AllGood(Encoded(b));
    NeverEmpty(b);
    NibblesOfBytes(Nibbles(u));
  }

  /** Encoding what was decoded gives the same text, for every text the decoder accepts. */
  lemma Base58RoundTrip(s: string)
    requires UuidDecoded(s).Ok?
    ensures UuidEncoded(UuidDecoded(s).value) == Ok(s)
  {
    hide Symbol, Index, FirstBad, Convert, Text, IsUuid;
    AllGoodConverse(s);
    var b := Convert(58, 256, Indices(s));
    ReadWritten(NibblesOf(b));
    BytesOfNibbles(b);
    TextRoundTrip(s);
  }

  /** The errors of the decoder, in the order of its checks: an empty text, the first character
      outside the alphabet, and any other number of bytes than sixteen. */
  lemma DecodeErrors(s: string)
    ensures UuidDecoded(s) == Err(EmptyInput) <==> s == ""
    ensures forall c :: UuidDecoded(s) == Err(BadCharacter(c)) <==>
              exists i :: 0 <= i < |s| && s[i] == c && Index(c) < 0 && forall k :: 0 <= k < i ==> Index(s[k]) >= 0
    ensures forall n: nat :: UuidDecoded(s) == Err(BadLength(n)) <==>
              s != "" && InAlphabet(s) && n != 16 && exists b :: InBase(256, b) && |b| == n && Encoded(b) == s
  {
    hide Symbol, Index, Convert, Text, NibblesOf, HexText, Dashed, Encoded;
    var i := FirstBad(s);
    forall j | 0 <= j < |s| && Index(s[j]) < 0 && forall k :: 0 <= k < j ==> Index(s[k]) >= 0
      ensures j == i
    {
    }
    if InAlphabet(s) {
      AllGood(s);
      TextRoundTrip(s);
      forall b | InBase(256, b) && Encoded(b) == s
        ensures b == Convert(58, 256, Indices(s))
      {
        BytesRoundTrip(b);
      }
    }
  }

  /** The encoders have one error, and so has the short decoder. */
  lemma OtherErrors(s: string)
    ensures if |s| - multiset(s)['-'] == 32 && HexAndDashes(s)
            then UuidEncoded(s).Ok? && ShortEncoded(s).Ok?
            else UuidEncoded(s) == Err(BadUuid) == ShortEncoded(s)
    ensures forall c :: ShortDecoded(s) == Err(BadCharacter(c)) <==>
              exists i :: 0 <= i < |s| && s[i] == c && Index(c) < 0 && forall k :: 0 <= k < i ==> Index(s[k]) >= 0
    ensures InAlphabet(s) ==> ShortDecoded(s).Ok?
  {
    hide Symbol, Index, Text, HexText, Dashed, Encoded, IsUuid, HexAndDashes, PaddedHex, BytesOf, ShortText, Value;
    UuidCharacters(s);
    var i := FirstBad(s);
    forall j | 0 <= j < |s| && Index(s[j]) < 0 && forall k :: 0 <= k < j ==> Index(s[k]) >= 0
      ensures j == i
    {
    }
  }

  /** What the decoder returns: 36 characters, dashes at 8, 13, 18 and 23 and nowhere else, and
      between them, in order, the lower-case hex digits of the sixteen bytes the text encodes. */
  lemma DecodedForm(s: string) returns (b: seq<int>)
    requires UuidDecoded(s).Ok?
    ensures InBase(256, b) && |b| == 16 && Encoded(b) == s
    ensures var u := UuidDecoded(s).value;
            && |u| == 36
            && (forall p :: 0 <= p < 36 ==> (u[p] == '-' <==> p == 8 || p == 13 || p == 18 || p == 23))
            && forall k :: 0 <= k < 16 ==>
                 && u[At(2 * k)] == "0123456789abcdef"[b[k] / 16]
                 && u[At(2 * k + 1)] == "0123456789abcdef"[b[k] % 16]
  {
    hide Symbol, Index, FirstBad, Convert, Text, Dashed, HexText;
    AllGoodConverse(s);
    TextRoundTrip(s);
    b := Convert(58, 256, Indices(s));
    var n := NibblesOf(b);
    DashedIsWritten(n);
    forall k | 0 <= k < 16
      ensures 0 <= b[k] / 16 < 16 && 0 <= b[k] % 16 < 16
      ensures UuidDecoded(s).value[At(2 * k)] == "0123456789abcdef"[b[k] / 16]
      ensures UuidDecoded(s).value[At(2 * k + 1)] == "0123456789abcdef"[b[k] % 16]
    {
      assert n[2 * k] == b[k] / 16 && n[2 * k + 1] == b[k] % 16;
    }
  }

  /** The decoder accepts exactly the encodings of sixteen bytes. */
  lemma AcceptsExactlyTheEncodings(s: string)
    ensures UuidDecoded(s).Ok? <==> exists b :: InBase(256, b) && |b| == 16 && Encoded(b) == s
  {
    hide Symbol, Index, FirstBad, Convert, Text, NibblesOf, Encoded, HexText, Dashed;
    if b :| InBase(256, b) && |b| == 16 && Encoded(b) == s {
      BytesRoundTrip(b);
      AllGood(s);
      NeverEmpty(b);
    }
    if UuidDecoded(s).Ok? {
      AllGoodConverse(s);
      TextRoundTrip(s);
    }
  }

  // ---------------------------------------------------------------------
  // Go and TypeScript
  // ---------------------------------------------------------------------

  lemma AllZeros(b: seq<int>)
    requires InBase(256, b) && LeadingZeros(b) == |b|
    ensures Convert(256, 58, b) == Zeros(|b|)
  {
    assert b[|b|..] == [];
    assert Zeros(|b|) + [] == Zeros(|b|);
  }

  /** The Go encoder and the web encoder disagree on one kind of input only: several zero
      bytes, which Go writes as a single '1'. */
  lemma GoAgrees(b: seq<int>)
    requires InBase(256, b)
    ensures GoEncoded(b) == Encoded(b) <==> (|b| <= 1 || LeadingZeros(b) < |b|)
    ensures LeadingZeros(b) == |b| ==> GoEncoded(b) == if b == [] then "" else "1"
  {
    hide Symbol, Convert;
    if LeadingZeros(b) == |b| {
      AllZeros(b);
      OneIsZero();
      assert |b| == 1 ==> Encoded(b) == [Symbol(0)];
    }
  }

  // ---------------------------------------------------------------------
  // The short pair
  // ---------------------------------------------------------------------

  lemma PaddedBack(n: seq<int>)
    requires InBase(16, n) && |n| == 32
    ensures Value(16, n) >= 0 && PaddedHex(Value(16, n)) == n
  {
    FixedOfValue(16, n);
    ValueBound(16, n);
    var v := Value(16, n);
    DigitsFit(16, v, 32);
    Padded(16, v, 32);
    assert |Digits(16, v)| == 32 ==> Zeros(0) + Digits(16, v) == Digits(16, v);
  }

  lemma PaddedValue(v: int)
    requires v >= 0
    ensures Value(16, PaddedHex(v)) == v
    ensures |PaddedHex(v)| == 32 <==> v < Pow(16, 32)
  {
    ValueOfDigits(16, v);
    DigitsFit(16, v, 32);
    if |Digits(16, v)| < 32 {
      ValueSkipsZeros(16, 32 - |Digits(16, v)|, Digits(16, v));
    }
  }

  lemma ShortTextValue(n: int)
    requires n >= 0
    ensures InAlphabet(ShortText(n)) && Value(58, Indices(ShortText(n))) == n
  {
    hide Symbol, Index;
    OneIsZero();
    IndicesOfText(Digits(58, n));
    ValueOfDigits(58, n);
    assert n == 0 ==> Indices(ShortText(n)) == [0];
    assert Value(58, [0]) == 0 by { assert [0][..0] == []; }
  }

  lemma ShortRoundTrip(u: string)
    requires IsUuid(u)
    ensures ShortEncoded(u).Ok? && ShortDecoded(ShortEncoded(u).value) == Ok(Canonical(u))
  {
    hide Symbol, Index, FirstBad, ShortText, PaddedHex, Dashed, HexText;
    var v := Value(16, Nibbles(u));
    PaddedBack(Nibbles(u));
    ShortTextValue(v);
    AllGood(ShortText(v));
  }

  /** The texts that the short decoder and encoder return unchanged. */
  predicate IsShortForm(s: string)
    requires InAlphabet(s)
  {
    && s != ""
    && (s == "1" || s[0] != '1')
    && Value(58, Indices(s)) < Pow(16, 32)
  }

  /** The short decoder takes any text over the alphabet. Its result is a UUID exactly when the
      number is below 2^128, and encodes back to the same text exactly when, besides, there is
      no leading '1' (other than the text "1" itself) and the text is not empty. */
  lemma ShortConverse(s: string)
    requires ShortDecoded(s).Ok?
    ensures InAlphabet(s)
    ensures IsUuid(ShortDecoded(s).value) <==> Value(58, Indices(s)) < Pow(16, 32)
    ensures ShortEncoded(ShortDecoded(s).value) == Ok(s) <==> IsShortForm(s)
  {
    hide Symbol, Index, FirstBad, ShortText, PaddedHex, Dashed, HexText, IsUuid, Value;
    AllGoodConverse(s);
    ValueNat(58, Indices(s));
    var v := Value(58, Indices(s));
    PaddedValue(v);
    ReadWritten(PaddedHex(v));
    ShortTextBack(s);
  }

  /** What the short decoder returns: the hex digits of the number, on at least 32 places, in the
      groups of a UUID; the last group holds more than twelve exactly from 2^128 on. */
  lemma ShortForm(s: string) returns (n: seq<int>)
    requires ShortDecoded(s).Ok?
    ensures InAlphabet(s) && InBase(16, n) && Value(16, n) == Value(58, Indices(s))
    ensures |n| >= 32 && (|n| == 32 <==> Value(58, Indices(s)) < Pow(16, 32))
    ensures Written(n, ShortDecoded(s).value)
  {
    hide Symbol, Index, FirstBad, PaddedHex, Dashed, HexText, Value, Pow;
    AllGoodConverse(s);
    ValueNat(58, Indices(s));
    n := PaddedHex(Value(58, Indices(s)));
    PaddedValue(Value(58, Indices(s)));
    DashedIsWritten(n);
  }

  lemma ShortTextBack(s: string)
    requires InAlphabet(s)
    ensures Value(58, Indices(s)) >= 0
    ensures ShortText(Value(58, Indices(s))) == s <==> s != "" && (s == "1" || s[0] != '1')
  {
    hide Symbol, Index;
    OneIsZero();
    var ds := Indices(s);
    ValueNat(58, ds);
    TextOfIndices(s);
    var v := Value(58, ds);
    if s != "" && s[0] != '1' {
      assert ds[0] != 0 by { TextOfIndices(s); assert s[0] == Text(ds)[0] == Symbol(ds[0]); }
      DigitsOfValue(58, ds);
    }
    if s == "1" {
      assert ds == [0] && ds[..0] == [];
    }
    if s != "" && s != "1" && s[0] == '1' {
      if v > 0 {
        assert Symbol(Digits(58, v)[0]) != '1' by {
          AlphabetInjective(Digits(58, v)[0]);
        }
        assert ShortText(v)[0] != '1';
      }
    }
  }

  // ---------------------------------------------------------------------
  // One codec reading the other
  // ---------------------------------------------------------------------

  /** The short decoder reads the zero-preserving form: its leading '1's are worth nothing. */
  lemma ShortReadsLong(u: string)
    requires IsUuid(u)
    ensures ShortDecoded(UuidEncoded(u).value) == Ok(Canonical(u))
  {
    hide Symbol, Index, FirstBad, Dashed, HexText, PaddedHex, Text, Convert;
    var n := Nibbles(u);
    var b := BytesOf(n);
    BytesRoundTrip(b);
    AllGood(Encoded(b));
    EncodedValue(b);
    SameNumber(n);
    PaddedBack(n);
  }

  lemma EncodedValue(b: seq<int>)
    requires InBase(256, b)
    ensures InAlphabet(Encoded(b)) && Value(58, Indices(Encoded(b))) == Value(256, b)
  {
    hide Symbol, Index, Value, Digits;
    var z := LeadingZeros(b);
    ValueNat(256, b[z..]);
    var v := Value(256, b[z..]);
    IndicesOfText(Convert(256, 58, b));
    ValueSkipsZeros(58, z, Digits(58, v));
    ValueOfDigits(58, v);
    assert b == Zeros(z) + b[z..];
    ValueSkipsZeros(256, z, b[z..]);
  }

  /** The zero-preserving decoder reads the short form exactly when the first byte of the UUID
      is not zero, and then the two forms are one text. */
  lemma LongReadsShort(u: string)
    requires IsUuid(u)
    ensures UuidDecoded(ShortEncoded(u).value).Ok? <==> BytesOf(Nibbles(u))[0] != 0
    ensures ShortEncoded(u) == UuidEncoded(u) <==> BytesOf(Nibbles(u))[0] != 0
  {
    hide Symbol, Index, FirstBad, Dashed, HexText, NibblesOf, Convert, Text, ShortText;
    var b := BytesOf(Nibbles(u));
    SameNumber(Nibbles(u));
    ValueNat(256, b);
    if b[0] != 0 {
      SameWhenFirstByteSet(b);
      UuidRoundTrip(u);
    } else {
      ShortLosesZeros(b);
      BytesRoundTrip(b);
      AllGood(ShortText(Value(256, b)));
    }
  }

  lemma SameWhenFirstByteSet(b: seq<int>)
    requires InBase(256, b) && b != [] && b[0] != 0 && Value(256, b) >= 0
    ensures ShortText(Value(256, b)) == Encoded(b)
  {
    hide Symbol;
    assert b[0..] == b;
    DigitsOfValue(256, b);
    assert Zeros(0) + Digits(58, Value(256, b)) == Digits(58, Value(256, b));
  }

  lemma ShortLosesZeros(b: seq<int>)
    requires InBase(256, b) && |b| >= 2 && b[0] == 0 && Value(256, b) >= 0
    ensures var s := ShortText(Value(256, b));
            InAlphabet(s) && |Convert(58, 256, Indices(s))| != |b|
  {
    hide Symbol, Index, Value, Digits, Convert, Indices;
    var v := Value(256, b);
    if v == 0 {
      OneIsZero();
      ZeroAlone();
    } else {
      var ds := Digits(58, v);
      IndicesOfText(ds);
      ValueOfDigits(58, v);
      ConvertDigits(ds);
      BoundAfterZero(b);
      DigitsFit(256, v, |b| - 1);
    }
  }

  lemma ZeroAlone()
    requires Index('1') == 0
    ensures InAlphabet("1") && Indices("1") == [0] && Convert(58, 256, [0]) == [0]
  {
    hide Index;
    assert Indices("1") == [0];
    assert [0][1..] == [];
    assert Zeros(1) + [] == [0];
  }

  lemma ConvertDigits(ds: seq<int>)
    requires InBase(58, ds) && ds != [] && ds[0] != 0 && Value(58, ds) >= 0
    ensures Convert(58, 256, ds) == Digits(256, Value(58, ds))
  {
    hide Value, Digits;
    assert ds[0..] == ds;
    assert Zeros(0) + Digits(256, Value(58, ds)) == Digits(256, Value(58, ds));
  }

  lemma BoundAfterZero(b: seq<int>)
    requires InBase(256, b) && b != [] && b[0] == 0
    ensures Value(256, b) < Pow(256, |b| - 1)
  {
    hide Value, Pow;
    assert b == Zeros(1) + b[1..];
    ValueSkipsZeros(256, 1, b[1..]);
    ValueBound(256, b[1..]);
  }

  // ---------------------------------------------------------------------
  // Length
  // ---------------------------------------------------------------------

  lemma Pow58()
    ensures Pow(58, 21) == 10764351351569111513009094806216900608
    ensures Pow(58, 22) == 624332378391008467754527498760580235264
  {
    assert Pow(58, 2) == 3364;
    assert Pow(58, 4) == 11316496;
    assert Pow(58, 6) == 38068692544;
    assert Pow(58, 8) == 128063081718016;
    assert Pow(58, 10) == 430804206899405824;
    assert Pow(58, 12) == 1449225352009601191936;
    assert Pow(58, 14) == 4875194084160298409672704;
    assert Pow(58, 16) == 16400152899115243850138976256;
    assert Pow(58, 18) == 55170114352623680311867516125184;
    assert Pow(58, 20) == 185592264682226060569122324245118976;
  }

  lemma Pow256()
    ensures Pow(256, 16) == 0x1_0000_0000_0000_0000_0000_0000_0000_0000
  {
    assert Pow(256, 2) == 65536;
    assert Pow(256, 4) == 4294967296;
    assert Pow(256, 6) == 281474976710656;
    assert Pow(256, 8) == 18446744073709551616;
    assert Pow(256, 10) == 1208925819614629174706176;
    assert Pow(256, 12) == 79228162514264337593543950336;
    assert Pow(256, 14) == 5192296858534827628530496329220096;
  }

  lemma {:induction false} NibblePow(k: nat)
    ensures Pow(16, 2 * k) == Pow(256, k)
  {
    if k > 0 {
      NibblePow(k - 1);
      assert Pow(16, 2 * k) == Pow(16, 2 * k - 1) * 16 == Pow(16, 2 * k - 2) * 16 * 16;
    }
  }

  /** Trading one byte for one base58 place only makes room: 58^(22-k) >= 256^(16-k). */
  lemma {:induction false} RoomFor(k: nat)
    requires k <= 16
    ensures Pow(58, 22 - k) >= Pow(256, 16 - k)
  {
    if k == 0 {
      Pow58();
      Pow256();
    } else {
      RoomFor(k - 1);
      assert Pow(58, 23 - k) == Pow(58, 22 - k) * 58;
      assert Pow(256, 17 - k) == Pow(256, 16 - k) * 256;
      PowPositive(256, 16 - k);
    }
  }

  /** No text for sixteen bytes is longer than 22 characters. */
  lemma AtMost22(b: seq<int>)
    requires InBase(256, b) && |b| == 16
    ensures |Encoded(b)| <= 22
  {
    hide Symbol;
    var z := LeadingZeros(b);
    ValueNat(256, b[z..]);
    ValueBound(256, b[z..]);
    RoomFor(z);
    DigitsFit(58, Value(256, b[z..]), 22 - z);
  }

  /** The same for the short form; and 22 places are needed. */
  lemma ShortAtMost22(n: int)
    requires 0 <= n < Pow(16, 32)
    ensures |ShortText(n)| <= 22
    ensures |ShortText(Pow(16, 32) - 1)| == 22
  {
    hide Symbol;
    hide Pow;
    Pow58();
    Pow256();
    NibblePow(16);
    DigitsFit(58, n, 22);
    DigitsFit(58, Pow(16, 32) - 1, 22);
    DigitsFit(58, Pow(16, 32) - 1, 21);
  }
}
