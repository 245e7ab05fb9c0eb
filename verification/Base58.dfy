/** The three base58 codecs: the web app's zero-preserving pair
    (apps/web/shared/utils/uuid.ts), the Go encoder (internal/shared/base58/base58.go) and
    the web app's short pair (apps/web/app/utils/base58.ts). */
module Base58 {
  import opened Numerals
  import opened UuidText

  datatype Error = BadUuid | EmptyInput | BadCharacter(c: char) | BadLength(got: nat)

  datatype Result = Ok(value: string) | Err(error: Error)

  // ---------------------------------------------------------------------
  // Alphabet
  // ---------------------------------------------------------------------

  /** 123456789ABCDEFGHJKLMNPQRSTUVWXYZabcdefghijkmnopqrstuvwxyz, written in its blocks of
      consecutive characters (no 0, I, O or l). */
  const ALPHABET: string :=
    "123456789" + "ABCDEFGH" + "JKLMN" + "PQRSTUVWXYZ" + "abcdefghijk" + "mnopqrstuvwxyz"

  /** `indexOf`: the first position of `c`, or -1. */
  function IndexIn(s: string, c: char): (i: int)
    ensures -1 <= i < |s|
    ensures i >= 0 ==> s[i] == c
    ensures i < 0 ==> c !in s
    ensures forall k :: 0 <= k < i ==> s[k] != c
  {
    if s == "" then -1
    else if s[0] == c then 0
    else
      var i := IndexIn(s[1..], c);
      if i < 0 then -1 else i + 1
  }

  lemma Size()
    ensures |ALPHABET| == 58
  {
  }

  function Symbol(d: int): char
    requires 0 <= d < 58
  {
    Size();
    ALPHABET[d]
  }

  function Index(c: char): (d: int)
    ensures -1 <= d < 58
    ensures d >= 0 ==> Symbol(d) == c
  {
    Size();
    IndexIn(ALPHABET, c)
  }

  /** The alphabet by arithmetic. */
  function Letter(d: int): char
    requires 0 <= d < 58
  {
    if d < 9 then ('1' as int + d) as char
    else if d < 17 then ('A' as int + d - 9) as char
    else if d < 22 then ('J' as int + d - 17) as char
    else if d < 33 then ('P' as int + d - 22) as char
    else if d < 44 then ('a' as int + d - 33) as char
    else ('m' as int + d - 44) as char
  }

  lemma Letters(d: int)
    requires 0 <= d < 58
    ensures Symbol(d) == Letter(d)
  {
  }

  /** No character of the alphabet occurs twice. */
  lemma AlphabetInjective(d: int)
    requires 0 <= d < 58
    ensures Index(Symbol(d)) == d
  {
    SymbolFound(d);
    Letters(d);
    Letters(Index(Symbol(d)));
  }

  lemma SymbolFound(d: int)
    requires 0 <= d < 58
    ensures Index(Symbol(d)) >= 0
  {
  }

  lemma OneIsZero()
    ensures Symbol(0) == '1' && Index('1') == 0
  {
    Letters(0);
    AlphabetInjective(0);
  }

  // ---------------------------------------------------------------------
  // Digits as text
  // ---------------------------------------------------------------------

  predicate InAlphabet(s: string) {
    forall i :: 0 <= i < |s| ==> Index(s[i]) >= 0
  }

  function Text(ds: seq<int>): (s: string)
    requires InBase(58, ds)
    ensures |s| == |ds|
  {
    seq(|ds|, i requires 0 <= i < |ds| => Symbol(ds[i]))
  }

  function Indices(s: string): (ds: seq<int>)
    requires InAlphabet(s)
    ensures |ds| == |s| && InBase(58, ds)
  {
    seq(|s|, i requires 0 <= i < |s| => Index(s[i]))
  }

  lemma IndicesOfText(ds: seq<int>)
    requires InBase(58, ds)
    ensures InAlphabet(Text(ds)) && Indices(Text(ds)) == ds
  {
    hide Symbol, Index;
    forall i | 0 <= i < |ds|
      ensures Index(Symbol(ds[i])) == ds[i]
    {
      AlphabetInjective(ds[i]);
    }
  }

  lemma TextOfIndices(s: string)
    requires InAlphabet(s)
    ensures Text(Indices(s)) == s
  {
    hide Symbol, Index;
  }

  /** Position of the first character outside the alphabet, or the length. */
  function FirstBad(s: string): (i: nat)
    ensures i <= |s| && forall k :: 0 <= k < i ==> Index(s[k]) >= 0
    ensures i < |s| ==> Index(s[i]) < 0
  {
    if s == "" || Index(s[0]) < 0 then 0 else FirstBad(s[1..]) + 1
  }

  // ---------------------------------------------------------------------
  // What the codecs compute
  // ---------------------------------------------------------------------

  /** One '1' per leading zero byte, then the rest in base 58. */
  function Encoded(b: seq<int>): string
    requires InBase(256, b)
  {
    Text(Convert(256, 58, b))
  }

  function UuidEncoded(u: string): Result {
    if IsUuid(u) then Ok(Encoded(BytesOf(Nibbles(u)))) else Err(BadUuid)
  }

  function UuidDecoded(s: string): Result {
    if s == "" then Err(EmptyInput)
    else if FirstBad(s) < |s| then Err(BadCharacter(s[FirstBad(s)]))
    else
      var b := Convert(58, 256, Indices(s));
      if |b| != 16 then Err(BadLength(|b|)) else Ok(Dashed(HexText(NibblesOf(b))))
  }

  function GoEncoded(b: seq<int>): string
    requires InBase(256, b)
  {
    if b == [] then "" else if LeadingZeros(b) == |b| then "1" else Encoded(b)
  }

  function ShortText(n: int): string
    requires n >= 0
  {
    if n == 0 then "1" else Text(Digits(58, n))
  }

  function ShortEncoded(u: string): Result {
    if IsUuid(u) then ValueNat(16, Nibbles(u)); Ok(ShortText(Value(16, Nibbles(u)))) else Err(BadUuid)
  }

  /** `toString(16).padStart(32, "0")` */
  function PaddedHex(n: int): (ds: seq<int>)
    requires n >= 0
    ensures |ds| >= 32 && InBase(16, ds)
  {
    var ds := Digits(16, n);
    if |ds| < 32 then Zeros(32 - |ds|) + ds else ds
  }

  /** No length check here: too large a number overflows the last group of the UUID. */
  function ShortDecoded(s: string): Result {
    if FirstBad(s) < |s| then Err(BadCharacter(s[FirstBad(s)]))
    else
      ValueNat(58, Indices(s));
      Ok(Dashed(HexText(PaddedHex(Value(58, Indices(s))))))
  }

  // ---------------------------------------------------------------------
  // The loops
  // ---------------------------------------------------------------------

  /** The division loop of both web encoders. */
  method Base58Digits(n: int) returns (result: string)
    requires n >= 0
    ensures result == Text(Digits(58, n))
  {
    hide Symbol;
    var num := n;
    ghost var tail: seq<int> := [];
    result := "";
    assert Digits(58, n) + [] == Digits(58, n);
    while num > 0
      invariant 0 <= num && InBase(58, tail)
      invariant Digits(58, n) == Digits(58, num) + tail
      invariant result == Text(tail)
      decreases num
    {
      Shrinks(58, num);
      assert Digits(58, num) + tail == Digits(58, num / 58) + ([num % 58] + tail);
      tail := [num % 58] + tail;
      result := [Symbol(num % 58)] + result;
      num := num / 58;
    }
    assert Digits(58, n) == tail;
  }

  /** The accumulation loop of both web decoders, for text already known to be valid. */
  method Base58Value(s: string) returns (num: int)
    requires InAlphabet(s)
    ensures num == Value(58, Indices(s)) && num >= 0
  {
    hide Index;
    num := 0;
    for i := 0 to |s|
      invariant num == Value(58, Indices(s[..i]))
    {
      assert Indices(s[..i + 1]) == Indices(s[..i]) + [Index(s[i])];
      ValueSnoc(58, Indices(s[..i]), Index(s[i]));
      num := num * 58 + Index(s[i]);
    }
    assert s[..|s|] == s;
    ValueNat(58, Indices(s));
  }

  method UuidToBase58(uuid: string) returns (r: Result)
    ensures r == UuidEncoded(uuid)
  {
    hide Symbol, Index, Digits, HexDigit, Encoded, BytesOf;
    var raw := WithoutDashes(uuid);
    var hex := seq(|raw|, i requires 0 <= i < |raw| => Lower(raw[i]));
    assert forall i :: 0 <= i < |raw| ==> HexDigit(hex[i]) == HexDigit(raw[i]);
    if |hex| != 32 || !AllHex(hex) {
      return Err(BadUuid);
    }
    assert HexDigits(hex) == Nibbles(uuid);
    var bytes := HexBytes(hex);
    var s := EncodeBytes(bytes);
    return Ok(s);
  }

  method HexBytes(hex: string) returns (bytes: array<int>)
    requires |hex| == 32 && AllHex(hex)
    ensures bytes[..] == BytesOf(HexDigits(hex))
  {
    hide HexDigit;
    ghost var want := BytesOf(HexDigits(hex));
    bytes := new int[16];
    var i := 0;
    while i < 32
      invariant 0 <= i <= 32 && i % 2 == 0
      invariant forall k :: 0 <= k < i / 2 ==> bytes[k] == want[k]
    {
      assert want[i / 2] == 16 * HexDigits(hex)[2 * (i / 2)] + HexDigits(hex)[2 * (i / 2) + 1];
      bytes[i / 2] := 16 * HexDigit(hex[i]) + HexDigit(hex[i + 1]);
      i := i + 2;
    }
    assert bytes[..] == want;
  }

  /** The part of `uuidToBase58` after hex parsing. */
  method EncodeBytes(bytes: array<int>) returns (s: string)
    requires bytes.Length > 0 && InBase(256, bytes[..])
    ensures s == Encoded(bytes[..])
  {
    hide Symbol, Index, Digits;
    ghost var want := bytes[..];
    var leadingZeros := 0;
    while leadingZeros < bytes.Length && bytes[leadingZeros] == 0
      invariant 0 <= leadingZeros <= bytes.Length
      invariant forall k :: 0 <= k < leadingZeros ==> bytes[k] == 0
    {
      leadingZeros := leadingZeros + 1;
    }
    ZerosCounted(want, leadingZeros);
    var num := 0;
    for j := leadingZeros to bytes.Length
      invariant num == Value(256, want[leadingZeros..j])
    {
      assert want[leadingZeros..j + 1] == want[leadingZeros..j] + [want[j]];
      ValueSnoc(256, want[leadingZeros..j], want[j]);
      num := num * 256 + bytes[j];
    }
    assert want[leadingZeros..bytes.Length] == want[leadingZeros..];
    ValueNat(256, want[leadingZeros..]);
    var result := Base58Digits(num);
    OneIsZero();
    var ones := seq(leadingZeros, _ => '1');
    s := ones + result;
    assert s == Text(Zeros(leadingZeros) + Digits(58, num));
    NeverEmpty(want);
    if s == "" {
      s := "1";
    }
  }

  lemma NeverEmpty(b: seq<int>)
    requires InBase(256, b) && b != []
    ensures Encoded(b) != ""
  {
    DigitsOfValue(256, b[LeadingZeros(b)..]);
  }

  lemma {:induction false} ZerosCounted(ds: seq<int>, k: nat)
    requires k <= |ds| && (k < |ds| ==> ds[k] != 0)
    requires forall i :: 0 <= i < k ==> ds[i] == 0
    ensures LeadingZeros(ds) == k
  {
    if k > 0 { ZerosCounted(ds[1..], k - 1); }
  }

  lemma LeadingOnes(s: string, k: nat)
    requires InAlphabet(s) && k <= |s| && (k < |s| ==> s[k] != '1')
    requires forall i :: 0 <= i < k ==> s[i] == '1'
    ensures LeadingZeros(Indices(s)) == k
    ensures InAlphabet(s[k..]) && Indices(s)[k..] == Indices(s[k..])
  {
    hide Symbol, Index;
    OneIsZero();
    ZerosCounted(Indices(s), k);
  }

  lemma FirstBadIs(s: string, i: nat)
    requires i < |s| && InAlphabet(s[..i]) && Index(s[i]) < 0
    ensures FirstBad(s) == i
  {
    hide Index, FirstBad;
    forall k | 0 <= k < i
      ensures Index(s[k]) >= 0
    {
      assert s[k] == s[..i][k];
    }
    var f := FirstBad(s);
  }

  /** The unshift loop: big-endian bytes of a number, none for zero. */
  method BigEndianBytes(num: int) returns (bytes: seq<int>)
    requires num >= 0
    ensures bytes == Digits(256, num)
  {
    bytes := [];
    var temp := num;
    assert Digits(256, num) + [] == Digits(256, num);
    while temp > 0
      invariant 0 <= temp && Digits(256, num) == Digits(256, temp) + bytes
      decreases temp
    {
      Shrinks(256, temp);
      DigitsSnoc(256, temp);
      assert Digits(256, num) == Digits(256, temp / 256) + ([temp % 256] + bytes);
      bytes := [temp % 256] + bytes;
      temp := temp / 256;
    }
    DigitsSnoc(256, 0);
  }

  method Base58ToUuid(base58: string) returns (r: Result)
    ensures r == UuidDecoded(base58)
    ensures r.Ok? ==> exists n :: |n| == 32 && Written(n, r.value)
  {
    hide Symbol, Index, Digits, FirstBad, HexText, NibblesOf;
    if base58 == "" {
      return Err(EmptyInput);
    }
    OneIsZero();
    var leadingZeroBytes := 0;
    for i := 0 to |base58|
      invariant 0 <= leadingZeroBytes <= i && InAlphabet(base58[..i])
      invariant forall k :: 0 <= k < leadingZeroBytes ==> base58[k] == '1'
      invariant leadingZeroBytes < i ==> base58[leadingZeroBytes] != '1'
    {
      var c := base58[i];
      assert base58[..i + 1] == base58[..i] + [c];
      if c == '1' && i == leadingZeroBytes {
        leadingZeroBytes := leadingZeroBytes + 1;
      } else if Index(c) < 0 {
        FirstBadIs(base58, i);
        return Err(BadCharacter(c));
      }
    }
    assert base58[..|base58|] == base58;
    LeadingOnes(base58, leadingZeroBytes);
    var num := Base58Value(base58[leadingZeroBytes..]);
    var bytes := BigEndianBytes(num);
    var allBytes := Zeros(leadingZeroBytes) + bytes;
    assert allBytes == Convert(58, 256, Indices(base58));
    if |allBytes| != 16 {
      return Err(BadLength(|allBytes|));
    }
    DashedIsWritten(NibblesOf(allBytes));
    return Ok(Dashed(HexText(NibblesOf(allBytes))));
  }

  lemma DigitsSnoc(base: int, n: int)
    requires base >= 2 && n >= 0
    ensures n == 0 ==> Digits(base, n) == []
    ensures n > 0 ==> n / base >= 0 && Digits(base, n) == Digits(base, n / base) + [n % base]
  {
    Shrinks(base, n);
  }

  // ---------------------------------------------------------------------
  // Go
  // ---------------------------------------------------------------------

  function Reversed<T>(s: seq<T>): (r: seq<T>)
    ensures |r| == |s| && forall i :: 0 <= i < |s| ==> r[i] == s[|s| - 1 - i]
  {
    if s == [] then [] else Reversed(s[1..]) + [s[0]]
  }

  method ReverseInPlace(a: array<char>)
    modifies a
    ensures a[..] == Reversed(old(a[..]))
  {
    var i, j := 0, a.Length - 1;
    while i < j
      invariant 0 <= i <= a.Length && j == a.Length - 1 - i
      invariant forall k :: 0 <= k < i || j < k < a.Length ==> a[k] == old(a[a.Length - 1 - k])
      invariant forall k :: i <= k <= j ==> a[k] == old(a[k])
    {
      a[i], a[j] := a[j], a[i];
      i, j := i + 1, j - 1;
    }
  }

  lemma ReversedConcat<T>(s: seq<T>, t: seq<T>)
    ensures Reversed(s + t) == Reversed(t) + Reversed(s)
  {
  }

  lemma TextConcat(s: seq<int>, t: seq<int>)
    requires InBase(58, s) && InBase(58, t)
    ensures Text(s + t) == Text(s) + Text(t)
  {
    hide Symbol;
  }

  /** The division loop of `Encode`, least significant digit first. */
  method Base58Backwards(n: int) returns (encoded: string)
    requires n >= 0
    ensures Reversed(encoded) == Text(Digits(58, n))
  {
    hide Symbol, Digits, Reversed;
    var num := n;
    ghost var tail: seq<int> := [];
    encoded := "";
    assert Digits(58, n) + [] == Digits(58, n);
    while num > 0
      invariant 0 <= num && InBase(58, tail)
      invariant Digits(58, n) == Digits(58, num) + tail
      invariant Reversed(encoded) == Text(tail)
      decreases num
    {
      Shrinks(58, num);
      DigitsSnoc(58, num);
      assert Digits(58, n) == Digits(58, num / 58) + ([num % 58] + tail);
      TextConcat([num % 58], tail);
      ReversedConcat(encoded, [Symbol(num % 58)]);
      tail := [num % 58] + tail;
      encoded := encoded + [Symbol(num % 58)];
      num := num / 58;
    }
    DigitsSnoc(58, 0);
    assert tail == Digits(58, n);
  }

  /** `Encode`: the number is taken from all the bytes, the digits are collected backwards, the
      leading zeros are appended last, and the whole is turned round in place. */
  method Encode(input: seq<int>) returns (text: string)
    requires InBase(256, input)
    ensures text == GoEncoded(input)
  {
    hide Symbol, Digits, Reversed, Value;
    if |input| == 0 {
      return "";
    }
    var num := BigEndian(input);
    ZeroValue(input);
    if num == 0 {
      OneIsZero();
      return [Symbol(0)];
    }
    var encoded := Base58Backwards(num);
    ghost var digits := encoded;
    var zeros := 0;
    while zeros < |input| && input[zeros] == 0
      invariant 0 <= zeros <= |input| && forall k :: 0 <= k < zeros ==> input[k] == 0
      invariant encoded == digits + Text(Zeros(zeros))
    {
      encoded := encoded + [Symbol(0)];
      zeros := zeros + 1;
      assert Text(Zeros(zeros)) == Text(Zeros(zeros - 1)) + [Symbol(0)];
    }
    ZerosCounted(input, zeros);
    var a := new char[|encoded|](k requires 0 <= k < |encoded| => encoded[k]);
    assert a[..] == encoded;
    ReverseInPlace(a);
    text := a[..];
    ReversedConcat(digits, Text(Zeros(zeros)));
    assert Reversed(Text(Zeros(zeros))) == Text(Zeros(zeros));
    assert input == Zeros(zeros) + input[zeros..];
    ValueSkipsZeros(256, zeros, input[zeros..]);
    TextConcat(Zeros(zeros), Digits(58, num));
  }

  /** `big.Int.SetBytes` */
  method BigEndian(input: seq<int>) returns (num: int)
    requires InBase(256, input)
    ensures num == Value(256, input) && num >= 0
  {
    num := 0;
    for i := 0 to |input|
      invariant num == Value(256, input[..i])
    {
      assert input[..i + 1] == input[..i] + [input[i]];
      ValueSnoc(256, input[..i], input[i]);
      num := num * 256 + input[i];
    }
    assert input[..|input|] == input;
    ValueNat(256, input);
  }

  /** The number is zero exactly when all its digits are. */
  lemma ZeroValue(b: seq<int>)
    requires InBase(256, b)
    ensures Value(256, b) == 0 <==> LeadingZeros(b) == |b|
  {
    var z := LeadingZeros(b);
    assert b == Zeros(z) + b[z..];
    ValueSkipsZeros(256, z, b[z..]);
    DigitsOfValue(256, b[z..]);
  }

  // ---------------------------------------------------------------------
  // The short pair
  // ---------------------------------------------------------------------

  method UuidToB58(uuid: string) returns (r: Result)
    ensures r == ShortEncoded(uuid)
  {
    hide Symbol, HexDigit;
    var hex := WithoutDashes(uuid);
    if |hex| != 32 || !AllHex(hex) {
      return Err(BadUuid);
    }
    ValueNat(16, Nibbles(uuid));
    var num := Value(16, HexDigits(hex));
    var encoded := Base58Digits(num);
    OneIsZero();
    return Ok(if encoded == "" then [Symbol(0)] else encoded);
  }

  method B58ToUuid(b58: string) returns (r: Result)
    ensures r == ShortDecoded(b58)
    ensures r.Ok? ==> exists n :: |n| >= 32 && Written(n, r.value)
  {
    hide Index, FirstBad, HexText, PaddedHex;
    var num := 0;
    for i := 0 to |b58|
      invariant InAlphabet(b58[..i]) && num == Value(58, Indices(b58[..i]))
    {
      var index := Index(b58[i]);
      assert b58[..i + 1] == b58[..i] + [b58[i]];
      if index < 0 {
        FirstBadIs(b58, i);
        return Err(BadCharacter(b58[i]));
      }
      assert Indices(b58[..i + 1]) == Indices(b58[..i]) + [index];
      ValueSnoc(58, Indices(b58[..i]), index);
      num := num * 58 + index;
    }
    assert b58[..|b58|] == b58;
    ValueNat(58, Indices(b58));
    DashedIsWritten(PaddedHex(num));
    return Ok(Dashed(HexText(PaddedHex(num))));
  }
}
