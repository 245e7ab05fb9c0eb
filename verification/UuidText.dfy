/** The text form of a UUID, as both base58 codecs of the web app read and write it
    (apps/web/shared/utils/uuid.ts:7-18,92-93 and apps/web/app/utils/base58.ts:10-19,46-52). */
module UuidText {
  import opened Numerals

  /** `replace(/-/g, "")` */
  function WithoutDashes(s: string): string {
    if s == "" then ""
    else (if s[0] == '-' then "" else [s[0]]) + WithoutDashes(s[1..])
  }

  /** The value of a hex digit of either case, or -1. */
  function HexDigit(c: char): (d: int)
    ensures -1 <= d < 16
  {
    if '0' <= c <= '9' then c as int - '0' as int
    else if 'a' <= c <= 'f' then c as int - 'a' as int + 10
    else if 'A' <= c <= 'F' then c as int - 'A' as int + 10
    else -1
  }

  function HexChar(d: int): (c: char)
    requires 0 <= d < 16
    ensures HexDigit(c) == d && c != '-'
  {
    if d < 10 then ('0' as int + d) as char else ('a' as int + d - 10) as char
  }

  /** Lower case of the ASCII letters. (No other character lowers to a hex digit.) */
  function Lower(c: char): (l: char)
    ensures HexDigit(l) == HexDigit(c)
  {
    if 'A' <= c <= 'Z' then (c as int + 32) as char else c
  }

  /** What both encoders accept: 32 hex digits of any case, with dashes anywhere. */
  predicate IsUuid(s: string) {
    var hex := WithoutDashes(s);
    |hex| == 32 && AllHex(hex)
  }

  predicate AllHex(hex: string) {
    forall i :: 0 <= i < |hex| ==> HexDigit(hex[i]) >= 0
  }

  function HexDigits(hex: string): (n: seq<int>)
    requires AllHex(hex)
    ensures |n| == |hex| && InBase(16, n)
  {
    seq(|hex|, i requires 0 <= i < |hex| => HexDigit(hex[i]))
  }

  function Nibbles(s: string): (n: seq<int>)
    requires IsUuid(s)
    ensures |n| == 32 && InBase(16, n)
  {
    HexDigits(WithoutDashes(s))
  }

  function HexText(n: seq<int>): (hex: string)
    requires InBase(16, n)
    ensures |hex| == |n| && AllHex(hex) && HexDigits(hex) == n
    ensures forall i :: 0 <= i < |hex| ==> hex[i] == HexChar(n[i])
  {
    seq(|n|, i requires 0 <= i < |n| => HexChar(n[i]))
  }

  /** 8-4-4-4-rest; with 32 digits the usual form of a UUID. */
  function Dashed(hex: string): string
    requires |hex| >= 20
  {
    hex[..8] + "-" + hex[8..12] + "-" + hex[12..16] + "-" + hex[16..20] + "-" + hex[20..]
  }

  /** The 16 bytes behind 32 nibbles. */
  function BytesOf(n: seq<int>): (b: seq<int>)
    requires InBase(16, n) && |n| % 2 == 0
    ensures |b| == |n| / 2 && InBase(256, b)
  {
    seq(|n| / 2, i requires 0 <= i < |n| / 2 => 16 * n[2 * i] + n[2 * i + 1])
  }

  function NibblesOf(b: seq<int>): (n: seq<int>)
    requires InBase(256, b)
    ensures |n| == 2 * |b| && InBase(16, n)
    ensures forall i :: 0 <= i < |b| ==> n[2 * i] == b[i] / 16 && n[2 * i + 1] == b[i] % 16
  {
    if b == [] then [] else [b[0] / 16, b[0] % 16] + NibblesOf(b[1..])
  }

  /** The way a decoder writes the UUID that `s` denotes: lower case, dashes in place. */
  function Canonical(s: string): string
    requires IsUuid(s)
  {
    Dashed(HexText(Nibbles(s)))
  }

  // ---------------------------------------------------------------------
  // Parsing what was written
  // ---------------------------------------------------------------------

  lemma {:induction false} WithoutDashesConcat(s: string, t: string)
    ensures WithoutDashes(s + t) == WithoutDashes(s) + WithoutDashes(t)
  {
    if s == "" {
      assert s + t == t;
    } else {
      assert (s + t)[1..] == s[1..] + t;
      WithoutDashesConcat(s[1..], t);
    }
  }

  lemma {:induction false} NothingToRemove(s: string)
    requires forall i :: 0 <= i < |s| ==> s[i] != '-'
    ensures WithoutDashes(s) == s
  {
    if s != "" { NothingToRemove(s[1..]); }
  }

  lemma PieceAndDash(s: string, t: string)
    requires forall i :: 0 <= i < |s| ==> s[i] != '-'
    ensures WithoutDashes(s + "-" + t) == s + WithoutDashes(t)
  {
    WithoutDashesConcat(s + "-", t);
    WithoutDashesConcat(s, "-");
    NothingToRemove(s);
    assert "-"[1..] == "";
    assert WithoutDashes("-") == "";
    assert s + "" == s;
  }

  lemma DashesRemoved(hex: string)
    requires |hex| >= 20 && forall i :: 0 <= i < |hex| ==> hex[i] != '-'
    ensures WithoutDashes(Dashed(hex)) == hex
  {
    hide WithoutDashes;
    var e := hex[20..];
    var d := hex[16..20] + "-" + e;
    var c := hex[12..16] + "-" + d;
    var b := hex[8..12] + "-" + c;
    assert Dashed(hex) == hex[..8] + "-" + b;
    PieceAndDash(hex[..8], b);
    PieceAndDash(hex[8..12], c);
    PieceAndDash(hex[12..16], d);
    PieceAndDash(hex[16..20], e);
    NothingToRemove(e);
    assert hex == hex[..8] + (hex[8..12] + (hex[12..16] + (hex[16..20] + e)));
  }

  /** Where the k-th hex digit of a UUID stands: after as many dashes as groups are complete. */
  function At(k: nat): nat {
    if k < 8 then k else if k < 12 then k + 1 else if k < 16 then k + 2 else if k < 20 then k + 3 else k + 4
  }

  /** The groups 8-4-4-4 and the rest, of these digits in lower case. */
  ghost predicate Written(n: seq<int>, text: string) {
    && InBase(16, n) && |n| >= 20 && |text| == |n| + 4
    && text[8] == '-' && text[13] == '-' && text[18] == '-' && text[23] == '-'
    && (forall k :: 0 <= k < |n| ==> text[At(k)] == "0123456789abcdef"[n[k]])
    && forall p :: 0 <= p < |text| && text[p] == '-' ==> p == 8 || p == 13 || p == 18 || p == 23
  }

  lemma HexCharIs(d: int)
    requires 0 <= d < 16
    ensures HexChar(d) == "0123456789abcdef"[d]
  {
  }

  /** What a decoder writes. */
  lemma DashedIsWritten(n: seq<int>)
    requires InBase(16, n) && |n| >= 20
    ensures Written(n, Dashed(HexText(n)))
  {
    hide HexChar;
    var hex := HexText(n);
    var text := Dashed(hex);
    forall k | 0 <= k < |n|
      ensures text[At(k)] == "0123456789abcdef"[n[k]]
    {
      HexCharIs(n[k]);
      assert text[At(k)] == hex[k];
    }
    forall p | 0 <= p < |text| && p != 8 && p != 13 && p != 18 && p != 23
      ensures text[p] != '-'
    {
      var k := if p < 8 then p else if p < 13 then p - 1 else if p < 18 then p - 2 else if p < 23 then p - 3 else p - 4;
      assert At(k) == p && hex[k] != '-';
    }
  }

  predicate IsHex(c: char) {
    '0' <= c <= '9' || 'a' <= c <= 'f' || 'A' <= c <= 'F'
  }

  predicate HexAndDashes(s: string) {
    forall i :: 0 <= i < |s| ==> s[i] == '-' || IsHex(s[i])
  }

  lemma {:induction false} OnlyDashesRemoved(s: string)
    ensures |WithoutDashes(s)| == |s| - multiset(s)['-']
    ensures AllHex(WithoutDashes(s)) <==> HexAndDashes(s)
  {
    if s != "" {
      hide AllHex, HexAndDashes;
      OnlyDashesRemoved(s[1..]);
      assert s == [s[0]] + s[1..];
      TextFirst(s[0], s[1..]);
      HexFirst(s[0], WithoutDashes(s[1..]));
      assert "" + WithoutDashes(s[1..]) == WithoutDashes(s[1..]);
    }
  }

  lemma TextFirst(c: char, rest: string)
    ensures HexAndDashes([c] + rest) <==> (c == '-' || HexDigit(c) >= 0) && HexAndDashes(rest)
  {
    hide HexDigit;
    assert IsHex(c) <==> HexDigit(c) >= 0 by { HexDigitIs(c); }
    hide IsHex;
    if HexAndDashes([c] + rest) {
      forall i | 0 <= i < |rest|
        ensures rest[i] == '-' || IsHex(rest[i])
      {
        assert rest[i] == ([c] + rest)[i + 1];
      }
      assert ([c] + rest)[0] == c;
    }
  }

  lemma HexDigitIs(c: char)
    ensures IsHex(c) <==> HexDigit(c) >= 0
  {
  }

  lemma HexFirst(c: char, rest: string)
    ensures AllHex([c] + rest) <==> HexDigit(c) >= 0 && AllHex(rest)
  {
    hide HexDigit;
    if AllHex([c] + rest) {
      forall i | 0 <= i < |rest|
        ensures HexDigit(rest[i]) >= 0
      {
        assert rest[i] == ([c] + rest)[i + 1];
      }
      assert ([c] + rest)[0] == c;
    }
  }

  /** What both encoders accept: 32 hex digits of either case, and any dashes. */
  lemma UuidCharacters(s: string)
    ensures IsUuid(s) <==>
            |s| - multiset(s)['-'] == 32 && HexAndDashes(s)
  {
    hide WithoutDashes, HexAndDashes;
    OnlyDashesRemoved(s);
  }

  /** Reading a written value gives its digits back, and it is a UUID exactly when it has 32. */
  lemma ReadWritten(n: seq<int>)
    requires InBase(16, n) && |n| >= 20
    ensures IsUuid(Dashed(HexText(n))) <==> |n| == 32
    ensures |n| == 32 ==> Nibbles(Dashed(HexText(n))) == n
  {
    DashesRemoved(HexText(n));
  }

  // ---------------------------------------------------------------------
  // Bytes and nibbles
  // ---------------------------------------------------------------------

  lemma BytesOfNibbles(b: seq<int>)
    requires InBase(256, b)
    ensures BytesOf(NibblesOf(b)) == b
  {
    var n := NibblesOf(b);
    forall i | 0 <= i < |b|
      ensures BytesOf(n)[i] == b[i]
    {
      assert n[2 * i] == b[i] / 16 && n[2 * i + 1] == b[i] % 16;
    }
  }

  lemma BytesOfFirst(n: seq<int>)
    requires InBase(16, n) && |n| % 2 == 0 && n != []
    ensures InBase(16, n[2..]) && BytesOf(n) == [16 * n[0] + n[1]] + BytesOf(n[2..])
  {
  }

  lemma {:induction false} NibblesOfBytes(n: seq<int>)
    requires InBase(16, n) && |n| % 2 == 0
    ensures NibblesOf(BytesOf(n)) == n
    decreases |n|
  {
    if n != [] {
      var rest := n[2..];
      BytesOfFirst(n);
      hide BytesOf;
      NibblesOfBytes(rest);
      assert BytesOf(n)[1..] == BytesOf(rest);
      assert n == [n[0], n[1]] + rest;
    }
  }

  lemma TwoNibbles(v: int, a: int, b: int)
    ensures (v * 16 + a) * 16 + b == v * 256 + (16 * a + b)
  {
  }

  /** Two more hex digits are one more byte. */
  lemma ByteMore(front: seq<int>, a: int, b: int)
    ensures Value(16, front + [a, b]) == Value(16, front) * 256 + (16 * a + b)
  {
    hide Value;
    assert front + [a, b] == (front + [a]) + [b];
    ValueSnoc(16, front + [a], b);
    ValueSnoc(16, front, a);
    TwoNibbles(Value(16, front), a, b);
  }

  lemma BytesOfMore(front: seq<int>, a: int, b: int)
    requires InBase(16, front) && |front| % 2 == 0 && 0 <= a < 16 && 0 <= b < 16
    ensures InBase(16, front + [a, b])
    ensures BytesOf(front + [a, b]) == BytesOf(front) + [16 * a + b]
  {
  }

  /** The number is the same whether it is read in bytes or in hex digits. */
  lemma {:induction false} SameNumber(n: seq<int>)
    requires InBase(16, n) && |n| % 2 == 0
    ensures Value(256, BytesOf(n)) == Value(16, n)
    decreases |n|
  {
    if n != [] {
      hide Value, BytesOf;
      var k := |n| - 2;
      var front, a, b := n[..k], n[k], n[k + 1];
      SameNumber(front);
      assert n == front + [a, b];
      BytesOfMore(front, a, b);
      ByteMore(front, a, b);
      ValueSnoc(256, BytesOf(front), 16 * a + b);
    }
  }
}
