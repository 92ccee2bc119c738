/**
 UTF-8 (RFC 3629, section 3) and Python's decoder with errors="replace", which yields one
 U+FFFD for each maximal ill-formed run, including a character cut off at the end of the input.
 */
module Utf8 {

  type Byte = b: int | 0 <= b < 256

  const REPLACEMENT: char := '\U{FFFD}'

  function EncodeChar(c: char): (bs: seq<Byte>)
    ensures 1 <= |bs| <= 4
  {
    var n := c as int;
    if n < 0x80 then [n]
    else if n < 0x800 then [0xC0 + n / 64, 0x80 + n % 64]
    else if n < 0x1_0000 then [0xE0 + n / 4096, 0x80 + n / 64 % 64, 0x80 + n % 64]
    else [0xF0 + n / 262144, 0x80 + n / 4096 % 64, 0x80 + n / 64 % 64, 0x80 + n % 64]
  }

  function Encode(s: string): seq<Byte> {
    if s == [] then [] else EncodeChar(s[0]) + Encode(s[1..])
  }

  predicate Continuation(b: Byte) { 0x80 <= b < 0xC0 }

  /** The second bytes a lead byte admits: no overlong form, no surrogate, nothing above U+10FFFF. */
  predicate SecondByte(lead: Byte, b: Byte) {
    && Continuation(b)
    && (lead == 0xE0 ==> b >= 0xA0) && (lead == 0xED ==> b < 0xA0)
    && (lead == 0xF0 ==> b >= 0x90) && (lead == 0xF4 ==> b < 0x90)
  }

  function CodePoint(a: int, b: int, c: int, d: int): int {
    a * 262144 + b * 4096 + c * 64 + d
  }

  /** One step of the replacing decoder: how many bytes it consumes and the character it emits. */
  function DecodeStep(bs: seq<Byte>): (r: (nat, char))
    requires bs != []
    ensures 1 <= r.0 <= |bs|
  {
    var b := bs[0];
    if b < 0x80 then (1, b as char)
    else if b < 0xC2 || b > 0xF4 || |bs| == 1 || !SecondByte(b, bs[1]) then (1, REPLACEMENT)
    else if b < 0xE0 then (2, CodePoint(0, 0, b - 0xC0, bs[1] - 0x80) as char)
    else if |bs| == 2 || !Continuation(bs[2]) then (2, REPLACEMENT)
    else if b < 0xF0 then (3, CodePoint(0, b - 0xE0, bs[1] - 0x80, bs[2] - 0x80) as char)
    else if |bs| == 3 || !Continuation(bs[3]) then (3, REPLACEMENT)
    else (4, CodePoint(b - 0xF0, bs[1] - 0x80, bs[2] - 0x80, bs[3] - 0x80) as char)
  }

  /** bytes.decode("utf-8", errors="replace") */
  function Decode(bs: seq<Byte>): string
    decreases |bs|
  {
    if bs == [] then [] else
      var (n, c) := DecodeStep(bs);
      [c] + Decode(bs[n..])
  }

  // ---------- round trip ----------

  lemma DecodeShort(c: char, rest: seq<Byte>)
    requires c as int < 0x800
    ensures DecodeStep(EncodeChar(c) + rest) == (|EncodeChar(c)|, c)
  {
    var n := c as int;
    assert CodePoint(0, 0, n / 64, n % 64) == n;
  }

  lemma DecodeThree(c: char, b0: Byte, b1: Byte, b2: Byte, rest: seq<Byte>)
    requires 0x800 <= c as int < 0x1_0000 && EncodeChar(c) == [b0, b1, b2]
    ensures DecodeStep([b0, b1, b2] + rest) == (3, c)
  {
    ThreeByteShape(c, b0, b1, b2);
    ThreeBytes(b0, b1, b2, rest);
  }

  lemma ThreeByteShape(c: char, b0: Byte, b1: Byte, b2: Byte)
    requires 0x800 <= c as int < 0x1_0000 && EncodeChar(c) == [b0, b1, b2]
    ensures 0xE0 <= b0 <= 0xEF && SecondByte(b0, b1) && Continuation(b2)
    ensures CodePoint(0, b0 - 0xE0, b1 - 0x80, b2 - 0x80) == c as int
  {
    var n := c as int;
    assert CodePoint(0, n / 4096, n / 64 % 64, n % 64) == n;
  }

  lemma ThreeBytes(b0: Byte, b1: Byte, b2: Byte, rest: seq<Byte>)
    requires 0xE0 <= b0 <= 0xEF && SecondByte(b0, b1) && Continuation(b2)
    ensures DecodeStep([b0, b1, b2] + rest) == (3, CodePoint(0, b0 - 0xE0, b1 - 0x80, b2 - 0x80) as char)
  {
    var bs := [b0, b1, b2] + rest;
    assert bs[0] == b0 && bs[1] == b1 && bs[2] == b2;
  }

  lemma FourByteShape(c: char)
    requires 0x1_0000 <= c as int
    ensures var e, n := EncodeChar(c), c as int;
            && |e| == 4 && 0xF0 <= e[0] <= 0xF4
            && SecondByte(e[0], e[1]) && Continuation(e[2]) && Continuation(e[3])
            && CodePoint(e[0] - 0xF0, e[1] - 0x80, e[2] - 0x80, e[3] - 0x80) == n
  {
    FourDigits(c as int);
  }

  lemma FourDigits(n: int)
    requires 0x1_0000 <= n < 0x11_0000
    ensures CodePoint(n / 262144, n / 4096 % 64, n / 64 % 64, n % 64) == n && 0 <= n / 262144 <= 4
    ensures SecondByte(0xF0 + n / 262144, 0x80 + n / 4096 % 64)
  {
    ByteSteps(n);
    var a, b, c := n / 262144, n / 4096, n / 64;
    assert n == c * 64 + n % 64 && c == b * 64 + c % 64 && b == a * 64 + b % 64;
    FirstTwo(a, b % 64, n - b * 4096);
  }

  lemma ByteSteps(n: int)
    requires 0 <= n
    ensures n / 64 / 64 == n / 4096 && n / 4096 / 64 == n / 262144
  {
  }

  /** The value of the first two digits decides which second bytes can occur. */
  lemma FirstTwo(a: int, b: int, rest: int)
    requires 0x1_0000 <= a * 262144 + b * 4096 + rest < 0x11_0000 && 0 <= b < 64 && 0 <= rest < 4096
    ensures 0 <= a <= 4 && SecondByte(0xF0 + a, 0x80 + b)
  {
  }

  lemma DecodeFour(c: char, rest: seq<Byte>)
    requires 0x1_0000 <= c as int
    ensures DecodeStep(EncodeChar(c) + rest) == (4, c)
  {
    FourByteShape(c);
    var e := EncodeChar(c);
    assert forall i :: 0 <= i < 4 ==> (e + rest)[i] == e[i];
  }

  /** UTF-8 as section 3 of RFC 3629 lays it out: the length, the marks of the bytes, and the digits they carry. */
  lemma EncodedShape(c: char)
    ensures var e, n := EncodeChar(c), c as int;
      && |e| == (if n <= 0x7F then 1 else if n <= 0x7FF then 2 else if n <= 0xFFFF then 3 else 4)
      && (forall k :: 1 <= k < |e| ==> Continuation(e[k]))
      && (|e| == 1 ==> e[0] == n)
      && (|e| == 2 ==> 0xC2 <= e[0] <= 0xDF && CodePoint(0, 0, e[0] - 0xC0, e[1] - 0x80) == n)
      && (|e| == 3 ==> 0xE0 <= e[0] <= 0xEF && CodePoint(0, e[0] - 0xE0, e[1] - 0x80, e[2] - 0x80) == n)
      && (|e| == 4 ==> 0xF0 <= e[0] <= 0xF4 && CodePoint(e[0] - 0xF0, e[1] - 0x80, e[2] - 0x80, e[3] - 0x80) == n)
  {
    var e, n := EncodeChar(c), c as int;
    if n > 0xFFFF {
      FourByteShape(c);
      assert SecondByte(e[0], e[1]);
    } else if n > 0x7FF {
      ThreeByteShape(c, e[0], e[1], e[2]);
      assert SecondByte(e[0], e[1]);
    }
  }

  lemma DecodeStepOfEncoded(c: char, rest: seq<Byte>)
    ensures DecodeStep(EncodeChar(c) + rest) == (|EncodeChar(c)|, c)
  {
    var e := EncodeChar(c);
    if c as int < 0x800 {
      DecodeShort(c, rest);
    } else if c as int < 0x1_0000 {
      DecodeThree(c, e[0], e[1], e[2], rest);
      assert e == [e[0], e[1], e[2]];
    } else {
      DecodeFour(c, rest);
    }
  }

  lemma {:induction false} DecodeEncode(s: string)
    ensures Decode(Encode(s)) == s
  {
    if s != [] {
      DecodeStepOfEncoded(s[0], Encode(s[1..]));
      DecodeEncode(s[1..]);
      assert Encode(s)[|EncodeChar(s[0])|..] == Encode(s[1..]);
    }
  }

  lemma {:induction false} EncodeConcat(a: string, b: string)
    ensures Encode(a + b) == Encode(a) + Encode(b)
  {
    if a == [] {
      assert a + b == b;
    } else {
      assert (a + b)[1..] == a[1..] + b;
      EncodeConcat(a[1..], b);
    }
  }

  // ---------- prefixes that may cut a character ----------

  /** The byte offset at which character `i` of `s` starts. */
  function Offset(s: string, i: nat): nat
    requires i <= |s|
  {
    |Encode(s[..i])|
  }

  /** How many characters of `s` start strictly before byte `k`. */
  function StartedBefore(s: string, k: nat): (n: nat)
    ensures n <= |s|
  {
    if s == [] || k == 0 then 0
    else if k <= |EncodeChar(s[0])| then 1
    else 1 + StartedBefore(s[1..], k - |EncodeChar(s[0])|)
  }

  lemma {:induction false} OffsetStep(s: string, i: nat)
    requires 0 < i <= |s|
    ensures Offset(s, i) == |EncodeChar(s[0])| + Offset(s[1..], i - 1)
  {
    assert s[..i][0] == s[0];
    assert s[..i][1..] == s[1..][..i - 1];
  }

  /** The count is exactly the set of characters whose first byte lies before `k`. */
  lemma {:induction false} StartedBeforeIsCount(s: string, k: nat, i: nat)
    requires i < |s|
    ensures i < StartedBefore(s, k) <==> Offset(s, i) < k
  {
    if k == 0 {
    } else if i == 0 {
      assert Encode(s[..0]) == [];
    } else {
      OffsetStep(s, i);
      if k > |EncodeChar(s[0])| {
        StartedBeforeIsCount(s[1..], k - |EncodeChar(s[0])|, i - 1);
      }
    }
  }

  /** A character cut anywhere inside decodes to a single replacement character. */
  lemma CutCharacter(c: char, k: nat)
    requires 0 < k < |EncodeChar(c)|
    ensures Decode(EncodeChar(c)[..k]) == [REPLACEMENT]
  {
    var bs := EncodeChar(c)[..k];
    assert DecodeStep(bs) == (k, REPLACEMENT);
    assert bs[k..] == [];
  }

  /** The replacing decoder turns any byte prefix into one character per character started. */
  lemma {:induction false} PrefixLength(s: string, k: nat)
    requires k <= |Encode(s)|
    ensures |Decode(Encode(s)[..k])| == StartedBefore(s, k)
  {
    if s != [] && k > 0 {
      var head, tail := EncodeChar(s[0]), Encode(s[1..]);
      if k < |head| {
        assert Encode(s)[..k] == head[..k];
        CutCharacter(s[0], k);
      } else {
        assert Encode(s)[..k] == head + tail[..k - |head|];
        DecodeStepOfEncoded(s[0], tail[..k - |head|]);
        assert Encode(s)[..k][|head|..] == tail[..k - |head|];
        PrefixLength(s[1..], k - |head|);
      }
    }
  }

  lemma {:induction false} StartedBeforeMonotone(s: string, j: nat, k: nat)
    requires j <= k
    ensures StartedBefore(s, j) <= StartedBefore(s, k)
  {
    if s != [] && j > |EncodeChar(s[0])| {
      StartedBeforeMonotone(s[1..], j - |EncodeChar(s[0])|, k - |EncodeChar(s[0])|);
    }
  }

  lemma {:induction false} StartedBeforeOffset(s: string, i: nat)
    requires i <= |s|
    ensures StartedBefore(s, Offset(s, i)) == i
  {
    if i == 0 {
      assert Encode(s[..0]) == [];
    } else {
      OffsetStep(s, i);
      StartedBeforeOffset(s[1..], i - 1);
      if i > 1 {
        OffsetStep(s[1..], i - 1);
      } else {
        assert Encode(s[1..][..0]) == [];
      }
    }
  }

  lemma {:induction false} OffsetOfEnd(s: string)
    ensures Offset(s, |s|) == |Encode(s)|
  {
    assert s[..|s|] == s;
  }

  lemma OffsetSplit(s: string, a: nat, b: nat)
    requires a <= b <= |s|
    ensures Encode(s[..b]) == Encode(s[..a]) + Encode(s[a..b])
  {
    assert s[..b] == s[..a] + s[a..b];
    EncodeConcat(s[..a], s[a..b]);
  }

  lemma OffsetSlice(s: string, a: nat, b: nat)
    requires a <= b <= |s|
    ensures Offset(s, a) <= Offset(s, b) <= |Encode(s)|
    ensures Encode(s)[Offset(s, a)..Offset(s, b)] == Encode(s[a..b])
  {
    OffsetSplit(s, a, b);
    OffsetSplit(s, b, |s|);
    assert s[..|s|] == s;
    Middle(Encode(s[..a]), Encode(s[a..b]), Encode(s[b..|s|]));
  }

  lemma Middle(x: seq<Byte>, y: seq<Byte>, z: seq<Byte>)
    ensures ((x + y) + z)[|x|..|x + y|] == y
  {
  }
}
