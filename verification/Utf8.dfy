/** utf8.DecodeRune against the encoding of section 3 of RFC 3629, and the two Unicode classes
    the reader asks about. */
module Utf8 {

  newtype Byte = x: int | 0 <= x < 256

  const RUNE_ERROR := 0xFFFD

  predicate IsScalar(r: int) {
    0 <= r <= 0x10FFFF && !(0xD800 <= r <= 0xDFFF)
  }

  function Encode(r: int): (b: seq<Byte>)
    requires IsScalar(r)
    ensures 1 <= |b| <= 4
  {
    if r < 0x80 then [r as Byte]
    else if r < 0x800 then [(0xC0 + r / 64) as Byte, Tail(r)]
    else if r < 0x10000 then [(0xE0 + r / 4096) as Byte, Tail(r / 64), Tail(r)]
    else [(0xF0 + r / 262144) as Byte, Tail(r / 4096), Tail(r / 64), Tail(r)]
  }

  function Tail(r: int): Byte
    requires 0 <= r
  {
    (0x80 + r % 64) as Byte
  }

  predicate IsTail(b: Byte) {
    0x80 <= b <= 0xBF
  }

  /** Sequence length announced by a first byte; 0 when no sequence starts with it. */
  function Announced(b0: Byte): nat {
    if b0 < 0x80 then 1
    else if b0 < 0xC2 then 0
    else if b0 < 0xE0 then 2
    else if b0 < 0xF0 then 3
    else if b0 < 0xF5 then 4
    else 0
  }

  /** The second bytes accepted after b0, section 4 of RFC 3629. */
  predicate AcceptsSecond(b0: Byte, b1: Byte) {
    (if b0 == 0xE0 then 0xA0 else if b0 == 0xF0 then 0x90 else 0x80) <= b1
    && b1 <= (if b0 == 0xED then 0x9F else if b0 == 0xF4 then 0x8F else 0xBF)
  }

  /** The rune at the start of b and its width: an empty input has width 0, and any invalid
      sequence is the error rune of width 1. */
  function DecodeRune(b: seq<Byte>): (r: (int, nat))
    ensures r.1 <= |b| && (b != [] ==> r.1 >= 1)
  {
    if b == [] then (RUNE_ERROR, 0)
    else
      var size := Announced(b[0]);
      if size == 1 then (b[0] as int, 1)
      else if size == 0 || |b| < size || !AcceptsSecond(b[0], b[1]) then (RUNE_ERROR, 1)
      else if size == 2 then ((b[0] as int - 0xC0) * 64 + Low(b[1]), 2)
      else if !IsTail(b[2]) then (RUNE_ERROR, 1)
      else if size == 3 then ((b[0] as int - 0xE0) * 4096 + Low(b[1]) * 64 + Low(b[2]), 3)
      else if !IsTail(b[3]) then (RUNE_ERROR, 1)
      else ((b[0] as int - 0xF0) * 262144 + Low(b[1]) * 4096 + Low(b[2]) * 64 + Low(b[3]), 4)
  }

  function Low(b: Byte): int {
    b as int - 0x80
  }

  /** Decoding undoes encoding, whatever follows. */
  lemma DecodeEncoded(r: int, rest: seq<Byte>)
    requires IsScalar(r)
    ensures DecodeRune(Encode(r) + rest) == (r, |Encode(r)|)
  {
    var e := Encode(r);
    var b := e + rest;
    assert forall i :: 0 <= i < |e| ==> b[i] == e[i];
    if 0x80 <= r < 0x800 {
      Digits(r);
    } else if 0x800 <= r < 0x10000 {
      Digits(r);
      Digits(r / 64);
      assert r / 64 / 64 == r / 4096;
    } else if 0x10000 <= r {
      Digits(r);
      Digits(r / 64);
      Digits(r / 4096);
      assert r / 64 / 64 == r / 4096 && r / 4096 / 64 == r / 262144;
    }
  }

  lemma Digits(r: int)
    requires 0 <= r
    ensures r == (r / 64) * 64 + r % 64 && Low(Tail(r)) == r % 64
  {
  }

  /** Encoding undoes decoding; what decodes to the error rune of width 1 starts with no
      encoded rune at all. */
  lemma EncodeDecoded(b: seq<Byte>)
    requires b != []
    ensures var (r, n) := DecodeRune(b);
            (IsScalar(r) && Encode(r) == b[..n])
            || ((r, n) == (RUNE_ERROR, 1) && forall s :: IsScalar(s) ==> !(Encode(s) <= b))
  {
    var (r, n) := DecodeRune(b);
    if n == 1 && r == RUNE_ERROR {
      forall s | IsScalar(s) ensures !(Encode(s) <= b) {
        if Encode(s) <= b {
          var rest := b[|Encode(s)|..];
          assert b == Encode(s) + rest;
          DecodeEncoded(s, rest);
        }
      }
    } else {
      ValidDecodes(b);
    }
  }

  lemma ValidDecodes(b: seq<Byte>)
    requires b != [] && DecodeRune(b) != (RUNE_ERROR, 1)
    ensures var (r, n) := DecodeRune(b); IsScalar(r) && Encode(r) == b[..n]
  {
    var (r, n) := DecodeRune(b);
    if n == 2 {
      TwoBytes(b[0], b[1]);
      assert b[..2] == [b[0], b[1]];
    } else if n == 3 {
      ThreeBytes(b[0], b[1], b[2]);
      assert b[..3] == [b[0], b[1], b[2]];
    } else if n == 4 {
      FourBytes(b[0], b[1], b[2], b[3]);
      assert b[..4] == [b[0], b[1], b[2], b[3]];
    } else {
      assert b[..1] == [b[0]];
    }
  }

  lemma TwoBytes(b0: Byte, b1: Byte)
    requires Announced(b0) == 2 && AcceptsSecond(b0, b1)
    ensures var r := (b0 as int - 0xC0) * 64 + Low(b1); IsScalar(r) && Encode(r) == [b0, b1]
  {
    var r := (b0 as int - 0xC0) * 64 + Low(b1);
    assert r / 64 == b0 as int - 0xC0 && r % 64 == Low(b1);
  }

  lemma ThreeBytes(b0: Byte, b1: Byte, b2: Byte)
    requires Announced(b0) == 3 && AcceptsSecond(b0, b1) && IsTail(b2)
    ensures var r := (b0 as int - 0xE0) * 4096 + Low(b1) * 64 + Low(b2); IsScalar(r) && Encode(r) == [b0, b1, b2]
  {
    var h := (b0 as int - 0xE0) * 64 + Low(b1);
    var r := (b0 as int - 0xE0) * 4096 + Low(b1) * 64 + Low(b2);
    assert r == h * 64 + Low(b2);
    assert r / 64 == h && r % 64 == Low(b2);
    assert h / 64 == b0 as int - 0xE0 && h % 64 == Low(b1);
    assert r / 4096 == h / 64;
  }

  lemma FourBytes(b0: Byte, b1: Byte, b2: Byte, b3: Byte)
    requires Announced(b0) == 4 && AcceptsSecond(b0, b1) && IsTail(b2) && IsTail(b3)
    ensures var r := (b0 as int - 0xF0) * 262144 + Low(b1) * 4096 + Low(b2) * 64 + Low(b3);
            IsScalar(r) && Encode(r) == [b0, b1, b2, b3]
  {
    var g := (b0 as int - 0xF0) * 64 + Low(b1);
    var h := g * 64 + Low(b2);
    var r := (b0 as int - 0xF0) * 262144 + Low(b1) * 4096 + Low(b2) * 64 + Low(b3);
    assert r == h * 64 + Low(b3);
    assert r / 64 == h && r % 64 == Low(b3);
    assert h / 64 == g && h % 64 == Low(b2);
    assert g / 64 == b0 as int - 0xF0 && g % 64 == Low(b1);
    assert r / 4096 == g && r / 262144 == g / 64;
  }

  /** unicode.IsControl */
  predicate IsControl(r: int) {
    0 <= r <= 0x1F || 0x7F <= r <= 0x9F
  }

  /** unicode.IsSpace */
  predicate IsSpace(r: int) {
    0x09 <= r <= 0x0D || r == 0x20 || r == 0x85 || r == 0xA0 || r == 0x1680
    || 0x2000 <= r <= 0x200A || r == 0x2028 || r == 0x2029 || r == 0x202F || r == 0x205F || r == 0x3000
  }

  predicate NeedsEscape(r: int) {
    !IsSpace(r) && IsControl(r)
  }

  /** NeedsEscape of the rune at the start of b, told from its first two bytes. */
  predicate EscapeHere(b: seq<Byte>) {
    b != [] && (SingleByteControl(b[0]) || (|b| >= 2 && b[0] == 0xC2 && C1Tail(b[1])))
  }

  /** The one-byte controls that are not spaces. */
  predicate SingleByteControl(b: Byte) {
    b < 0x09 || 0x0D < b < 0x20 || b == 0x7F
  }

  /** Second byte of a two-byte control other than U+0085, which counts as a space. */
  predicate C1Tail(b: Byte) {
    0x80 <= b <= 0x9F && b != 0x85
  }

  lemma EscapeIsLocal(b: seq<Byte>)
    requires b != []
    ensures var (r, n) := DecodeRune(b);
            (NeedsEscape(r) <==> EscapeHere(b))
            && (EscapeHere(b) ==> r == (if SingleByteControl(b[0]) then b[0] else b[1]) as int)
            && (forall i :: 1 <= i < n ==> IsTail(b[i]))
  {
  }
}
