/** Bit strings, fixed-width unsigned integers and hexadecimal text.
    Big-endian throughout, as cells and `td::BitArray` store them. */
module Bits {
  import opened Wrappers

  newtype byte = x: int | 0 <= x < 256

  function Pow2(n: nat): (r: nat)
    ensures r >= 1
  {
    if n == 0 then 1 else 2 * Pow2(n - 1)
  }

  /** `td::Bits256`: a 256-bit identifier (hash, account id, library id). */
  type Bits256 = b: seq<bool> | |b| == 256 witness seq(256, _ => false)

  /** 2^32, 2^64 and 2^256 written out, so that bounds need no unfolding of `Pow2`. */
  const Two32: nat := 0x1_0000_0000
  const Two64: nat := 0x1_0000_0000_0000_0000
  const Two256: nat := 0x1_0000_0000_0000_0000_0000_0000_0000_0000_0000_0000_0000_0000_0000_0000_0000_0000_0000_0000

  lemma Pow2Width64()
    ensures Pow2(64) == Two64
  {
    assert Pow2(8) == 0x100;
    Pow2Double(8, 0x100);
    Pow2Double(16, 0x1_0000);
    Pow2Double(32, 0x1_0000_0000);
  }

  lemma Pow2Double(n: nat, v: nat)
    requires Pow2(n) == v
    ensures Pow2(2 * n) == v * v
  {
    Pow2Add(n, n);
  }

  lemma {:induction false} Pow2Add(a: nat, b: nat)
    ensures Pow2(a + b) == Pow2(a) * Pow2(b)
  {
    if b > 0 {
      Pow2Add(a, b - 1);
      assert Pow2(a + b) == 2 * Pow2(a + b - 1);
    }
  }

  /** `uint32_t`, e.g. a unix time. */
  type Uint32 = n: nat | n < Two32

  /** `uint64_t`, e.g. a logical time or a gas counter. */
  type Uint64 = n: nat | n < Two64

  /** The value of a big-endian bit string. */
  function BitsValue(b: seq<bool>): nat
  {
    if |b| == 0 then 0 else 2 * BitsValue(b[..|b| - 1]) + (if b[|b| - 1] then 1 else 0)
  }

  /** The low `width` bits of `n`, big-endian (`CellBuilder::store_long`). */
  function UIntBits(n: nat, width: nat): (b: seq<bool>)
    ensures |b| == width
  {
    if width == 0 then [] else UIntBits(n / 2, width - 1) + [n % 2 == 1]
  }

  lemma BitsValueBound(b: seq<bool>)
    ensures BitsValue(b) < Pow2(|b|)
  {
  }

  /** Storing a value that fits in `width` bits and reading it back gives the value. */
  lemma {:induction false} UIntBitsValue(n: nat, width: nat)
    requires n < Pow2(width)
    ensures BitsValue(UIntBits(n, width)) == n
  {
    if width > 0 {
      var b := UIntBits(n, width);
      assert b[..width - 1] == UIntBits(n / 2, width - 1);
      UIntBitsValue(n / 2, width - 1);
    }
  }

  /** Reading a bit string back as a number and re-storing it at the same width is the identity. */
  lemma {:induction false} BitsValueUIntBits(b: seq<bool>)
    ensures UIntBits(BitsValue(b), |b|) == b
  {
    if |b| > 0 {
      var init := b[..|b| - 1];
      var v := BitsValue(b);
      assert v / 2 == BitsValue(init);
      BitsValueUIntBits(init);
    }
  }

  // ----- hexadecimal -----

  predicate IsHexDigit(c: char)
  {
    '0' <= c <= '9' || 'a' <= c <= 'f' || 'A' <= c <= 'F'
  }

  /** A digit's value is its position in the digit alphabet, in either case. */
  function HexDigitValue(c: char): (v: nat)
    requires IsHexDigit(c)
    ensures v < 16
    ensures c == "0123456789abcdef"[v] || c == "0123456789ABCDEF"[v]
  {
    if '0' <= c <= '9' then c as nat - '0' as nat
    else if 'a' <= c <= 'f' then c as nat - 'a' as nat + 10
    else c as nat - 'A' as nat + 10
  }

  /** The upper-case digit for a nibble, as `td::BitArray::to_hex` writes it. */
  function HexDigit(v: nat): (c: char)
    requires v < 16
    ensures IsHexDigit(c) && HexDigitValue(c) == v
  {
    "0123456789ABCDEF"[v]
  }

  /** `td::hex_decode` followed by copying the bytes into a bit array: every
      character contributes four bits; an odd length or a non-hex character fails. */
  function HexDecode(s: string): (r: Option<seq<bool>>)
    ensures r.Some? <==> |s| % 2 == 0 && forall i :: 0 <= i < |s| ==> IsHexDigit(s[i])
    ensures r.Some? ==> |r.value| == 4 * |s|
    ensures r.Some? ==> forall i :: 0 <= i < |s| ==> r.value[4 * i..4 * i + 4] == UIntBits(HexDigitValue(s[i]), 4)
  {
    if |s| % 2 != 0 then None else HexNibbles(s)
  }

  /** Every character in turn as four bits, the value of that digit. */
  function HexNibbles(s: string): (r: Option<seq<bool>>)
    ensures r.Some? <==> forall i :: 0 <= i < |s| ==> IsHexDigit(s[i])
    ensures r.Some? ==> |r.value| == 4 * |s|
    ensures r.Some? ==> forall i :: 0 <= i < |s| ==> r.value[4 * i..4 * i + 4] == UIntBits(HexDigitValue(s[i]), 4)
  {
    if |s| == 0 then Some([])
    else if !IsHexDigit(s[0]) then None
    else
      match HexNibbles(s[1..])
      case None => None
      case Some(rest) =>
        Some(UIntBits(HexDigitValue(s[0]), 4) + rest)
  }

  /** `td::BitArray::to_hex` on whole bytes: four bits per upper-case hex digit. */
  function ToHex(b: seq<bool>): (s: string)
    requires |b| % 8 == 0
    ensures 4 * |s| == |b|
    ensures forall i :: 0 <= i < |s| ==> IsHexDigit(s[i])
  {
    WholeNibbles(|b|);
    NibblesHex(b)
  }

  function NibblesHex(b: seq<bool>): (s: string)
    requires |b| % 4 == 0
    ensures 4 * |s| == |b|
    ensures forall i :: 0 <= i < |s| ==> IsHexDigit(s[i])
  {
    if |b| == 0 then ""
    else
      BitsValueBound(b[..4]);
      [HexDigit(BitsValue(b[..4]))] + NibblesHex(b[4..])
  }

  lemma WholeNibbles(bits: nat)
    requires bits % 8 == 0
    ensures bits % 4 == 0
  {
    var k := bits / 8;
    assert bits == 4 * (2 * k);
  }

  lemma {:induction false} HexNibblesToHex(b: seq<bool>)
    requires |b| % 4 == 0
    ensures HexNibbles(NibblesHex(b)) == Some(b)
  {
    if |b| > 0 {
      BitsValueBound(b[..4]);
      HexNibblesToHex(b[4..]);
      BitsValueUIntBits(b[..4]);
      var s := NibblesHex(b);
      assert s[1..] == NibblesHex(b[4..]);
      assert UIntBits(HexDigitValue(s[0]), 4) == b[..4];
      assert b == b[..4] + b[4..];
    }
  }

  /** Hex decoding inverts `ToHex` on whole bytes. */
  lemma HexRoundTrip(b: seq<bool>)
    requires |b| % 8 == 0
    ensures HexDecode(ToHex(b)) == Some(b)
  {
    var s := ToHex(b);
    WholeNibbles(|b|);
    assert s == NibblesHex(b);
    EvenDigitCount(|b|, |s|);
    HexNibblesToHex(b);
  }

  /** Whole bytes take an even number of hex digits. */
  lemma EvenDigitCount(bits: nat, digits: nat)
    requires bits % 8 == 0 && 4 * digits == bits
    ensures digits % 2 == 0
  {
  }

  /** `HexDecode` succeeds exactly on even-length strings of hex digits. */
  lemma HexDecodeAccepts(s: string)
    ensures HexDecode(s).Some? <==> |s| % 2 == 0 && forall i :: 0 <= i < |s| ==> IsHexDigit(s[i])
  {
  }
}
