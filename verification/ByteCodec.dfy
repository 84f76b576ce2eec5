/** Bytes and fixed-width little-endian integers, as the command codec, the store
    snapshot and the state file all lay them out. */
module ByteCodec {
  import opened Wrappers

  type byte = x: int | 0 <= x < 256
  type Bytes = seq<byte>

  const TWO_TO_32: nat := 0x1_0000_0000
  const TWO_TO_64: nat := 0x1_0000_0000_0000_0000

  type u32 = x: int | 0 <= x < TWO_TO_32
  type u64 = x: int | 0 <= x < TWO_TO_64

  function Pow256(n: nat): (p: nat)
    ensures p >= 1
  {
    if n == 0 then 1 else 256 * Pow256(n - 1)
  }

  lemma Pow256Widths()
    ensures Pow256(4) == TWO_TO_32
    ensures Pow256(8) == TWO_TO_64
  {
    assert Pow256(1) == 256 * Pow256(0);
    assert Pow256(2) == 256 * Pow256(1);
    assert Pow256(3) == 256 * Pow256(2);
    assert Pow256(4) == 256 * Pow256(3);
    assert Pow256(5) == 256 * Pow256(4);
    assert Pow256(6) == 256 * Pow256(5);
    assert Pow256(7) == 256 * Pow256(6);
    assert Pow256(8) == 256 * Pow256(7);
  }

  /** The `n` low-order bytes of `v`, least significant first. */
  function LittleEndian(v: nat, n: nat): (b: Bytes)
    ensures |b| == n
  {
    if n == 0 then [] else [v % 256] + LittleEndian(v / 256, n - 1)
  }

  function FromLittleEndian(b: Bytes): nat {
    if b == [] then 0 else b[0] + 256 * FromLittleEndian(b[1..])
  }

  lemma {:induction false} DecodeEncode(v: nat, n: nat)
    requires v < Pow256(n)
    ensures FromLittleEndian(LittleEndian(v, n)) == v
  {
    if n > 0 {
      DecodeEncode(v / 256, n - 1);
      assert LittleEndian(v, n)[1..] == LittleEndian(v / 256, n - 1);
    }
  }

  lemma SplitLow(low: byte, high: nat)
    ensures (low + 256 * high) % 256 == low && (low + 256 * high) / 256 == high
  {
  }

  lemma {:induction false} EncodeDecode(b: Bytes)
    ensures FromLittleEndian(b) < Pow256(|b|)
    ensures LittleEndian(FromLittleEndian(b), |b|) == b
  {
    if b != [] {
      EncodeDecode(b[1..]);
      SplitLow(b[0], FromLittleEndian(b[1..]));
      assert b == [b[0]] + b[1..];
    }
  }

  lemma MulMonotone(x: nat, y: nat, d: nat)
    requires x < y
    ensures x * d + d <= y * d
  {
    assert (y - x - 1) * d >= 0;
    assert (y - x - 1) * d == y * d - x * d - d;
  }

  /** Quotient and remainder are unique. */
  lemma UniqueQuotient(d: nat, a: nat, r: nat, b: nat, s: nat)
    requires a * d + r == b * d + s && r < d && s < d
    ensures a == b
  {
    if a < b {
      MulMonotone(a, b, d);
    } else if b < a {
      MulMonotone(b, a, d);
    }
  }

  /** Byte `i` of the encoding is what the shift-and-mask in the writers computes. */
  lemma {:induction false} LittleEndianDigit(v: nat, n: nat, i: nat)
    requires i < n
    ensures LittleEndian(v, n)[i] == (v / Pow256(i)) % 256
  {
    if i > 0 {
      LittleEndianDigit(v / 256, n - 1, i - 1);
      DivDivSwap(v, Pow256(i - 1));
    }
  }

  lemma QuotientIs(v: nat, d: nat, a: nat, r: nat)
    requires r < d && v == a * d + r
    ensures v / d == a
  {
    UniqueQuotient(d, a, r, v / d, v % d);
  }

  lemma DivDivSwap(v: nat, p: nat)
    requires p >= 1
    ensures (v / 256) / p == v / (256 * p)
  {
    var q, r := v / 256, v % 256;
    var a, c := q / p, q % p;
    assert v == 256 * q + r;
    assert q == a * p + c;
    Regroup(a, p, c, r);
    QuotientIs(v, 256 * p, a, 256 * c + r);
  }

  lemma Regroup(a: nat, p: nat, c: nat, r: nat)
    ensures 256 * (a * p + c) + r == a * (256 * p) + (256 * c + r)
  {
  }

  /** A parsed value and what is left of the input. */
  datatype Parsed<+T> = Underrun | Parsed(value: T, rest: Bytes)

  function ParseUint(input: Bytes, n: nat): Parsed<nat> {
    if n > |input| then Underrun else Parsed(FromLittleEndian(input[..n]), input[n..])
  }

  lemma ParseUintOf(v: nat, n: nat, rest: Bytes)
    requires v < Pow256(n)
    ensures ParseUint(LittleEndian(v, n) + rest, n) == Parsed(v, rest)
  {
    DecodeEncode(v, n);
    assert (LittleEndian(v, n) + rest)[..n] == LittleEndian(v, n);
    assert (LittleEndian(v, n) + rest)[n..] == rest;
  }

  lemma UintLayoutOf(input: Bytes, n: nat)
    requires n <= |input|
    ensures ParseUint(input, n).value < Pow256(n)
    ensures input == LittleEndian(ParseUint(input, n).value, n) + ParseUint(input, n).rest
  {
    EncodeDecode(input[..n]);
  }

  /** The writers' loop: `width` bytes of `v`, least significant first, pushed onto `out`. */
  method WriteLittleEndian(out: Bytes, v: nat, width: nat) returns (out': Bytes)
    ensures out' == out + LittleEndian(v, width)
  {
    out' := out;
    for i := 0 to width
      invariant out' == out + LittleEndian(v, width)[..i]
    {
      LittleEndianDigit(v, width, i);
      out' := out' + [(v / Pow256(i)) % 256];
    }
  }

  lemma {:induction false} FromLittleEndianSnoc(b: Bytes, d: byte)
    ensures FromLittleEndian(b + [d]) == FromLittleEndian(b) + d * Pow256(|b|)
  {
    if b == [] {
      assert b + [d] == [d] && [d][1..] == [];
    } else {
      FromLittleEndianSnoc(b[1..], d);
      assert (b + [d])[1..] == b[1..] + [d];
      Scale(d, Pow256(|b| - 1));
    }
  }

  lemma Scale(d: nat, p: nat)
    ensures 256 * (d * p) == d * (256 * p)
  {
  }

  lemma NothingRead()
    ensures FromLittleEndian([]) == 0
  {
  }

  /** The readers' loop: `width` bytes at `offset`, or nothing if the buffer ends before. The bytes
      or-ed in have no bits in common, so they are added here. */
  method ReadLittleEndian(input: Bytes, offset: nat, width: nat) returns (r: Option<nat>, offset': nat)
    requires offset <= |input|
    ensures offset' <= |input|
    ensures match ParseUint(input[offset..], width)
            case Underrun => r == None && offset' == offset
            case Parsed(v, rest) => r == Some(v) && offset' == offset + width && rest == input[offset'..]
  {
    hide FromLittleEndian, Pow256;
    if offset + width > |input| {
      return None, offset;
    }
    NothingRead();
    assert input[offset..offset] == [];
    var v := 0;
    offset' := offset;
    for i := 0 to width
      invariant offset' == offset + i
      invariant v == FromLittleEndian(input[offset..offset'])
    {
      FromLittleEndianSnoc(input[offset..offset'], input[offset']);
      assert input[offset..offset' + 1] == input[offset..offset'] + [input[offset']];
      v := v + input[offset'] * Pow256(i);
      offset' := offset' + 1;
    }
    assert input[offset..][..width] == input[offset..offset'];
    assert input[offset..][width..] == input[offset'..];
    r := Some(v);
  }
}
