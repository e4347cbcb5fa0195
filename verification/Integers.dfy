/** Little-endian fixed-width integers, as `to_le_bytes` and `from_le_bytes` code them. */
module Integers {
  import opened Prelude

  function Pow256(width: nat): nat {
    if width == 0 then 1 else 256 * Pow256(width - 1)
  }

  /** The `width` low bytes of `n`, least significant first. */
  function ToLe(n: nat, width: nat): (b: Bytes)
    ensures |b| == width
  {
    if width == 0 then [] else [n % 256] + ToLe(n / 256, width - 1)
  }

  function FromLe(b: Bytes): nat {
    if b == [] then 0 else b[0] + 256 * FromLe(b[1..])
  }

  lemma {:induction false} FromLeOfToLe(n: nat, width: nat)
    requires n < Pow256(width)
    ensures FromLe(ToLe(n, width)) == n
  {
    if width > 0 {
      FromLeOfToLe(n / 256, width - 1);
      assert ToLe(n, width)[1..] == ToLe(n / 256, width - 1);
    }
  }

  lemma {:induction false} ToLeOfFromLe(b: Bytes)
    ensures FromLe(b) < Pow256(|b|)
    ensures ToLe(FromLe(b), |b|) == b
  {
    if b != [] {
      ToLeOfFromLe(b[1..]);
      Split256(b[0], FromLe(b[1..]));
      assert [b[0]] + b[1..] == b;
    }
  }

  lemma Split256(low: byte, high: nat)
    ensures (low + 256 * high) % 256 == low && (low + 256 * high) / 256 == high
  {
  }

  lemma Widths()
    ensures Pow256(2) == U16_MAX + 1
    ensures Pow256(8) == U64_MAX + 1
  {
    assert Pow256(2) == 256 * 256;
    assert Pow256(4) == 256 * 256 * Pow256(2);
    assert Pow256(6) == 256 * 256 * Pow256(4);
    assert Pow256(8) == 256 * 256 * Pow256(6);
  }

  function U64Bytes(n: u64): (b: Bytes)
    ensures |b| == 8
  {
    ToLe(n, 8)
  }

  function U64Of(b: Bytes): (n: u64)
    requires |b| == 8
  {
    Widths();
    ToLeOfFromLe(b);
    FromLe(b)
  }

  /** Two's complement, then little-endian. */
  function I64Bytes(n: i64): (b: Bytes)
    ensures |b| == 8
  {
    ToLe(if n < 0 then n + U64_MAX + 1 else n, 8)
  }

  function I64Of(b: Bytes): (n: i64)
    requires |b| == 8
  {
    var bits := U64Of(b);
    if bits > I64_MAX then bits - U64_MAX - 1 else bits
  }

  function U16Of(low: byte, high: byte): u16 {
    low + 256 * high
  }

  lemma U64RoundTrip(n: u64)
    ensures U64Of(U64Bytes(n)) == n
  {
    Widths();
    FromLeOfToLe(n, 8);
  }

  lemma U64BytesOf(b: Bytes)
    requires |b| == 8
    ensures U64Bytes(U64Of(b)) == b
  {
    ToLeOfFromLe(b);
  }

  lemma I64RoundTrip(n: i64)
    ensures I64Of(I64Bytes(n)) == n
  {
    Widths();
    FromLeOfToLe(if n < 0 then n + U64_MAX + 1 else n, 8);
  }

  lemma I64BytesOf(b: Bytes)
    requires |b| == 8
    ensures I64Bytes(I64Of(b)) == b
  {
    ToLeOfFromLe(b);
  }

  // ----- Written out -----

  /** The eight bytes of `n`, the least significant first. */
  predicate IsLe64(b: Bytes, n: nat) {
    && |b| == 8
    && b[0] == n % 256
    && b[1] == n / 0x100 % 256
    && b[2] == n / 0x1_0000 % 256
    && b[3] == n / 0x100_0000 % 256
    && b[4] == n / 0x1_0000_0000 % 256
    && b[5] == n / 0x100_0000_0000 % 256
    && b[6] == n / 0x1_0000_0000_0000 % 256
    && b[7] == n / 0x100_0000_0000_0000 % 256
  }

  /** The same for a signed integer, in two's complement. */
  predicate IsLe64Signed(b: Bytes, n: i64) {
    IsLe64(b, if n < 0 then n + 0x1_0000_0000_0000_0000 else n)
  }

  /** Two bytes at a time, so that each division stays small. */
  lemma TwoBytes(n: nat, width: nat)
    requires width >= 2
    ensures var b := ToLe(n, width);
            b[0] == n % 256 && b[1] == n / 256 % 256 && b[2..] == ToLe(n / 0x1_0000, width - 2)
  {
    assert n / 256 / 256 == n / 0x1_0000;
    assert ToLe(n, width) == [n % 256] + ([n / 256 % 256] + ToLe(n / 0x1_0000, width - 2));
  }

  lemma DivideFurther(n: nat)
    ensures n / 0x1_0000 / 0x1_0000 == n / 0x1_0000_0000
    ensures n / 0x1_0000_0000 / 0x1_0000 == n / 0x1_0000_0000_0000
    ensures n / 0x1_0000 / 256 == n / 0x100_0000
    ensures n / 0x1_0000_0000 / 256 == n / 0x100_0000_0000
    ensures n / 0x1_0000_0000_0000 / 256 == n / 0x100_0000_0000_0000
  {
  }

  lemma ToLeIsLe64(n: nat)
    ensures IsLe64(ToLe(n, 8), n)
  {
    hide ToLe;
    TwoBytes(n, 8);
    TwoBytes(n / 0x1_0000, 6);
    DivideFurther(n);
    TwoBytes(n / 0x1_0000_0000, 4);
    TwoBytes(n / 0x1_0000_0000_0000, 2);
    var b := ToLe(n, 8);
    assert b[2] == b[2..][0] && b[3] == b[2..][1];
    assert b[4] == b[2..][2..][0] && b[5] == b[2..][2..][1];
    assert b[6] == b[2..][2..][2..][0] && b[7] == b[2..][2..][2..][1];
  }

  lemma U64BytesAreLe(n: u64)
    ensures IsLe64(U64Bytes(n), n)
  {
    ToLeIsLe64(n);
  }

  lemma I64BytesAreLe(n: i64)
    ensures IsLe64Signed(I64Bytes(n), n)
  {
    ToLeIsLe64(if n < 0 then n + U64_MAX + 1 else n);
  }
}
