/** Fixed-width little-endian integers, as `BitConverter.GetBytes` and
    `BitConverter.ToInt16/32/64` produce and read them on a little-endian host.
    Signed values use two's complement. */
module LittleEndian {

  type Byte = b: int | 0 <= b < 256

  /** 256 to the power `w`: the number of values a `w`-byte field can hold. */
  function Pow256(w: nat): (r: nat)
    ensures r >= 1
  {
    if w == 0 then 1 else 256 * Pow256(w - 1)
  }

  lemma Pow256Widths()
    ensures Pow256(1) == 0x100
    ensures Pow256(2) == 0x1_0000
    ensures Pow256(4) == 0x1_0000_0000
    ensures Pow256(8) == 0x1_0000_0000_0000_0000
  {
  }

  /** The `w` low-order bytes of `n`, least significant byte first. */
  function ToLE(n: nat, w: nat): (r: seq<Byte>)
    requires n < Pow256(w)
    ensures |r| == w
  {
    if w == 0 then [] else [n % 256] + ToLE(n / 256, w - 1)
  }

  /** The unsigned number whose little-endian bytes are `bs`. */
  function FromLE(bs: seq<Byte>): (r: nat)
    ensures r < Pow256(|bs|)
  {
    if |bs| == 0 then 0
    else
      var rest := FromLE(bs[1..]);
      assert bs[0] + 256 * rest <= 255 + 256 * (Pow256(|bs| - 1) - 1);
      bs[0] + 256 * rest
  }

  lemma {:induction false} FromLEToLE(n: nat, w: nat)
    requires n < Pow256(w)
    ensures FromLE(ToLE(n, w)) == n
  {
    if w > 0 {
      var bs := ToLE(n, w);
      assert bs[1..] == ToLE(n / 256, w - 1);
      FromLEToLE(n / 256, w - 1);
    }
  }

  lemma {:induction false} ToLEFromLE(bs: seq<Byte>)
    ensures ToLE(FromLE(bs), |bs|) == bs
  {
    if |bs| > 0 {
      var n := FromLE(bs);
      assert n % 256 == bs[0] && n / 256 == FromLE(bs[1..]);
      ToLEFromLE(bs[1..]);
    }
  }

  /** Half of the `w`-byte range: the first value a signed `w`-byte field cannot hold. */
  function Half(w: nat): (h: int)
    requires w > 0
    ensures h > 0 && 2 * h == Pow256(w)
  {
    assert Pow256(w) == 256 * Pow256(w - 1);
    Pow256(w) / 2
  }

  /** Two's complement: the `w`-byte pattern of a signed value. */
  function Unsigned(n: int, w: nat): (u: nat)
    requires w > 0 && -Half(w) <= n < Half(w)
    ensures u < Pow256(w)
  {
    if n < 0 then n + Pow256(w) else n
  }

  /** Two's complement: the signed value of a `w`-byte pattern. */
  function Signed(u: nat, w: nat): (n: int)
    requires w > 0 && u < Pow256(w)
    ensures -Half(w) <= n < Half(w)
  {
    if u >= Half(w) then u - Pow256(w) else u
  }

  lemma SignedUnsigned(n: int, w: nat)
    requires w > 0 && -Half(w) <= n < Half(w)
    ensures Signed(Unsigned(n, w), w) == n
  {
  }

  /** `BitConverter.GetBytes((int)n)`. */
  function Int32LE(n: int): (r: seq<Byte>)
    requires -0x8000_0000 <= n < 0x8000_0000
    ensures |r| == 4
  {
    Pow256Widths();
    ToLE(Unsigned(n, 4), 4)
  }

  /** `BitConverter.ToInt32(bs, 0)`. */
  function ReadInt32(bs: seq<Byte>): (n: int)
    requires |bs| == 4
    ensures -0x8000_0000 <= n < 0x8000_0000
  {
    Pow256Widths();
    Signed(FromLE(bs), 4)
  }

  lemma ReadInt32LE(n: int)
    requires -0x8000_0000 <= n < 0x8000_0000
    ensures ReadInt32(Int32LE(n)) == n
  {
    Pow256Widths();
    FromLEToLE(Unsigned(n, 4), 4);
    SignedUnsigned(n, 4);
  }

  /** A small non-negative `int` is its own low byte followed by three zeros. */
  lemma SmallInt32LE(n: int)
    requires 0 <= n < 256
    ensures Int32LE(n) == [n, 0, 0, 0]
  {
    Pow256Widths();
    assert ToLE(0, 1) == [0];
    assert ToLE(0, 2) == [0, 0];
    assert ToLE(0, 3) == [0, 0, 0];
    assert ToLE(n, 4) == [n] + ToLE(0, 3);
  }
}
