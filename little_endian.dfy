/** Little-endian unsigned integers over bytes, as Go's
    `encoding/binary.LittleEndian` reads and writes them. */
module LittleEndian {
  import opened Common

  /** 256 to the power `n`: one more than the largest `n`-byte value. */
  function Pow256(n: nat): (r: nat)
    ensures r > 0
  {
    if n == 0 then 1 else 256 * Pow256(n - 1)
  }

  lemma Pow256Widths()
    ensures Pow256(2) == 0x1_0000
    ensures Pow256(4) == 0x1_0000_0000
    ensures Pow256(8) == 0x1_0000_0000_0000_0000
  {
    assert Pow256(1) == 256;
    assert Pow256(2) == 256 * 256;
    assert Pow256(3) == 256 * 256 * 256;
    assert Pow256(4) == 256 * Pow256(3);
    assert Pow256(5) == 256 * Pow256(4);
    assert Pow256(6) == 256 * Pow256(5);
    assert Pow256(7) == 256 * Pow256(6);
  }

  /** The number whose little-endian bytes are `s` (least significant first). */
  function FromLE(s: seq<Byte>): (r: nat)
    ensures r < Pow256(|s|)
  {
    if s == [] then 0 else s[0] + 256 * FromLE(s[1..])
  }

  /** The `n` little-endian bytes of `x`, keeping only its low `8n` bits. */
  function ToLE(x: nat, n: nat): (r: seq<Byte>)
    ensures |r| == n
  {
    if n == 0 then [] else [x % 256] + ToLE(x / 256, n - 1)
  }

  /** Writing `x` in `n` bytes and reading it back gives `x` whenever it fits. */
  lemma {:induction false} FromToLE(x: nat, n: nat)
    requires x < Pow256(n)
    ensures FromLE(ToLE(x, n)) == x
  {
    if n > 0 {
      FromToLE(x / 256, n - 1);
      assert ToLE(x, n)[1..] == ToLE(x / 256, n - 1);
    }
  }

  /** Reading `s` and writing the value back in `|s|` bytes gives `s`. */
  lemma {:induction false} ToFromLE(s: seq<Byte>)
    ensures ToLE(FromLE(s), |s|) == s
  {
    if s != [] {
      var v := FromLE(s);
      assert v % 256 == s[0] && v / 256 == FromLE(s[1..]);
      ToFromLE(s[1..]);
    }
  }

  /** `binary.LittleEndian.Uint32(b)`: the first four bytes of `b`; Go panics
      on a shorter slice, so callers check the length first. */
  function Uint32LE(b: seq<Byte>): (r: Uint32)
    requires |b| >= 4
    ensures r == b[0] as int + b[1] as int * 0x100 + b[2] as int * 0x1_0000 + b[3] as int * 0x100_0000
    ensures r == FromLE(b[..4])
  {
    Pow256Widths();
    var w := b[..4];
    assert FromLE(w[3..]) == b[3] by { assert w[3..][1..] == []; }
    assert FromLE(w[2..]) == b[2] + 256 * FromLE(w[3..]) by { assert w[2..][1..] == w[3..]; }
    assert FromLE(w[1..]) == b[1] + 256 * FromLE(w[2..]) by { assert w[1..][1..] == w[2..]; }
    FromLE(w)
  }

  /** Any 32-bit key is the `Uint32` of its own four little-endian bytes. */
  lemma Uint32LERoundTrip(x: Uint32)
    ensures Uint32LE(ToLE(x, 4)) == x
  {
    Pow256Widths();
    FromToLE(x, 4);
    assert ToLE(x, 4)[..4] == ToLE(x, 4);
  }
}
