/**
 * The address formula of the read and program branches: three address bytes,
 * collected from the bus in arrival order, are combined most- or
 * least-significant byte first.
 */
module Address {
  import opened Bytes

  /** The `--endian` option. */
  datatype Endian = Msb | Lsb

  /** Python's `x << k` on a non-negative integer. */
  function Shl(x: nat, k: nat): nat
  {
    if k == 0 then x else 2 * Shl(x, k - 1)
  }

  function Pow2(k: nat): nat { if k == 0 then 1 else 2 * Pow2(k - 1) }

  lemma {:induction false} ShlIsMul(x: nat, k: nat)
    ensures Shl(x, k) == x * Pow2(k)
  {
    if k > 0 { ShlIsMul(x, k - 1); }
  }

  /** The weight of three bytes read high byte first. */
  function Weigh(hi: int, mid: int, lo: int): int { hi * 65536 + mid * 256 + lo }

  /**
   * The address held by `bytes` (`address_bytes`). Only bytes 0..2 are read:
   * with `--addrlen 4` the fourth byte is ignored, and with `--addrlen 2`
   * reading `bytes[2]` fails, which is `None` here.
   */
  function DecodeAddress(bytes: seq<Byte>, endian: Endian): (r: Option<nat>)
    ensures r.None? <==> |bytes| < 3
    ensures r.Some? && endian == Msb ==> r.value == Weigh(bytes[0], bytes[1], bytes[2])
    ensures r.Some? && endian == Lsb ==> r.value == Weigh(bytes[2], bytes[1], bytes[0])
    ensures r.Some? ==> r.value < 0x100_0000
  {
    if |bytes| < 3 then None
    else
      ShlIsMul(bytes[0], 16); ShlIsMul(bytes[1], 8);
      ShlIsMul(bytes[2], 16); ShlIsMul(bytes[0], 0); ShlIsMul(bytes[2], 0);
      assert Pow2(8) == 256 && Pow2(16) == 65536;
      match endian
      case Msb => Some(Shl(bytes[0], 16) + Shl(bytes[1], 8) + Shl(bytes[2], 0))
      case Lsb => Some(Shl(bytes[2], 16) + Shl(bytes[1], 8) + Shl(bytes[0], 0))
  }

  /** The three address bytes a bus master sends for `addr`, in the given order. */
  function EncodeAddress(addr: nat, endian: Endian): (bytes: seq<Byte>)
    requires addr < 0x100_0000
    ensures |bytes| == 3
  {
    var hi, mid, lo := addr / 65536, addr / 256 % 256, addr % 256;
    match endian
    case Msb => [hi, mid, lo]
    case Lsb => [lo, mid, hi]
  }

  /** Decoding the bytes sent for an address gives that address back. */
  lemma AddressRoundTrip(addr: nat, endian: Endian)
    requires addr < 0x100_0000
    ensures DecodeAddress(EncodeAddress(addr, endian), endian) == Some(addr)
  {
    var b := EncodeAddress(addr, endian);
    assert addr == addr / 65536 * 65536 + addr / 256 % 256 * 256 + addr % 256 by {
      assert addr == addr / 256 * 256 + addr % 256;
      assert addr / 256 == addr / 256 / 256 * 256 + addr / 256 % 256;
      assert addr / 256 / 256 == addr / 65536;
    }
  }

  /** Three address bytes are determined by the address they decode to. */
  lemma BytesRoundTrip(bytes: seq<Byte>, endian: Endian)
    requires |bytes| == 3
    ensures DecodeAddress(bytes, endian).Some?
    ensures EncodeAddress(DecodeAddress(bytes, endian).value, endian) == bytes
  {
    var a := DecodeAddress(bytes, endian).value;
    var (hi, mid, lo) := if endian == Msb then (bytes[0], bytes[1], bytes[2]) else (bytes[2], bytes[1], bytes[0]);
    assert a == Weigh(hi, mid, lo);
    assert a / 65536 == hi;
    assert a / 256 == hi as int * 256 + mid;
    assert a / 256 % 256 == mid;
    assert a % 256 == lo;
  }

  /** Bytes beyond the third (`--addrlen 4`) never influence the address. */
  lemma ExtraBytesIgnored(bytes: seq<Byte>, endian: Endian)
    requires |bytes| >= 3
    ensures DecodeAddress(bytes, endian) == DecodeAddress(bytes[..3], endian)
  {
  }
}
