/** Network masks and prefixes (nettypes.c). */
module Prefix {
  type Byte = bv8

  datatype IpVersion = IPv4 | IPv6

  const IPV4_LEN := 4
  const IPV6_LEN := 16

  function Len(v: IpVersion): nat { if v == IPv4 then IPV4_LEN else IPV6_LEN }

  /** `lsdn_is_prefix_valid`: the prefix is no longer than an address of that version. */
  predicate IsPrefixValid(v: IpVersion, prefix: int): (ok: bool)
    ensures ok <==> 0 <= prefix <= 8 * Len(v)
  {
    match v
    case IPv4 => 0 <= prefix <= 32
    case IPv6 => 0 <= prefix <= 128
  }

  // ---------------------------------------------------------------- masks as bits

  function Bit(b: Byte, j: nat): bool
    requires j < 8
  {
    (b >> (7 - j)) & 1 == 1
  }

  /** The bits of an address, most significant first. */
  function Bits(bytes: seq<Byte>): (r: seq<bool>)
    ensures |r| == 8 * |bytes|
  {
    seq(8 * |bytes|, i requires 0 <= i < 8 * |bytes| => Bit(bytes[i / 8], i % 8))
  }

  /** Ones followed by zeros: `p` leading ones. */
  ghost predicate OnesThenZeros(bytes: seq<Byte>, p: nat)
  {
    p <= 8 * |bytes| && forall i :: 0 <= i < 8 * |bytes| ==> (Bits(bytes)[i] <==> i < p)
  }

  // ---------------------------------------------------------------- single bytes

  /** The byte with `n` leading ones. */
  function Leading(n: nat): Byte
    requires n <= 8
  {
    match n
    case 0 => 0x00 case 1 => 0x80 case 2 => 0xC0 case 3 => 0xE0 case 4 => 0xF0
    case 5 => 0xF8 case 6 => 0xFC case 7 => 0xFE case _ => 0xFF
  }

  /** `~((1 << zero_suffix) - 1)`, cut to a byte. */
  function GenByte(bytePrefix: nat): Byte
    requires 1 <= bytePrefix <= 8
  {
    !(((1 as bv8) << (8 - bytePrefix)) - 1)
  }

  lemma GenByteLeading(n: nat)
    requires 1 <= n <= 8
    ensures GenByte(n) == Leading(n)
  {
    assert n == 1 || n == 2 || n == 3 || n == 4 || n == 5 || n == 6 || n == 7 || n == 8;
  }

  lemma LeadingBit(n: nat, j: nat)
    requires n <= 8 && j < 8
    ensures Bit(Leading(n), j) <==> j < n
  {
  }

  /** Byte `i` of a mask with `p` leading ones. */
  function MaskByte(p: nat, i: nat): Byte
  {
    if p <= 8 * i then 0 else if p >= 8 * (i + 1) then 0xFF else Leading(p - 8 * i)
  }

  lemma MaskByteBit(p: nat, i: nat, j: nat)
    requires j < 8
    ensures Bit(MaskByte(p, i), j) <==> 8 * i + j < p
  {
    if p <= 8 * i { LeadingBit(0, j); } else if p >= 8 * (i + 1) { LeadingBit(8, j); } else { LeadingBit(p - 8 * i, j); }
  }

  lemma SameBits(a: Byte, b: Byte)
    requires Bit(a, 0) == Bit(b, 0) && Bit(a, 1) == Bit(b, 1) && Bit(a, 2) == Bit(b, 2) && Bit(a, 3) == Bit(b, 3)
    requires Bit(a, 4) == Bit(b, 4) && Bit(a, 5) == Bit(b, 5) && Bit(a, 6) == Bit(b, 6) && Bit(a, 7) == Bit(b, 7)
    ensures a == b
  {}

  /** An address is a mask with `p` leading ones exactly when its bytes are those of that mask. */
  lemma OnesThenZerosBytes(bytes: seq<Byte>, p: nat)
    requires p <= 8 * |bytes|
    ensures OnesThenZeros(bytes, p) <==> forall i :: 0 <= i < |bytes| ==> bytes[i] == MaskByte(p, i)
  {
    if forall i :: 0 <= i < |bytes| ==> bytes[i] == MaskByte(p, i) {
      forall i | 0 <= i < 8 * |bytes| ensures Bits(bytes)[i] <==> i < p { MaskByteBit(p, i / 8, i % 8); }
    }
    if OnesThenZeros(bytes, p) {
      forall i | 0 <= i < |bytes| ensures bytes[i] == MaskByte(p, i) { OnesThenZerosByte(bytes, p, i); }
    }
  }

  lemma OnesThenZerosByte(bytes: seq<Byte>, p: nat, i: nat)
    requires OnesThenZeros(bytes, p) && i < |bytes|
    ensures bytes[i] == MaskByte(p, i)
  {
    forall j: nat | j < 8 ensures Bit(bytes[i], j) == Bit(MaskByte(p, i), j) {
      assert (8 * i + j) / 8 == i && (8 * i + j) % 8 == j;
      assert Bits(bytes)[8 * i + j] == Bit(bytes[i], j);
      MaskByteBit(p, i, j);
    }
    SameBits(bytes[i], MaskByte(p, i));
  }

  /** A prefix determines its mask and a mask its prefix. */
  lemma Bijection(a: seq<Byte>, b: seq<Byte>, p: nat, q: nat)
    requires |a| == |b| && OnesThenZeros(a, p) && OnesThenZeros(b, q)
    ensures a == b <==> p == q
  {
    if p == q {
      forall i | 0 <= i < |a| ensures a[i] == b[i] { OnesThenZerosByte(a, p, i); OnesThenZerosByte(b, p, i); }
    } else if p < q {
      assert Bits(b)[p] && !Bits(a)[p];
    } else {
      assert Bits(a)[q] && !Bits(b)[q];
    }
  }

  // ---------------------------------------------------------------- the loops

  /** `gen_prefix` */
  method GenPrefix(dst: array<Byte>, prefix: int)
    requires 0 <= prefix <= 8 * dst.Length
    modifies dst
    ensures forall i :: 0 <= i < dst.Length ==> dst[i] == if 8 * i < prefix then MaskByte(prefix, i) else old(dst[i])
  {
    var left, pos := prefix, 0;
    while left > 0
      invariant 0 <= pos <= dst.Length && left == prefix - 8 * pos && left > -8
      invariant forall i :: 0 <= i < pos ==> dst[i] == MaskByte(prefix, i)
      invariant forall i :: pos <= i < dst.Length ==> dst[i] == old(dst[i])
    {
      var bytePrefix := left;
      if bytePrefix > 8 { bytePrefix := 8; }
      GenByteLeading(bytePrefix);
      dst[pos] := GenByte(bytePrefix);
      left, pos := left - 8, pos + 1;
    }
  }

  /** `lsdn_ip_mask_from_prefix` */
  method MaskFromPrefix(v: IpVersion, prefix: int) returns (mask: seq<Byte>)
    requires IsPrefixValid(v, prefix)
    ensures |mask| == Len(v) && OnesThenZeros(mask, prefix)
    ensures |mask| == if v == IPv4 then 4 else 16
  {
    var bytes := new Byte[Len(v)](_ => 0);
    GenPrefix(bytes, prefix);
    mask := bytes[..];
    OnesThenZerosBytes(mask, prefix);
  }

  /** The byte is 0xFE, 0xFC, ..., 0x80 or 0x00. */
  method PartialByte(b: Byte) returns (ok: bool)
    ensures ok <==> exists m: nat :: m <= 7 && b == Leading(m)
  {
    var d: Byte := 1;
    var n: Byte := 0xFF - d;
    ok := false;
    ghost var k := 0;
    while d != 0
      invariant 0 <= k <= 8 && d == Power(k) && n == (if k <= 7 then Leading(7 - k) else 0)
      invariant ok <==> exists m: nat :: 7 - k < m <= 7 && b == Leading(m)
      decreases 8 - k
    {
      if b == n { ok := true; }
      PowerStep(k);
      d := d * 2;
      n := n - d;
      k := k + 1;
    }
  }

  /** 2^k in a byte, with wrap-around. */
  function Power(k: nat): Byte
    requires k <= 8
  {
    match k
    case 0 => 1 case 1 => 2 case 2 => 4 case 3 => 8 case 4 => 16 case 5 => 32 case 6 => 64 case 7 => 128 case _ => 0
  }

  lemma PowerStep(k: nat)
    requires k <= 7
    ensures Power(k) != 0 && Power(k) * 2 == Power(k + 1)
    ensures Leading(7 - k) - Power(k + 1) == if k + 1 <= 7 then Leading(6 - k) else 0
  {}

  /** `lsdn_ip_mask_is_prefix` */
  method MaskIsPrefix(bytes: seq<Byte>) returns (ok: bool)
    ensures ok <==> exists p: nat :: OnesThenZeros(bytes, p)
  {
    for i := 0 to |bytes|
      invariant forall j :: 0 <= j < i ==> bytes[j] == 0xFF
    {
      if bytes[i] != 0xFF {
        ok := PartialByte(bytes[i]);
        if !ok {
          NotAMask(bytes, i);
          return;
        }
        for j := i + 1 to |bytes|
          invariant forall k :: i + 1 <= k < j ==> bytes[k] == 0
        {
          if bytes[j] != 0 {
            ZerosAfter(bytes, i, j);
            return false;
          }
        }
        AMask(bytes, i);
        return true;
      }
    }
    OnesThenZerosBytes(bytes, 8 * |bytes|);
    return true;
  }

  lemma AMask(bytes: seq<Byte>, i: nat)
    requires i < |bytes| && (forall j :: 0 <= j < i ==> bytes[j] == 0xFF) && (forall j :: i < j < |bytes| ==> bytes[j] == 0)
    requires exists m: nat :: m <= 7 && bytes[i] == Leading(m)
    ensures exists p: nat :: OnesThenZeros(bytes, p)
  {
    var m: nat :| m <= 7 && bytes[i] == Leading(m);
    OnesThenZerosBytes(bytes, 8 * i + m);
  }

  lemma NotAMask(bytes: seq<Byte>, i: nat)
    requires i < |bytes| && bytes[i] != 0xFF && !exists m: nat :: m <= 7 && bytes[i] == Leading(m)
    ensures !exists p: nat :: OnesThenZeros(bytes, p)
  {
    forall p: nat ensures !OnesThenZeros(bytes, p) {
      MaskByteLeading(p, i);
      if OnesThenZeros(bytes, p) { OnesThenZerosByte(bytes, p, i); }
    }
  }

  lemma MaskByteLeading(p: nat, i: nat)
    ensures MaskByte(p, i) == 0xFF || exists m: nat :: m <= 7 && MaskByte(p, i) == Leading(m)
  {
    if p < 8 * (i + 1) {
      var m: nat := if p <= 8 * i then 0 else p - 8 * i;
      assert MaskByte(p, i) == Leading(m);
    }
  }

  lemma ZerosAfter(bytes: seq<Byte>, i: nat, j: nat)
    requires i < j < |bytes| && bytes[i] != 0xFF && bytes[j] != 0
    ensures !exists p: nat :: OnesThenZeros(bytes, p)
  {
    forall p: nat ensures !OnesThenZeros(bytes, p) {
      if OnesThenZeros(bytes, p) { OnesThenZerosByte(bytes, p, i); OnesThenZerosByte(bytes, p, j); }
    }
  }

  // ---------------------------------------------------------------- counting

  /** Ones among the `k` least significant bits. */
  ghost function LowOnes(b: Byte, k: nat): nat
    requires k <= 8
  {
    if k == 0 then 0 else LowOnes(b, k - 1) + (if Bit(b, 8 - k) then 1 else 0)
  }

  lemma {:induction false} LeadingOnes(n: nat, k: nat)
    requires n <= 8 && k <= 8
    ensures LowOnes(Leading(n), k) == if k + n <= 8 then 0 else k + n - 8
  {
    if k > 0 {
      LeadingOnes(n, k - 1);
      LeadingBit(n, 8 - k);
    }
  }

  lemma TestBit(b: Byte, j: nat)
    requires j < 8
    ensures b & ((1 as bv8) << j) != 0 <==> Bit(b, 7 - j)
  {}

  /** `lsdn_ip_prefix_from_mask` */
  method PrefixFromMask(bytes: seq<Byte>) returns (prefix: nat)
    requires exists p: nat :: OnesThenZeros(bytes, p)
    ensures OnesThenZeros(bytes, prefix)
  {
    ghost var p: nat :| OnesThenZeros(bytes, p);
    OnesThenZerosBytes(bytes, p);
    prefix := 0;
    for i := 0 to |bytes|
      invariant prefix == if p <= 8 * i then p else 8 * i
    {
      ghost var before := prefix;
      for j := 0 to 8
        invariant prefix == before + LowOnes(bytes[i], j)
      {
        TestBit(bytes[i], j);
        if bytes[i] & ((1 as bv8) << j) != 0 {
          prefix := prefix + 1;
        }
      }
      LeadingOnes(if p <= 8 * i then 0 else if p >= 8 * (i + 1) then 8 else p - 8 * i, 8);
    }
  }
}
