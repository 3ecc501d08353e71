/** Prefix lengths of netmasks (src/network_interface_details.cpp). */
module Netmask {
  import opened Wrappers

  newtype Byte = x: int | 0 <= x < 256

  /** The value of one bit, `bit` 0 being the lowest. */
  function Weight(bit: nat): (w: int)
    requires bit < 8
    ensures 1 <= w <= 128
  {
    match bit
    case 0 => 1 case 1 => 2 case 2 => 4 case 3 => 8
    case 4 => 16 case 5 => 32 case 6 => 64 case 7 => 128
  }

  /** `(b & (1u << bit)) != 0` */
  predicate IsSet(b: Byte, bit: nat)
    requires bit < 8
  {
    (b as int / Weight(bit)) % 2 == 1
  }

  /** The bits of a byte string in network order, the highest bit of a byte first. */
  function BitAt(bytes: seq<Byte>, k: nat): bool
    requires k < 8 * |bytes|
  {
    IsSet(bytes[k / 8], 7 - k % 8)
  }

  /** The first `n` bits are one and all others zero: a mask of section 3.1 of RFC 4632. */
  ghost predicate IsMask(bytes: seq<Byte>, n: nat) {
    && n <= 8 * |bytes|
    && forall k | 0 <= k < 8 * |bytes| :: BitAt(bytes, k) == (k < n)
  }

  /** What the scan has established after the first `k` bits. */
  ghost predicate Scanned(bytes: seq<Byte>, k: nat, ones: nat, seenZero: bool) {
    && ones <= k <= 8 * |bytes|
    && seenZero == (ones < k)
    && forall j | 0 <= j < k :: BitAt(bytes, j) == (j < ones)
  }

  /** A one behind a zero: no prefix length fits. */
  lemma GapIsNoMask(bytes: seq<Byte>, zero: nat, one: nat)
    requires zero < one < 8 * |bytes| && !BitAt(bytes, zero) && BitAt(bytes, one)
    ensures forall n: nat :: !IsMask(bytes, n)
  {
    var a, b := BitAt(bytes, zero), BitAt(bytes, one);
    assert forall n: nat | IsMask(bytes, n) :: a == (zero < n) && b == (one < n);
  }

  lemma MaskIsUnique(bytes: seq<Byte>, m: nat, n: nat)
    requires IsMask(bytes, m) && IsMask(bytes, n)
    ensures m == n
  {
    var k := if m < n then m else n;
    assert k < 8 * |bytes| ==> BitAt(bytes, k) == (k < m) && BitAt(bytes, k) == (k < n);
  }

  /** Counts the leading one bits and refuses a one that follows a zero. */
  method ContiguousPrefixLength(bytes: seq<Byte>) returns (r: Option<nat>)
    ensures forall n: nat :: r == Some(n) <==> IsMask(bytes, n)
  {
    var ones: nat := 0;
    var seenZero := false;
    for i := 0 to |bytes|
      invariant Scanned(bytes, 8 * i, ones, seenZero)
    {
      var bit := 7;
      while bit >= 0
        invariant -1 <= bit <= 7
        invariant Scanned(bytes, 8 * i + 7 - bit, ones, seenZero)
      {
        var k := 8 * i + 7 - bit;
        assert k / 8 == i && 7 - k % 8 == bit;
        if IsSet(bytes[i], bit) {
          if seenZero {
            GapIsNoMask(bytes, ones, k);
            return None;
          }
          ones := ones + 1;
        } else {
          seenZero := true;
        }
        bit := bit - 1;
      }
    }
    r := Some(ones);
    forall n: nat ensures r == Some(n) <==> IsMask(bytes, n) {
      assert IsMask(bytes, ones);
      if IsMask(bytes, n) { MaskIsUnique(bytes, ones, n); }
    }
  }

  // ---- The inverse ----

  /** A byte that starts with `n` ones. */
  function LeadingOnes(n: nat): Byte
    requires n <= 8
  {
    if n == 0 then 0 else (256 - Weight(8 - n)) as Byte
  }

  /** The mask of a prefix length, in `count` bytes. */
  function BuildMask(n: nat, count: nat): (bytes: seq<Byte>)
    requires n <= 8 * count
    ensures |bytes| == count
    decreases count
  {
    if count == 0 then []
    else if n >= 8 then [255] + BuildMask(n - 8, count - 1)
    else [LeadingOnes(n)] + BuildMask(0, count - 1)
  }

  lemma LeadingOnesBits(n: nat, bit: nat)
    requires n <= 8 && bit < 8
    ensures IsSet(LeadingOnes(n), bit) == (7 - bit < n)
  {
  }

  lemma {:induction false} BuildMaskIsMask(n: nat, count: nat)
    requires n <= 8 * count
    ensures IsMask(BuildMask(n, count), n)
    decreases count
  {
    if count > 0 {
      var first := if n >= 8 then 8 else n;
      var bytes, rest := BuildMask(n, count), BuildMask(n - first, count - 1);
      BuildMaskIsMask(n - first, count - 1);
      assert bytes == [LeadingOnes(first)] + rest;
      forall k | 0 <= k < 8 * |bytes| ensures BitAt(bytes, k) == (k < n) {
        if k < 8 {
          LeadingOnesBits(first, 7 - k);
        } else {
          assert k / 8 == (k - 8) / 8 + 1 && k % 8 == (k - 8) % 8;
          assert BitAt(rest, k - 8) == (k - 8 < n - first);
        }
      }
    }
  }

  /** Bytes with the same bits down to `bit` agree when divided by its weight. */
  lemma {:induction false} HighBitsDecide(a: Byte, b: Byte, bit: nat)
    requires bit < 8 && forall j: nat | bit <= j < 8 :: IsSet(a, j) == IsSet(b, j)
    ensures a as int / Weight(bit) == b as int / Weight(bit)
    decreases 8 - bit
  {
    assert IsSet(a, bit) == IsSet(b, bit);
    if bit < 7 {
      HighBitsDecide(a, b, bit + 1);
      Halved(a as int, bit);
      Halved(b as int, bit);
    }
  }

  lemma Halved(x: int, bit: nat)
    requires bit < 7
    ensures x / Weight(bit) == 2 * (x / Weight(bit + 1)) + x / Weight(bit) % 2
  {
  }

  /** The accepted byte strings are exactly the built masks: parsing inverts building, both ways. */
  lemma MasksAreBuilt(bytes: seq<Byte>, n: nat)
    ensures IsMask(bytes, n) <==> n <= 8 * |bytes| && bytes == BuildMask(n, |bytes|)
  {
    if n <= 8 * |bytes| {
      var built := BuildMask(n, |bytes|);
      BuildMaskIsMask(n, |bytes|);
      if IsMask(bytes, n) {
        forall i | 0 <= i < |bytes| ensures bytes[i] == built[i] {
          forall bit: nat | bit < 8 ensures IsSet(bytes[i], bit) == IsSet(built[i], bit) {
            var k := 8 * i + 7 - bit;
            assert k / 8 == i && 7 - k % 8 == bit;
            assert BitAt(bytes, k) == BitAt(built, k);
          }
          HighBitsDecide(bytes[i], built[i], 0);
        }
      }
    }
  }

  // ---- Socket addresses ----

  datatype Family = Inet | Inet6 | OtherFamily

  /** A socket address: the length that came with it and the address bytes of its family. */
  datatype SockAddr = SockAddr(family: Family, length: nat, v4: seq<Byte>, v6: seq<Byte>)

  predicate Complete(a: SockAddr) {
    |a.v4| == 4 && |a.v6| == 16
  }

  const SOCKADDR_IN: nat := 16
  const SOCKADDR_IN6: nat := 28

  /** A mask is read off the 4 bytes of an IPv4 address or the 16 of an IPv6 one, each if complete. */
  method PrefixLengthFromMask(netmask: Option<SockAddr>) returns (r: Option<nat>)
    requires netmask.Some? ==> Complete(netmask.value)
    ensures netmask.None? ==> r == None
    ensures netmask.Some? && netmask.value.family == Inet && netmask.value.length >= 16 ==>
              forall n: nat :: r == Some(n) <==> IsMask(netmask.value.v4, n)
    ensures netmask.Some? && netmask.value.family == Inet6 && netmask.value.length >= 28 ==>
              forall n: nat :: r == Some(n) <==> IsMask(netmask.value.v6, n)
    ensures netmask.Some? && netmask.value.family == Inet && netmask.value.length < 16 ==> r == None
    ensures netmask.Some? && netmask.value.family == Inet6 && netmask.value.length < 28 ==> r == None
    ensures netmask.Some? && netmask.value.family == OtherFamily ==> r == None
  {
    if netmask.None? {
      return None;
    }
    var a := netmask.value;
    if a.family == Inet && a.length >= SOCKADDR_IN {
      r := ContiguousPrefixLength(a.v4);
    } else if a.family == Inet6 && a.length >= SOCKADDR_IN6 {
      r := ContiguousPrefixLength(a.v6);
    } else {
      r := None;
    }
  }
}
