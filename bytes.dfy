/**
 * Octets and fixed-width unsigned integers on the wire.
 *
 * Every multi-byte field of the Wi-Fi Display IE is written in network byte
 * order (most significant octet first); this one convention is applied to all
 * of them, including the OUI and the 16-bit subelement length.
 */
module Bytes {

  /** A MAC address or BSSID: exactly six octets. */
  type Mac = s: seq<bv8> | |s| == 6 witness [0, 0, 0, 0, 0, 0]

  /** An IPv4 address: exactly four octets. */
  type Ipv4 = s: seq<bv8> | |s| == 4 witness [0, 0, 0, 0]

  // ---- octets as numbers ----

  // Octets and lengths are converted by counting rather than by `as nat` and
  // `as bv8`: the verifier handles the counted form far more cheaply inside
  // the length and size arithmetic of the decoders. OctetValueIsNat and
  // OctetIsBv show the two forms agree, so nothing is lost by the choice.

  /** The number an octet stands for, counted up one step at a time. */
  function OctetValue(b: bv8): nat
    decreases b
  {
    if b == 0 then 0 else OctetValue(b - 1) + 1
  }

  /** The octet standing for a number below 256. */
  function Octet(n: nat): bv8
    requires n < 256
  {
    if n == 0 then 0 else Octet(n - 1) + 1
  }

  lemma {:induction false} OctetValueIsNat(b: bv8)
    ensures OctetValue(b) == b as nat
    decreases b
  {
    if b != 0 {
      OctetValueIsNat(b - 1);
    }
  }

  lemma {:induction false} OctetIsBv(n: nat)
    requires n < 256
    ensures Octet(n) as nat == n
  {
    if n != 0 {
      OctetIsBv(n - 1);
    }
  }

  /** Octets and the numbers below 256 correspond one to one. */
  lemma OctetOfValue(b: bv8)
    ensures OctetValue(b) < 256 && Octet(OctetValue(b)) == b
  {
    OctetValueIsNat(b);
    OctetIsBv(OctetValue(b));
  }

  lemma ValueBound(b: bv8)
    ensures OctetValue(b) < 256
  {
    OctetValueIsNat(b);
  }

  lemma ValueOfOctet(n: nat)
    requires n < 256
    ensures OctetValue(Octet(n)) == n
  {
    OctetValueIsNat(Octet(n));
    OctetIsBv(n);
  }

  // ---- readers ----

  function ReadU16(s: seq<bv8>, at: nat): bv16
    requires at + 2 <= |s|
  {
    ((s[at] as bv16) << 8) | (s[at + 1] as bv16)
  }

  function ReadU32(s: seq<bv8>, at: nat): bv32
    requires at + 4 <= |s|
  {
    ((s[at] as bv32) << 24) | ((s[at + 1] as bv32) << 16)
    | ((s[at + 2] as bv32) << 8) | (s[at + 3] as bv32)
  }

  function ReadU64(s: seq<bv8>, at: nat): bv64
    requires at + 8 <= |s|
  {
    ((s[at] as bv64) << 56) | ((s[at + 1] as bv64) << 48)
    | ((s[at + 2] as bv64) << 40) | ((s[at + 3] as bv64) << 32)
    | ((s[at + 4] as bv64) << 24) | ((s[at + 5] as bv64) << 16)
    | ((s[at + 6] as bv64) << 8) | (s[at + 7] as bv64)
  }

  // ---- writers: each is the exact inverse of its reader ----

  function U16(x: bv16): (r: seq<bv8>)
    ensures |r| == 2 && ReadU16(r, 0) == x
  {
    [(x >> 8) as bv8, (x & 0xff) as bv8]
  }

  function U32(x: bv32): (r: seq<bv8>)
    ensures |r| == 4 && ReadU32(r, 0) == x
  {
    [(x >> 24) as bv8, ((x >> 16) & 0xff) as bv8, ((x >> 8) & 0xff) as bv8, (x & 0xff) as bv8]
  }

  function U64(x: bv64): (r: seq<bv8>)
    ensures |r| == 8 && ReadU64(r, 0) == x
  {
    [(x >> 56) as bv8, ((x >> 48) & 0xff) as bv8, ((x >> 40) & 0xff) as bv8,
     ((x >> 32) & 0xff) as bv8, ((x >> 24) & 0xff) as bv8, ((x >> 16) & 0xff) as bv8,
     ((x >> 8) & 0xff) as bv8, (x & 0xff) as bv8]
  }

  // ---- the other direction: reading then writing gives the octets back ----

  lemma U16OfRead(s: seq<bv8>, at: nat)
    requires at + 2 <= |s|
    ensures U16(ReadU16(s, at)) == s[at..at + 2]
  {
  }

  lemma U32OfRead(s: seq<bv8>, at: nat)
    requires at + 4 <= |s|
    ensures U32(ReadU32(s, at)) == s[at..at + 4]
  {
  }

  lemma U64OfRead(s: seq<bv8>, at: nat)
    requires at + 8 <= |s|
    ensures U64(ReadU64(s, at)) == s[at..at + 8]
  {
  }

  // ---- a 16-bit count (the subelement length) as a number ----

  /** The count a big-endian 16-bit length field holds. */
  function ReadCount(s: seq<bv8>, at: nat): (n: nat)
    requires at + 2 <= |s|
    ensures n < 0x1_0000
  {
    ValueBound(s[at]);
    ValueBound(s[at + 1]);
    OctetValue(s[at]) * 256 + OctetValue(s[at + 1])
  }

  /** The two octets of a 16-bit count. */
  function Count(n: nat): (r: seq<bv8>)
    requires n < 0x1_0000
    ensures |r| == 2
  {
    [Octet(n / 256), Octet(n % 256)]
  }

  /** Writing a count and reading it back gives the count. */
  lemma ReadOfCount(n: nat)
    requires n < 0x1_0000
    ensures ReadCount(Count(n), 0) == n
  {
    ValueOfOctet(n / 256);
    ValueOfOctet(n % 256);
  }

  /** Reading a count and writing it back gives the same two octets. */
  lemma CountOfRead(s: seq<bv8>, at: nat)
    requires at + 2 <= |s|
    ensures Count(ReadCount(s, at)) == s[at..at + 2]
  {
    var a, b := OctetValue(s[at]), OctetValue(s[at + 1]);
    OctetOfValue(s[at]);
    OctetOfValue(s[at + 1]);
    assert (a * 256 + b) / 256 == a && (a * 256 + b) % 256 == b;
  }

  // ---- octet sequences cut and joined ----

  /** A slice is the concatenation of its two parts at any point between its ends. */
  lemma Cut(s: seq<bv8>, i: nat, j: nat, k: nat)
    requires i <= j <= k <= |s|
    ensures s[i..k] == s[i..j] + s[j..k]
  {
  }

  /** The two halves of a concatenation are recovered by slicing at the join. */
  lemma AppendParts(a: seq<bv8>, b: seq<bv8>)
    ensures (a + b)[..|a|] == a && (a + b)[|a|..] == b
  {
  }
}
