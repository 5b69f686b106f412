/**
 The 8-byte little-endian length prefix of safetensors files and of gathered metadata
 (struct.pack("<Q", n), int.to_bytes(8, "little") and their inverses).
 */
module LengthPrefix {
  import opened Wrappers
  import opened Streams

  const PREFIX_BYTES: nat := 8
  const PREFIX_LIMIT: nat := 0x1_0000_0000_0000_0000

  /** The k low bytes of n, least significant first. */
  function LittleEndian(n: nat, k: nat): (r: seq<byte>)
    ensures |r| == k
  {
    if k == 0 then [] else [(n % 256) as byte] + LittleEndian(n / 256, k - 1)
  }

  function FromLittleEndian(s: seq<byte>): nat {
    if s == [] then 0 else s[0] as nat + 256 * FromLittleEndian(s[1..])
  }

  function Power256(k: nat): nat {
    if k == 0 then 1 else 256 * Power256(k - 1)
  }

  lemma {:induction false} LittleEndianRoundTrip(n: nat, k: nat)
    ensures n < Power256(k) <==> FromLittleEndian(LittleEndian(n, k)) == n
    ensures FromLittleEndian(LittleEndian(n, k)) < Power256(k)
  {
    if k > 0 {
      LittleEndianRoundTrip(n / 256, k - 1);
      assert LittleEndian(n, k)[1..] == LittleEndian(n / 256, k - 1);
    }
  }

  lemma PrefixLimit()
    ensures Power256(PREFIX_BYTES) == PREFIX_LIMIT
  {
    assert Power256(4) == 0x1_0000_0000;
  }

  /** Data behind its length; None where the length does not fit and Python raises. */
  function Prefixed(data: seq<byte>): Option<seq<byte>> {
    if |data| < PREFIX_LIMIT then Some(LittleEndian(|data|, PREFIX_BYTES) + data) else None
  }

  /** The data a prefix announces; a slice that runs past the end is cut short. */
  function Unprefixed(s: seq<byte>): seq<byte>
    requires |s| >= PREFIX_BYTES
  {
    var n := FromLittleEndian(s[..PREFIX_BYTES]);
    if PREFIX_BYTES + n <= |s| then s[PREFIX_BYTES..PREFIX_BYTES + n] else s[PREFIX_BYTES..]
  }

  /** Prefixed data is recovered whatever bytes follow it. */
  lemma PrefixRoundTrip(data: seq<byte>, padding: seq<byte>)
    requires Prefixed(data).Some?
    ensures Unprefixed(Prefixed(data).value + padding) == data
  {
    PrefixLimit();
    LittleEndianRoundTrip(|data|, PREFIX_BYTES);
    var s := Prefixed(data).value + padding;
    assert s[..PREFIX_BYTES] == LittleEndian(|data|, PREFIX_BYTES);
    assert s[PREFIX_BYTES..PREFIX_BYTES + |data|] == data;
  }
}
