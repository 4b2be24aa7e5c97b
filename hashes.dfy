/** The 32-byte `Hash` type. The repository defines it three times with the
    same length check (btcacc/btcacc.py, util/utils.py, utils/utils.py);
    all three are this one type. */
module Hashes {
  import opened Common
  import opened Bytes

  const HashSize: nat := 32

  type Hash = s: seq<Byte> | |s| == HashSize witness ZeroBytes(HashSize)

  /** `bytes(n)`: n zero bytes. */
  function ZeroBytes(n: nat): (z: seq<Byte>)
    ensures |z| == n && forall i :: 0 <= i < n ==> z[i] == 0
  {
    seq(n, _ => 0)
  }

  const ZeroHash: Hash := ZeroBytes(HashSize)

  /** `Hash(data)`: accepts exactly 32 bytes, raises ValueError otherwise. */
  function MakeHash(data: seq<Byte>): (r: Result<Hash>)
    ensures r.Ok? <==> |data| == HashSize
    ensures r.Ok? ==> r.value == data
    ensures r.Err? ==> r.error == BadHashLength
  {
    if |data| == HashSize then Ok(data) else Err(BadHashLength)
  }

  /** `str(h)`: the hex of the bytes in reverse order (display byte order). */
  function HashString(h: Hash): (s: string)
    ensures |s| == 2 * HashSize
  {
    Hex(Reverse(h))
  }

  /** Reads a display string back into a hash. */
  function ParseHashString(s: string): Option<Hash>
  {
    match UnHex(s)
    case Some(b) => if |b| == HashSize then Some(Reverse(b)) else None
    case None => None
  }

  /** Characters 2i and 2i+1 of the display form are the two hex digits of
      byte 31 - i: the display is the byte-reversed hex, not the plain hex. */
  lemma HashStringAt(h: Hash, i: nat)
    requires i < HashSize
    ensures HashString(h)[2 * i] == HexDigit(h[HashSize - 1 - i] / 16)
    ensures HashString(h)[2 * i + 1] == HexDigit(h[HashSize - 1 - i] % 16)
  {
    HexAt(Reverse(h), i);
  }

  /** The display form loses nothing: it parses back to the same hash. */
  lemma HashStringRoundTrip(h: Hash)
    ensures ParseHashString(HashString(h)) == Some(h)
  {
    UnHexHex(Reverse(h));
    ReverseReverse(h);
  }

  lemma HashStringInjective(a: Hash, b: Hash)
    requires HashString(a) == HashString(b)
    ensures a == b
  {
    HashStringRoundTrip(a);
    HashStringRoundTrip(b);
  }
}
