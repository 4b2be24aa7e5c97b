/** btcacc/btcacc.py: `LeafData`, the record whose serialization is hashed to
    give an accumulator leaf, and its byte codec. */
module Btcacc {
  import opened Common
  import opened Bytes
  import opened Hashes

  const MaxScriptSize: nat := 10000

  /** The bytes of the fixed-width part: 32 + 32 + 4 + 4 + 8. */
  const FixedSize: nat := 80

  /** Every field of a Python `LeafData`. The source annotates widths
      (uint32 index, int32 height, int64 amt) but stores Python ints, so the
      fields are unbounded here and the codec checks ranges as `struct` does. */
  datatype LeafData = LeafData(
    blockHash: seq<Byte>,
    txHash: Hash,
    index: int,
    height: int,
    coinbase: bool,
    amt: int,
    pkScript: seq<Byte>)

  /** `LeafData()` with every field at its default. */
  const DefaultLeafData: LeafData := LeafData(ZeroBytes(HashSize), ZeroHash, 0, 0, false, 0, [])

  /** `height << 1`, or-ed with 1 for a coinbase output. */
  function PackHeight(height: int, coinbase: bool): int
  {
    height * 2 + (if coinbase then 1 else 0)
  }

  /** `(hcb >> 1, bool(hcb & 1))`. Python's `>>` floors and `& 1` is the
      non-negative remainder; for divisor 2 these are Dafny's `/` and `%`. */
  function UnpackHeight(hcb: int): (int, bool)
  {
    (hcb / 2, hcb % 2 == 1)
  }

  lemma HeightPackingRoundTrip(height: int, coinbase: bool)
    ensures UnpackHeight(PackHeight(height, coinbase)) == (height, coinbase)
  {
  }

  /** The ranges `struct.pack` accepts for the integer fields, and the
      script limit `serialize` enforces. */
  predicate FieldsInRange(ld: LeafData)
  {
    && InU32(ld.index)
    && InI32(PackHeight(ld.height, ld.coinbase))
    && InI64(ld.amt)
    && |ld.pkScript| <= MaxScriptSize
  }

  /** A record that serializes and reads back as itself. */
  predicate Encodable(ld: LeafData)
  {
    |ld.blockHash| == HashSize && FieldsInRange(ld)
  }

  /** `LeafData.serialize(w)`: the writes in order, stopping at the first raise.
      Both hashes reach the stream whatever follows; a script over the limit
      is the only cause of ScriptTooLong. */
  function Serialize(ld: LeafData): (w: Written)
    ensures w.Complete() <==> FieldsInRange(ld)
    ensures w.failure == Some(ScriptTooLong) <==>
      InU32(ld.index) && InI32(PackHeight(ld.height, ld.coinbase)) && InI64(ld.amt) && |ld.pkScript| > MaxScriptSize
    ensures |w.bytes| >= |ld.blockHash| + HashSize && w.bytes[..|ld.blockHash| + HashSize] == ld.blockHash + ld.txHash
  {
    Then(Emit(ld.blockHash),
    Then(Emit(ld.txHash),
    Then(PackU32(ld.index),
    Then(PackI32(PackHeight(ld.height, ld.coinbase)),
    Then(PackI64(ld.amt),
      if |ld.pkScript| > MaxScriptSize then Raise(ScriptTooLong)
      else Then(PackU16(|ld.pkScript|), Emit(ld.pkScript)))))))
  }

  /** `serialize_size()`: 82 bytes of fixed fields plus the script. */
  function SerializeSize(ld: LeafData): (n: nat)
    ensures Serialize(ld).Complete() && |ld.blockHash| == HashSize ==> n == |Serialize(ld).bytes|
  {
    SerializeLayout(ld);
    FixedSize + 2 + |ld.pkScript|
  }

  /** The fixed-width part as `serialize` writes it. */
  function Header(blockHash: seq<Byte>, txHash: Hash, index: int, hcb: int, amt: int): seq<Byte>
    requires InU32(index) && InI32(hcb) && InI64(amt)
  {
    blockHash + txHash + EncU32(index) + EncI32(hcb) + EncI64(amt)
  }

  /** `serialize` completes exactly when every integer fits its format and
      the script is at most 10000 bytes; it then writes the fixed fields,
      the u16 script length and the script, in that order. */
  lemma SerializeLayout(ld: LeafData)
    ensures Serialize(ld).Complete() <==> FieldsInRange(ld)
    ensures FieldsInRange(ld) ==>
      Serialize(ld).bytes == Header(ld.blockHash, ld.txHash, ld.index, PackHeight(ld.height, ld.coinbase), ld.amt)
                             + EncU16(|ld.pkScript|) + ld.pkScript
  {
    if FieldsInRange(ld) {
      var hcb := PackHeight(ld.height, ld.coinbase);
      assert Serialize(ld).bytes ==
        ld.blockHash + (ld.txHash + (EncU32(ld.index) + (EncI32(hcb) + (EncI64(ld.amt) + (EncU16(|ld.pkScript|) + ld.pkScript)))));
    }
  }

  /** A complete serialization of a record with a 32-byte block hash has
      exactly `serialize_size()` bytes. */
  lemma SerializedLength(ld: LeafData)
    requires Encodable(ld)
    ensures Serialize(ld).Complete() && |Serialize(ld).bytes| == SerializeSize(ld)
  {
    SerializeLayout(ld);
  }

  /** A script over the limit raises only after the 80 fixed-width bytes
      have been written. */
  lemma SerializeOversized(ld: LeafData)
    requires |ld.blockHash| == HashSize
    requires InU32(ld.index) && InI32(PackHeight(ld.height, ld.coinbase)) && InI64(ld.amt)
    requires |ld.pkScript| > MaxScriptSize
    ensures Serialize(ld).failure == Some(ScriptTooLong)
    ensures Serialize(ld).bytes == Header(ld.blockHash, ld.txHash, ld.index, PackHeight(ld.height, ld.coinbase), ld.amt)
    ensures |Serialize(ld).bytes| == FixedSize
  {
  }

  /** What `deserialize` leaves behind: the record as assigned so far, the
      unread rest of the stream, and the exception if one was raised. */
  datatype Decoded = Decoded(state: LeafData, rest: seq<Byte>, failure: Option<Error>)

  /** `self.deserialize(r)`: assigns block_hash, tx_hash, index and amt as it
      reads them; height, coinbase and pk_script only at the very end. A short
      block hash or script is accepted as read; a short tx hash raises
      ValueError; a short integer raises struct.error (and, being short, the
      read has drained the stream). What is left unread is always a suffix
      of the stream, and a successful read consumes exactly the
      `serialize_size()` of the record it produces. */
  function Deserialize(self: LeafData, r: seq<Byte>): (d: Decoded)
    ensures |d.rest| <= |r| && d.rest == r[|r| - |d.rest|..]
    ensures d.failure.None? ==> |r| - |d.rest| == SerializeSize(d.state) && |d.state.pkScript| <= MaxScriptSize
    ensures d.failure.None? ==> d.state.blockHash == r[..HashSize]
  {
    var (bh, r1) := Read(r, HashSize);
    var s1 := self.(blockHash := bh);
    var (th, r2) := Read(r1, HashSize);
    match MakeHash(th)
    case Err(e) => Decoded(s1, r2, Some(e))
    case Ok(txHash) => DeserializeNumbers(s1.(txHash := txHash), r2)
  }

  /** The integer fields of `deserialize`, after both hashes. */
  function DeserializeNumbers(s: LeafData, r: seq<Byte>): (d: Decoded)
    ensures |d.rest| <= |r| && d.rest == r[|r| - |d.rest|..]
    ensures d.failure.None? ==>
      |r| - |d.rest| == 18 + |d.state.pkScript| && |d.state.pkScript| <= MaxScriptSize && d.state.blockHash == s.blockHash
  {
    match UnpackU32(r)
    case Err(e) => Decoded(s, [], Some(e))
    case Ok((index, r1)) =>
      var s1 := s.(index := index);
      match UnpackI32(r1)
      case Err(e) => Decoded(s1, [], Some(e))
      case Ok((hcb, r2)) =>
        match UnpackI64(r2)
        case Err(e) => Decoded(s1, [], Some(e))
        case Ok((amt, r3)) => DeserializeScript(s1.(amt := amt), hcb, r3)
  }

  /** The script length, the limit check, the script, then height and coinbase. */
  function DeserializeScript(s: LeafData, hcb: int, r: seq<Byte>): (d: Decoded)
    ensures |d.rest| <= |r| && d.rest == r[|r| - |d.rest|..]
    ensures d.failure.None? ==>
      |r| - |d.rest| == 2 + |d.state.pkScript| && |d.state.pkScript| <= MaxScriptSize && d.state.blockHash == s.blockHash
  {
    match UnpackU16(r)
    case Err(e) => Decoded(s, [], Some(e))
    case Ok((pkSize, r1)) =>
      if pkSize > MaxScriptSize then Decoded(s, r1, Some(ScriptTooLong))
      else
        var (script, r2) := Read(r1, pkSize);
        var (height, coinbase) := UnpackHeight(hcb);
        Decoded(s.(pkScript := script, coinbase := coinbase, height := height), r2, None)
  }

  /** Reading a well-formed fixed part followed by a u16 length `len` and
      `tail`: over the limit it raises with only block_hash, tx_hash, index and
      amt assigned; otherwise it takes up to `len` bytes of `tail` as the
      script without checking that there were enough. */
  lemma DeserializeFrom(self: LeafData, bh: seq<Byte>, th: Hash, index: int, hcb: int, amt: int,
                        len: int, tail: seq<Byte>)
    requires |bh| == HashSize && InU32(index) && InI32(hcb) && InI64(amt) && InU16(len)
    ensures var d := Deserialize(self, Header(bh, th, index, hcb, amt) + EncU16(len) + tail);
      var partial := self.(blockHash := bh, txHash := th, index := index, amt := amt);
      if len > MaxScriptSize then
        d == Decoded(partial, tail, Some(ScriptTooLong))
      else
        d == Decoded(partial.(pkScript := Read(tail, len).0, coinbase := hcb % 2 == 1, height := hcb / 2),
                     Read(tail, len).1, None)
  {
    var ei, eh, ea, el := EncU32(index), EncI32(hcb), EncI64(amt), EncU16(len);
    var r := Header(bh, th, index, hcb, amt) + el + tail;
    var r2 := ei + (eh + (ea + (el + tail)));
    assert r == bh + (th + r2);
    assert Read(r, HashSize) == (bh, th + r2);
    assert Read(th + r2, HashSize) == (th, r2);
    var s2 := self.(blockHash := bh, txHash := th);
    assert Deserialize(self, r) == DeserializeNumbers(s2, r2);
    U32RoundTrip(index, eh + (ea + (el + tail)));
    I32RoundTrip(hcb, ea + (el + tail));
    I64RoundTrip(amt, el + tail);
    assert DeserializeNumbers(s2, r2) == DeserializeScript(s2.(index := index, amt := amt), hcb, el + tail);
    U16RoundTrip(len, tail);
  }

  /** Round trip: reading back what `serialize` wrote recovers all seven
      fields, whatever record is being overwritten, and leaves the rest of the
      stream unread. */
  lemma RoundTrip(ld: LeafData, self: LeafData, rest: seq<Byte>)
    requires Encodable(ld)
    ensures Deserialize(self, Serialize(ld).bytes + rest) == Decoded(ld, rest, None)
  {
    SerializeLayout(ld);
    var hcb := PackHeight(ld.height, ld.coinbase);
    var len := |ld.pkScript|;
    var tail := ld.pkScript + rest;
    assert Serialize(ld).bytes + rest == Header(ld.blockHash, ld.txHash, ld.index, hcb, ld.amt) + EncU16(len) + tail;
    DeserializeFrom(self, ld.blockHash, ld.txHash, ld.index, hcb, ld.amt, len, tail);
    assert Read(tail, len) == (ld.pkScript, rest);
    HeightPackingRoundTrip(ld.height, ld.coinbase);
  }

  /** A declared script length over 10000 raises ScriptTooLong after the
      block hash, tx hash, index and amount were overwritten; height, coinbase
      and pk_script keep their previous values. */
  lemma DeserializeOversized(self: LeafData, bh: seq<Byte>, th: Hash, index: int, hcb: int, amt: int,
                             len: int, tail: seq<Byte>)
    requires |bh| == HashSize && InU32(index) && InI32(hcb) && InI64(amt) && InU16(len)
    requires len > MaxScriptSize
    ensures var d := Deserialize(self, Header(bh, th, index, hcb, amt) + EncU16(len) + tail);
      && d.failure == Some(ScriptTooLong)
      && d.state.blockHash == bh && d.state.txHash == th && d.state.index == index && d.state.amt == amt
      && d.state.height == self.height && d.state.coinbase == self.coinbase && d.state.pkScript == self.pkScript
  {
    DeserializeFrom(self, bh, th, index, hcb, amt, len, tail);
  }

  /** A script shorter than its declared length is not detected: the record
      takes what was left of the stream as its script. */
  lemma DeserializeShortScript(self: LeafData, bh: seq<Byte>, th: Hash, index: int, hcb: int, amt: int,
                               len: int, tail: seq<Byte>)
    requires |bh| == HashSize && InU32(index) && InI32(hcb) && InI64(amt) && InU16(len)
    requires len <= MaxScriptSize && |tail| < len
    ensures var d := Deserialize(self, Header(bh, th, index, hcb, amt) + EncU16(len) + tail);
      d.failure.None? && d.state.pkScript == tail && d.rest == []
  {
    DeserializeFrom(self, bh, th, index, hcb, amt, len, tail);
  }

  /** Fewer than 64 bytes cannot hold both hashes: `Hash(...)` raises. */
  lemma DeserializeTruncatedHash(self: LeafData, r: seq<Byte>)
    requires |r| < 2 * HashSize
    ensures Deserialize(self, r).failure == Some(BadHashLength)
  {
  }

  /** `op_string()`: display form of the tx hash, a colon, the decimal index. */
  function OpString(ld: LeafData): (s: string)
    ensures |s| > 2 * HashSize + 1 && s[2 * HashSize] == ':'
  {
    HashString(ld.txHash) + ":" + Decimal(ld.index)
  }

  function ParseOpString(s: string): Option<(Hash, int)>
  {
    if |s| > 2 * HashSize && s[2 * HashSize] == ':' then
      match ParseHashString(s[..2 * HashSize])
      case Some(h) => Some((h, ParseDecimal(s[2 * HashSize + 1..])))
      case None => None
    else None
  }

  /** The outpoint string names the outpoint unambiguously. */
  lemma OpStringRoundTrip(ld: LeafData)
    ensures ParseOpString(OpString(ld)) == Some((ld.txHash, ld.index))
  {
    var s := OpString(ld);
    assert s[..2 * HashSize] == HashString(ld.txHash);
    assert s[2 * HashSize + 1..] == Decimal(ld.index);
    HashStringRoundTrip(ld.txHash);
    DecimalRoundTrip(ld.index);
  }

  /** `leaf_hash()`: a digest of exactly what `serialize` writes; the digest
      (the first 32 bytes of SHA-512) is a parameter. It raises whatever
      `serialize` raises. */
  function LeafHash(ld: LeafData, digest: seq<Byte> -> Hash): (r: Result<Hash>)
    ensures r.Ok? <==> FieldsInRange(ld)
    ensures r.Ok? ==> Serialize(ld).Complete() && r.value == digest(Serialize(ld).bytes)
    ensures r.Err? ==> Some(r.error) == Serialize(ld).failure
  {
    SerializeLayout(ld);
    var w := Serialize(ld);
    if w.Complete() then Ok(digest(w.bytes)) else Err(w.failure.value)
  }

  /** Distinct encodable records have distinct serializations, so equal
      leaf hashes for them are a collision of the digest itself. */
  lemma LeafHashCollision(a: LeafData, b: LeafData, digest: seq<Byte> -> Hash)
    requires Encodable(a) && Encodable(b) && a != b
    requires LeafHash(a, digest) == LeafHash(b, digest)
    ensures Serialize(a).bytes != Serialize(b).bytes
    ensures digest(Serialize(a).bytes) == digest(Serialize(b).bytes)
  {
    RoundTrip(a, DefaultLeafData, []);
    RoundTrip(b, DefaultLeafData, []);
    assert Serialize(a).bytes + [] == Serialize(a).bytes;
    assert Serialize(b).bytes + [] == Serialize(b).bytes;
  }
}
