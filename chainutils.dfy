/** The network table and outpoint key shared by util/utils.py and
    utils/utils.py: the genesis block hash of each supported network (both
    files hold the same four constants and the same lookup), and the
    utils/utils.py `outpoint_to_bytes`, which takes the txid and the index
    separately and writes the txid in reverse byte order. */
module ChainUtils {
  import opened Common
  import opened Bytes
  import opened Hashes
  import Chain
  import Util

  // ---- genesis hashes, in internal (little-endian) byte order ----

  const MainnetGenHash: Hash := [
    0x6f, 0xe2, 0x8c, 0x0a, 0xb6, 0xf1, 0xb3, 0x72,
    0xc1, 0xa6, 0xa2, 0x46, 0xae, 0x63, 0xf7, 0x4f,
    0x93, 0x1e, 0x83, 0x65, 0xe1, 0x5a, 0x08, 0x9c,
    0x68, 0xd6, 0x19, 0x00, 0x00, 0x00, 0x00, 0x00]

  const Testnet3GenHash: Hash := [
    0x43, 0x49, 0x7f, 0xd7, 0xf8, 0x26, 0x95, 0x71,
    0x08, 0xf4, 0xa3, 0x0f, 0xd9, 0xce, 0xc3, 0xae,
    0xba, 0x79, 0x97, 0x20, 0x84, 0xe9, 0x0e, 0xad,
    0x01, 0xea, 0x33, 0x09, 0x00, 0x00, 0x00, 0x00]

  const RegtestGenHash: Hash := [
    0x06, 0x22, 0x6e, 0x46, 0x11, 0x1a, 0x0b, 0x59,
    0xca, 0xaf, 0x12, 0x60, 0x43, 0xeb, 0x5b, 0xbf,
    0x28, 0xc3, 0x4f, 0x3a, 0x5e, 0x33, 0x2a, 0x1f,
    0xc7, 0xb2, 0xb7, 0x3c, 0xf1, 0x88, 0x91, 0x0f]

  const SignetGenHash: Hash := [
    0xf6, 0x1e, 0xee, 0x3b, 0x63, 0xa3, 0x80, 0xa4,
    0x77, 0xa0, 0x63, 0xaf, 0x32, 0xb2, 0xbb, 0xc9,
    0x7c, 0x9f, 0xf9, 0xf0, 0x1f, 0x2c, 0x42, 0x25,
    0xe9, 0x73, 0x98, 0x81, 0x08, 0x00, 0x00, 0x00]

  /** The network names `gen_hash_for_net` knows. */
  predicate KnownNetwork(name: string)
  {
    name == "testnet3" || name == "mainnet" || name == "regtest" || name == "signet"
  }

  /** `gen_hash_for_net(params)`, given `params.name`: the genesis hash of a
      known network; any other name raises ValueError. */
  function GenHashForNet(name: string): (r: Result<Hash>)
    ensures r.Ok? <==> KnownNetwork(name)
    ensures r.Err? ==> r.error == NetworkNotSupported
    ensures name == "mainnet" ==> r == Ok(MainnetGenHash)
    ensures name == "testnet3" ==> r == Ok(Testnet3GenHash)
    ensures name == "regtest" ==> r == Ok(RegtestGenHash)
    ensures name == "signet" ==> r == Ok(SignetGenHash)
  {
    if name == "testnet3" then Ok(Testnet3GenHash)
    else if name == "mainnet" then Ok(MainnetGenHash)
    else if name == "regtest" then Ok(RegtestGenHash)
    else if name == "signet" then Ok(SignetGenHash)
    else Err(NetworkNotSupported)
  }

  /** No two networks share a genesis hash, so the hash identifies the
      network. */
  lemma GenHashInjective(a: string, b: string)
    requires GenHashForNet(a).Ok? && GenHashForNet(a) == GenHashForNet(b)
    ensures a == b
  {
    assert MainnetGenHash[0] == 0x6f && Testnet3GenHash[0] == 0x43;
    assert RegtestGenHash[0] == 0x06 && SignetGenHash[0] == 0xf6;
  }

  // ---- outpoint_to_bytes (utils/utils.py) ----

  /** `outpoint_to_bytes(txid, index)`: ValueError unless the txid has 32
      bytes, struct.error unless the index fits an unsigned 32-bit field;
      otherwise the txid reversed, then the index big-endian. */
  function OutPointToBytes(txid: seq<Byte>, index: int): (r: Result<seq<Byte>>)
    ensures |txid| != HashSize ==> r == Err(BadTxidLength)
    ensures |txid| == HashSize && !InU32(index) ==> r == Err(PackRange)
    ensures r.Ok? <==> |txid| == HashSize && InU32(index)
    ensures r.Ok? ==>
      (|r.value| == HashSize + 4 && Reverse(r.value[..HashSize]) == txid && FromBE(r.value[HashSize..]) == index)
  {
    if |txid| != HashSize then Err(BadTxidLength)
    else if !InU32(index) then Err(PackRange)
    else
      var idx := EncU32(index);
      U32RoundTrip(index, []);
      assert idx + [] == idx;
      assert (Reverse(txid) + idx)[..HashSize] == Reverse(txid);
      assert (Reverse(txid) + idx)[HashSize..] == idx;
      ReverseReverse(txid);
      Ok(Reverse(txid) + idx)
  }

  /** Two outpoints have the same key only if they are the same outpoint. */
  lemma OutPointToBytesInjective(t1: seq<Byte>, i1: int, t2: seq<Byte>, i2: int)
    requires OutPointToBytes(t1, i1).Ok? && OutPointToBytes(t1, i1) == OutPointToBytes(t2, i2)
    ensures t1 == t2 && i1 == i2
  {
  }

  /** The two `outpoint_to_bytes` of the repository disagree on byte order:
      util/utils.py keeps the txid as stored, utils/utils.py reverses it;
      the index field is the same. */
  lemma OutPointKeysDiffer(op: Chain.OutPoint)
    requires InU32(op.index)
    ensures Util.OutPointToBytes(op).Ok? && OutPointToBytes(op.hash, op.index).Ok?
    ensures OutPointToBytes(op.hash, op.index).value
      == Reverse(Util.OutPointToBytes(op).value[..HashSize]) + Util.OutPointToBytes(op).value[HashSize..]
  {
    var a := Util.OutPointToBytes(op).value;
    var b := OutPointToBytes(op.hash, op.index).value;
    assert a == a[..HashSize] + a[HashSize..];
    assert b == b[..HashSize] + b[HashSize..];
    ReverseReverse(b[..HashSize]);
    ToFromBE(a[HashSize..]);
    ToFromBE(b[HashSize..]);
  }
}
